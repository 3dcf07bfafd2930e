/**
 The asynchronous logger's single-producer, single-consumer ring, as interleaved micro-steps.

 Each side owns one index and reads the other's.  A read may return any value the other side
 stored since the last value read, which is what acquire and release permit.  A slot is written
 and read field by field and its message character by character, so a torn record would show.
 */
module LogRing {

  /** Size of the ring; one slot stays empty. */
  const CAPACITY := 4096
  const MAX_MESSAGE := 256

  datatype Level = Debug | Info | Warn | Error

  datatype Meta = Meta(timestamp: int, functionName: string, level: Level)

  /** A slot keeps its old bytes past `len`. */
  datatype Slot = Slot(meta: Meta, data: string, len: nat)

  /** One line of output, and one call of `Emit` after truncation. */
  datatype Entry = Entry(meta: Meta, text: string)

  datatype Producer =
    | Idle
    | LoadHead(e: Entry)
    | CountDrop(e: Entry)
    | WriteTimestamp(e: Entry)
    | WriteFunction(e: Entry)
    | WriteLevel(e: Entry)
    | WriteData(e: Entry, copied: nat)
    | WriteLen(e: Entry)
    | PublishTail(e: Entry)

  datatype Consumer =
    | TakeDrops
    | LoadTail
    | CheckRunning
    | ReadTimestamp
    | ReadLevel(timestamp: int)
    | ReadFunction(timestamp: int, level: Level)
    | ReadLen(meta: Meta)
    | ReadData(meta: Meta, len: nat, text: string)
    | PublishHead
    | Done

  datatype State = State(
    ring: seq<Slot>,
    head: nat,
    tail: nat,
    dropped: nat,
    running: bool,
    producer: Producer,
    consumer: Consumer,
    // History: how often each index was stored, and the latest store the other side has seen.
    pops: nat,
    pushes: nat,
    popsSeen: nat,
    pushesSeen: nat,
    emits: nat,
    accepted: seq<Entry>,
    printed: seq<Entry>,
    reported: nat)

  datatype Step =
    | Emit(meta: Meta, message: string)
    | ProducerLoads(pops: nat)
    | ProducerMoves
    | ConsumerLoads(pushes: nat)
    | ConsumerMoves
    | Shutdown

  function Truncate(message: string): string {
    if |message| <= MAX_MESSAGE then message else message[..MAX_MESSAGE]
  }

  predicate WellFormed(s: State) {
    && |s.ring| == CAPACITY
    && s.head < CAPACITY && s.tail < CAPACITY
    && (forall i :: 0 <= i < CAPACITY ==> |s.ring[i].data| == MAX_MESSAGE && s.ring[i].len <= MAX_MESSAGE)
    && (!s.producer.Idle? ==> |s.producer.e.text| <= MAX_MESSAGE)
    && (s.producer.WriteData? ==> s.producer.copied <= |s.producer.e.text|)
    && (s.consumer.ReadData? ==> |s.consumer.text| <= s.consumer.len <= MAX_MESSAGE)
  }

  predicate Enabled(s: State, step: Step) {
    match step
    case Emit(_, _) => s.producer.Idle?
    case ProducerLoads(p) => s.producer.LoadHead? && s.popsSeen <= p <= s.pops
    case ProducerMoves => !s.producer.Idle? && !s.producer.LoadHead?
    case ConsumerLoads(p) => s.consumer.LoadTail? && s.pushesSeen <= p <= s.pushes
    case ConsumerMoves => !s.consumer.LoadTail? && !s.consumer.Done?
    case Shutdown => true
  }

  function Next(i: nat): nat {
    (i + 1) % 4096
  }

  function Apply(s: State, step: Step): State
    requires WellFormed(s) && Enabled(s, step)
  {
    match step
    case Emit(meta, message) =>
      s.(producer := LoadHead(Entry(meta, Truncate(message))), emits := s.emits + 1)
    case ProducerLoads(p) =>
      // The comparison is on the index the load returned, `p % 4096`.
      if Next(s.tail) == p % 4096 then
        s.(producer := CountDrop(s.producer.e), popsSeen := p)
      else
        s.(producer := WriteTimestamp(s.producer.e), popsSeen := p)
    case ProducerMoves => Produce(s)
    case ConsumerLoads(p) =>
      if s.head == p % 4096 then s.(consumer := CheckRunning, pushesSeen := p)
      else s.(consumer := ReadTimestamp, pushesSeen := p)
    case ConsumerMoves => Consume(s)
    case Shutdown => s.(running := false)
  }

  function Produce(s: State): State
    requires WellFormed(s) && Enabled(s, ProducerMoves)
  {
    var slot := s.ring[s.tail];
    match s.producer
    case CountDrop(_) => s.(dropped := s.dropped + 1, producer := Idle)
    case WriteTimestamp(e) =>
      s.(ring := s.ring[s.tail := slot.(meta := slot.meta.(timestamp := e.meta.timestamp))], producer := WriteFunction(e))
    case WriteFunction(e) =>
      s.(ring := s.ring[s.tail := slot.(meta := slot.meta.(functionName := e.meta.functionName))], producer := WriteLevel(e))
    case WriteLevel(e) =>
      s.(ring := s.ring[s.tail := slot.(meta := slot.meta.(level := e.meta.level))], producer := WriteData(e, 0))
    case WriteData(e, copied) =>
      if copied == |e.text| then s.(producer := WriteLen(e))
      else s.(ring := s.ring[s.tail := slot.(data := slot.data[copied := e.text[copied]])],
              producer := WriteData(e, copied + 1))
    case WriteLen(e) =>
      s.(ring := s.ring[s.tail := slot.(len := |e.text|)], producer := PublishTail(e))
    case PublishTail(e) =>
      s.(tail := Next(s.tail), pushes := s.pushes + 1, accepted := s.accepted + [e], producer := Idle)
  }

  function Consume(s: State): State
    requires WellFormed(s) && Enabled(s, ConsumerMoves)
  {
    var slot := s.ring[s.head];
    match s.consumer
    case TakeDrops => s.(reported := s.reported + s.dropped, dropped := 0, consumer := LoadTail)
    case CheckRunning => s.(consumer := if s.running then TakeDrops else Done)
    case ReadTimestamp => s.(consumer := ReadLevel(slot.meta.timestamp))
    case ReadLevel(timestamp) => s.(consumer := ReadFunction(timestamp, slot.meta.level))
    case ReadFunction(timestamp, level) => s.(consumer := ReadLen(Meta(timestamp, slot.meta.functionName, level)))
    case ReadLen(meta) => s.(consumer := ReadData(meta, slot.len, ""))
    case ReadData(meta, len, text) =>
      if |text| == len then s.(printed := s.printed + [Entry(meta, text)], consumer := PublishHead)
      else s.(consumer := ReadData(meta, len, text + [slot.data[|text|]]))
    case PublishHead => s.(head := Next(s.head), pops := s.pops + 1, consumer := TakeDrops)
  }

  ghost predicate Initial(s: State) {
    && WellFormed(s)
    && s.head == s.tail == 0 && s.dropped == 0 && s.running
    && s.producer == Idle && s.consumer == TakeDrops
    && s.pops == s.pushes == s.popsSeen == s.pushesSeen == s.emits == s.reported == 0
    && s.accepted == [] && s.printed == []
  }

  predicate Writing(s: State) {
    !s.producer.Idle? && !s.producer.LoadHead? && !s.producer.CountDrop?
  }

  predicate Reading(s: State) {
    || s.consumer.ReadTimestamp? || s.consumer.ReadLevel? || s.consumer.ReadFunction?
    || s.consumer.ReadLen? || s.consumer.ReadData? || s.consumer.PublishHead?
  }

  ghost predicate Holds(slot: Slot, e: Entry) {
    slot.meta == e.meta && slot.len == |e.text| <= |slot.data| && slot.data[..slot.len] == e.text
  }

  ghost predicate Indices(s: State) {
    && s.head == s.pops % 4096
    && s.tail == s.pushes % 4096
    && |s.accepted| == s.pushes
    && s.popsSeen <= s.pops <= s.pushesSeen <= s.pushes < s.popsSeen + 4096
    && (Writing(s) ==> s.pushes + 1 < s.popsSeen + 4096)
    && (Reading(s) ==> s.pops < s.pushesSeen)
  }

  /** Record `k` of the history is intact in its slot. */
  ghost predicate Intact(s: State, k: nat)
    requires WellFormed(s) && k < |s.accepted|
  {
    Holds(s.ring[k % 4096], s.accepted[k])
  }

  ghost predicate HalfWritten(s: State)
    requires WellFormed(s)
  {
    var slot := s.ring[s.tail];
    match s.producer
    case WriteFunction(e) => slot.meta.timestamp == e.meta.timestamp
    case WriteLevel(e) => slot.meta.timestamp == e.meta.timestamp && slot.meta.functionName == e.meta.functionName
    case WriteData(e, copied) => slot.meta == e.meta && slot.data[..copied] == e.text[..copied]
    case WriteLen(e) => slot.meta == e.meta && slot.data[..|e.text|] == e.text
    case PublishTail(e) => Holds(slot, e)
    case _ => true
  }

  /** What the consumer has read so far of the record at the front. */
  ghost predicate HalfRead(c: Consumer, e: Entry) {
    match c
    case ReadLevel(timestamp) => timestamp == e.meta.timestamp
    case ReadFunction(timestamp, level) => timestamp == e.meta.timestamp && level == e.meta.level
    case ReadLen(meta) => meta == e.meta
    case ReadData(meta, len, text) => meta == e.meta && len == |e.text| && text <= e.text
    case _ => true
  }

  ghost predicate Output(s: State)
    requires s.pops <= |s.accepted|
  {
    && (Reading(s) ==> s.pops < |s.accepted| && HalfRead(s.consumer, s.accepted[s.pops]))
    && s.printed == s.accepted[..if s.consumer.PublishHead? then s.pops + 1 else s.pops]
  }

  ghost predicate Inv(s: State) {
    && WellFormed(s)
    && Indices(s)
    && (forall k :: s.pops <= k < s.pushes ==> Intact(s, k))
    && HalfWritten(s)
    && Output(s)
    && s.emits == |s.accepted| + s.reported + s.dropped + (if s.producer.Idle? then 0 else 1)
  }

  lemma NextIndex(k: nat)
    ensures (k + 1) % 4096 == Next(k % 4096)
  {
  }

  /** Distinct stores less than a lap apart have distinct indices. */
  lemma DistinctIndices(j: nat, k: nat)
    requires j < k < j + 4096
    ensures j % 4096 != k % 4096
  {
  }

  /** Writing the free slot at `tail` leaves every published record intact. */
  lemma WritesOutsideRecords(s: State, slot: Slot, k: nat)
    requires Inv(s) && Writing(s) && s.pops <= k < s.pushes
    requires |slot.data| == MAX_MESSAGE && slot.len <= MAX_MESSAGE
    ensures s.tail != k % 4096
    ensures Intact(s.(ring := s.ring[s.tail := slot]), k)
  {
    DistinctIndices(k, s.pushes);
    assert Intact(s, k);
  }

  /** One store into the free slot, and what it then holds. */
  lemma WritePart(s: State)
    requires WellFormed(s) && Writing(s) && !s.producer.PublishTail? && HalfWritten(s)
    ensures WellFormed(Produce(s)) && Writing(Produce(s)) && HalfWritten(Produce(s))
  {
    if s.producer.WriteData? && s.producer.copied < |s.producer.e.text| {
      var e, n := s.producer.e, s.producer.copied;
      assert e.text[..n + 1] == e.text[..n] + [e.text[n]];
      assert Produce(s).ring[s.tail].data[..n + 1] == s.ring[s.tail].data[..n] + [e.text[n]];
    }
  }

  lemma WriteStep(s: State)
    requires Inv(s) && Writing(s) && !s.producer.PublishTail?
    ensures Inv(Produce(s))
  {
    hide HalfWritten, Holds, HalfRead;
    var t := Produce(s);
    WritePart(s);
    forall k | t.pops <= k < t.pushes ensures Intact(t, k) {
      WritesOutsideRecords(s, t.ring[s.tail], k);
    }
  }

  lemma PublishStep(s: State)
    requires Inv(s) && s.producer.PublishTail?
    ensures Inv(Produce(s))
  {
    var t := Produce(s);
    NextIndex(s.pushes);
    forall k | t.pops <= k < t.pushes ensures Intact(t, k) {
      if k < s.pushes {
        assert Intact(s, k);
      }
    }
  }

  /** One read of the record at the front gives that part of what was accepted. */
  lemma ReadPart(s: State, slot: Slot, e: Entry)
    requires WellFormed(s) && Reading(s) && !s.consumer.PublishHead? && slot == s.ring[s.head]
    requires Holds(slot, e) && HalfRead(s.consumer, e)
    ensures var t := Consume(s); WellFormed(t) && Reading(t) && HalfRead(t.consumer, e)
    ensures Consume(s).printed == if Consume(s).consumer.PublishHead? then s.printed + [e] else s.printed
  {
    if s.consumer.ReadData? {
      var text := s.consumer.text;
      if |text| < s.consumer.len {
        assert slot.data[|text|] == slot.data[..slot.len][|text|] == e.text[|text|];
      } else {
        assert text == e.text;
      }
    }
  }

  lemma ReadStep(s: State)
    requires Inv(s) && Reading(s) && !s.consumer.PublishHead?
    ensures Inv(Consume(s))
  {
    hide HalfRead, Holds, HalfWritten;
    var t, e := Consume(s), s.accepted[s.pops];
    assert Intact(s, s.pops);
    ReadPart(s, s.ring[s.head], e);
    assert s.accepted[..s.pops + 1] == s.accepted[..s.pops] + [e];
    SameRecords(s, t);
    HalfWrittenSame(s, t);
  }

  lemma HalfWrittenSame(s: State, t: State)
    requires WellFormed(s) && WellFormed(t) && HalfWritten(s)
    requires t.ring == s.ring && t.tail == s.tail && t.producer == s.producer
    ensures HalfWritten(t)
  {
  }

  lemma ConsumerStep(s: State)
    requires Inv(s) && Enabled(s, ConsumerMoves)
    ensures Inv(Consume(s))
  {
    hide HalfRead, Holds, HalfWritten;
    if Reading(s) && !s.consumer.PublishHead? {
      ReadStep(s);
    } else {
      var t := Consume(s);
      NextIndex(s.pops);
      SameRecords(s, t);
      HalfWrittenSame(s, t);
    }
  }

  lemma ProducerLoadStep(s: State, p: nat)
    requires Inv(s) && Enabled(s, ProducerLoads(p))
    ensures Inv(Apply(s, ProducerLoads(p)))
  {
    var t := Apply(s, ProducerLoads(p));
    NextIndex(s.pushes);
    assert s.pushes + 1 == p + 4096 ==> Next(s.tail) == p % 4096;
    SameRecords(s, t);
  }

  lemma ConsumerLoadStep(s: State, p: nat)
    requires Inv(s) && Enabled(s, ConsumerLoads(p))
    ensures Inv(Apply(s, ConsumerLoads(p)))
  {
    var t := Apply(s, ConsumerLoads(p));
    SameRecords(s, t);
  }

  lemma SameRecords(s: State, t: State)
    requires Inv(s) && WellFormed(t) && t.ring == s.ring && t.accepted == s.accepted
    requires s.pops <= t.pops && t.pushes == s.pushes
    ensures forall k :: t.pops <= k < t.pushes ==> Intact(t, k)
  {
    forall k | t.pops <= k < t.pushes ensures Intact(t, k) {
      assert Intact(s, k);
    }
  }

  lemma StepKeepsInv(s: State, step: Step)
    requires Inv(s) && Enabled(s, step)
    ensures Inv(Apply(s, step))
  {
    match step
    case ProducerMoves =>
      if s.producer.PublishTail? {
        PublishStep(s);
      } else if s.producer.CountDrop? {
        SameRecords(s, Produce(s));
      } else {
        WriteStep(s);
      }
    case ConsumerMoves => ConsumerStep(s);
    case ProducerLoads(p) => ProducerLoadStep(s, p);
    case ConsumerLoads(p) => ConsumerLoadStep(s, p);
    case _ => SameRecords(s, Apply(s, step));
  }

  /** Any interleaving: `states[i + 1]` comes from `states[i]` by `steps[i]`. */
  ghost predicate IsRun(states: seq<State>, steps: seq<Step>) {
    && |states| == |steps| + 1
    && Initial(states[0])
    && forall i :: 0 <= i < |steps| ==>
         && WellFormed(states[i])
         && Enabled(states[i], steps[i])
         && states[i + 1] == Apply(states[i], steps[i])
  }

  lemma {:induction false} RunKeepsInv(states: seq<State>, steps: seq<Step>, i: nat)
    requires IsRun(states, steps) && i <= |steps|
    ensures Inv(states[i])
  {
    if i > 0 {
      RunKeepsInv(states, steps, i - 1);
      StepKeepsInv(states[i - 1], steps[i - 1]);
    }
  }

  /** Records published and not yet released, from the index variables alone. */
  function Occupied(s: State): int {
    if s.head <= s.tail then s.tail - s.head else s.tail + 4096 - s.head
  }

  /**
   In every interleaving: a slot being written is never one the consumer may read; what is
   printed is exactly a prefix of what was accepted; and every `Emit` call is accounted for once,
   as printed, waiting in the ring, reported dropped, dropped and unreported, or under way.
   */
  lemma RingSafety(states: seq<State>, steps: seq<Step>, i: nat)
    requires IsRun(states, steps) && i <= |steps|
    ensures var s := states[i];
            && (Writing(s) ==> forall k :: s.pops <= k < s.pushes ==> s.tail != k % 4096)
            && (Writing(s) && Reading(s) ==> s.head != s.tail)
            && s.printed <= s.accepted
            && |s.printed| == s.pops + (if s.consumer.PublishHead? then 1 else 0)
            && Occupied(s) <= 4095
            && s.emits == |s.printed| + (Occupied(s) - if s.consumer.PublishHead? then 1 else 0)
                          + s.reported + s.dropped + (if s.producer.Idle? then 0 else 1)
  {
    RunKeepsInv(states, steps, i);
    var s := states[i];
    if Writing(s) {
      forall k | s.pops <= k < s.pushes ensures s.tail != k % 4096 {
        DistinctIndices(k, s.pushes);
      }
    }
    OccupiedCounts(s.pops, s.pushes);
  }

  lemma OccupiedCounts(pops: nat, pushes: nat)
    requires pops <= pushes < pops + 4096
    ensures var h, t := pops % 4096, pushes % 4096;
            pushes - pops == if h <= t then t - h else t + 4096 - h
  {
  }

  /** A message is dropped exactly when the ring, as last seen, was full; nothing else counts a drop. */
  lemma DropOnlyWhenFull(states: seq<State>, steps: seq<Step>, i: nat)
    requires IsRun(states, steps) && i < |steps|
    ensures steps[i].ProducerLoads? ==> (states[i + 1].producer.CountDrop? <==> states[i].pushes == steps[i].pops + 4095)
    ensures states[i + 1].dropped > states[i].dropped <==> steps[i].ProducerMoves? && states[i].producer.CountDrop?
  {
    RunKeepsInv(states, steps, i);
    if steps[i].ProducerLoads? {
      var s, p := states[i], steps[i].pops;
      NextIndex(s.pushes);
      if s.pushes + 1 < p + 4096 {
        DistinctIndices(p, s.pushes + 1);
      }
    }
  }

  // What a record says of the call that made it, read off the steps alone.

  /** The call under way or just ended: the last `Emit` step, if there is one. */
  function LastEmit(steps: seq<Step>): seq<Step> {
    if steps == [] then []
    else if steps[|steps| - 1].Emit? then [steps[|steps| - 1]]
    else LastEmit(steps[..|steps| - 1])
  }

  /** The calls that were not dropped: the producer's look at the index decides, 4095 records on it is full. */
  function Kept(steps: seq<Step>): seq<Step> {
    if steps == [] then []
    else
      var front, last := steps[..|steps| - 1], steps[|steps| - 1];
      if last.ProducerLoads? && |Kept(front)| != last.pops + 4095 then Kept(front) + LastEmit(front) else Kept(front)
  }

  /** The entry carries what the call was given, the message cut to 256 characters. */
  ghost predicate Records(e: Entry, call: Step) {
    && call.Emit? && e.meta == call.meta
    && e.text <= call.message
    && |e.text| == if |call.message| < 256 then |call.message| else 256
  }

  /** The records published, and the one being written. */
  function InHand(s: State): seq<Entry> {
    if Writing(s) then s.accepted + [s.producer.e] else s.accepted
  }

  ghost predicate AllRecord(es: seq<Entry>, calls: seq<Step>) {
    |es| == |calls| && forall k :: 0 <= k < |es| ==> Records(es[k], calls[k])
  }

  /** What is in the producer's hands belongs to the last call. */
  ghost predicate Explained(s: State, steps: seq<Step>) {
    && AllRecord(InHand(s), Kept(steps))
    && (!s.producer.Idle? ==> |LastEmit(steps)| == 1 && Records(s.producer.e, LastEmit(steps)[0]))
  }

  lemma {:induction false} LoadExplained(s: State, front: seq<Step>, p: nat)
    requires Inv(s) && Enabled(s, ProducerLoads(p)) && Explained(s, front)
    ensures Explained(Apply(s, ProducerLoads(p)), front + [ProducerLoads(p)])
  {
    hide Records, Inv;
    var steps := front + [ProducerLoads(p)];
    assert steps[..|front|] == front;
    LoadDecides(s, p);
  }

  lemma LoadDecides(s: State, p: nat)
    requires Inv(s) && Enabled(s, ProducerLoads(p))
    ensures Next(s.tail) == p % 4096 <==> |s.accepted| == p + 4095
  {
    hide Holds, HalfRead, HalfWritten, Output;
    NextIndex(s.pushes);
    if s.pushes + 1 < p + 4096 {
      DistinctIndices(p, s.pushes + 1);
    }
  }

  lemma {:induction false} EmitExplained(s: State, front: seq<Step>, call: Step)
    requires WellFormed(s) && call.Emit? && Enabled(s, call) && Explained(s, front)
    ensures Explained(Apply(s, call), front + [call])
  {
    assert (front + [call])[..|front|] == front;
  }

  lemma {:induction false} MoveExplained(s: State, front: seq<Step>, step: Step)
    requires WellFormed(s) && !step.Emit? && !step.ProducerLoads? && Enabled(s, step) && Explained(s, front)
    ensures Explained(Apply(s, step), front + [step])
  {
    hide Records;
    assert (front + [step])[..|front|] == front;
  }

  lemma {:induction false} RunExplained(states: seq<State>, steps: seq<Step>, i: nat)
    requires IsRun(states, steps) && i <= |steps|
    ensures Explained(states[i], steps[..i])
  {
    hide Inv, Explained, WellFormed, Apply;
    if i == 0 {
      NothingExplained(states[0]);
    } else {
      RunExplained(states, steps, i - 1);
      RunKeepsInv(states, steps, i - 1);
      var s, front, step := states[i - 1], steps[..i - 1], steps[i - 1];
      assert steps[..i] == front + [step];
      match step
      case Emit(_, _) => EmitExplained(s, front, step);
      case ProducerLoads(p) => LoadExplained(s, front, p);
      case _ => MoveExplained(s, front, step);
    }
  }

  lemma NothingExplained(s: State)
    requires Initial(s)
    ensures Explained(s, [])
  {
  }

  /**
   In every interleaving the records published, plus the one being written, are exactly the `Emit` calls
   that were not dropped, in order, each with the arguments of its call and its message cut to 256
   characters; and line `k` of the output is the `k`-th of those calls.
   */
  lemma OutputIsCalls(states: seq<State>, steps: seq<Step>, i: nat)
    requires IsRun(states, steps) && i <= |steps|
    ensures AllRecord(InHand(states[i]), Kept(steps[..i]))
    ensures |states[i].printed| <= |Kept(steps[..i])|
    ensures forall k :: 0 <= k < |states[i].printed| ==> Records(states[i].printed[k], Kept(steps[..i])[k])
  {
    hide Records, Kept;
    RunExplained(states, steps, i);
    RingSafety(states, steps, i);
  }
}
