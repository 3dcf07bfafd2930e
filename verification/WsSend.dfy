/**
 The send pipeline of one connection: frames are queued in a ring that at most one asynchronous
 write drains, a contiguous region at a time, with batching to hold writes back.
 */
module WsSend {
  import opened Common
  import Ring
  import opened WebSocketFrame

  /** Capacity of the transmit ring, 16 KiB. */
  const CAPACITY := 0x4000

  /**
   The sender between two events.  `inFlight` is the length of the region handed to the write that
   is outstanding; `committed` and `frames` record what has left and what was asked for.
   */
  datatype Sender = Sender(
    connected: bool,
    readPos: nat,
    queued: Bytes,
    writeInFlight: bool,
    inFlight: nat,
    batching: bool,
    committed: Bytes,
    frames: seq<Bytes>)

  const FRESH := Sender(true, 0, [], false, 0, false, [], [])

  datatype Op =
    | WriteRaw(frame: Bytes)
    | BeginBatch
    | EndBatch
    | WriteDone

  function StartWrite(s: Sender): Sender
    requires s.readPos < CAPACITY
  {
    if !s.connected then s
    else s.(writeInFlight := true, inFlight := Min(|s.queued|, CAPACITY - s.readPos))
  }

  /** A frame that does not fit the ring makes the write throw, which ends the run. */
  predicate Enabled(s: Sender, op: Op) {
    match op
    case WriteRaw(frame) => |frame| <= CAPACITY - |s.queued|
    case WriteDone => s.writeInFlight
    case _ => true
  }

  predicate Shaped(s: Sender) {
    s.readPos < CAPACITY && s.inFlight <= |s.queued| <= CAPACITY
  }

  function Apply(s: Sender, op: Op): Sender
    requires Shaped(s) && Enabled(s, op)
  {
    match op
    case WriteRaw(frame) =>
      var q := s.(queued := s.queued + frame, frames := s.frames + [frame]);
      if !q.writeInFlight && !q.batching then StartWrite(q) else q
    case BeginBatch => s.(batching := true)
    case EndBatch =>
      var e := s.(batching := false);
      if !e.writeInFlight then StartWrite(e) else e
    case WriteDone =>
      var c := s.(readPos := Ring.Wrap(s.readPos + s.inFlight, CAPACITY), queued := s.queued[s.inFlight..],
                  committed := s.committed + s.queued[..s.inFlight], inFlight := 0);
      if |c.queued| > 0 then StartWrite(c) else c.(writeInFlight := false)
  }

  ghost predicate Inv(s: Sender) {
    && Shaped(s)
    && s.committed + s.queued == Flatten(s.frames)
    && (s.writeInFlight ==> s.connected && s.inFlight <= CAPACITY - s.readPos)
    && (!s.writeInFlight ==> s.inFlight == 0)
    && (s.connected && !s.writeInFlight && !s.batching ==> s.queued == [])
  }

  lemma StepKeepsInv(s: Sender, op: Op)
    requires Inv(s) && Enabled(s, op)
    ensures Inv(Apply(s, op))
  {
    match op
    case WriteRaw(frame) =>
      FlattenAppend(s.frames, frame);
      assert s.committed + (s.queued + frame) == s.committed + s.queued + frame;
    case WriteDone =>
      assert s.committed + s.queued[..s.inFlight] + s.queued[s.inFlight..] == s.committed + s.queued;
    case _ =>
  }

  /** The frames asked for, in call order. */
  function Asked(ops: seq<Op>): seq<Bytes> {
    if ops == [] then []
    else Asked(ops[..|ops| - 1]) + (match ops[|ops| - 1] case WriteRaw(frame) => [frame] case _ => [])
  }

  /** Any interleaving of sends, batches and write completions on a connection that starts empty. */
  ghost predicate IsRun(states: seq<Sender>, ops: seq<Op>) {
    && |states| == |ops| + 1
    && states[0] == FRESH
    && forall i :: 0 <= i < |ops| ==> StepAt(states, ops, i)
  }

  ghost predicate StepAt(states: seq<Sender>, ops: seq<Op>, i: nat)
    requires |states| == |ops| + 1 && i < |ops|
  {
    Shaped(states[i]) && Enabled(states[i], ops[i]) && states[i + 1] == Apply(states[i], ops[i])
  }

  lemma {:induction false} RunKeepsInv(states: seq<Sender>, ops: seq<Op>, i: nat)
    requires IsRun(states, ops) && i <= |ops|
    ensures Inv(states[i])
    ensures states[i].frames == Asked(ops[..i]) && states[i].connected
  {
    if i > 0 {
      RunKeepsInv(states, ops, i - 1);
      assert StepAt(states, ops, i - 1);
      StepKeepsInv(states[i - 1], ops[i - 1]);
      assert ops[..i][..i - 1] == ops[..i - 1];
    }
  }

  /**
   At every point of every run: the bytes that left plus the bytes queued are the frames asked
   for, in call order, and with nothing held back or in flight they have all left.
   */
  lemma BytesConserved(states: seq<Sender>, ops: seq<Op>, i: nat)
    requires IsRun(states, ops) && i <= |ops|
    ensures states[i].committed + states[i].queued == Flatten(Asked(ops[..i]))
    ensures !states[i].writeInFlight && !states[i].batching ==> states[i].committed == Flatten(Asked(ops[..i]))
  {
    RunKeepsInv(states, ops, i);
    if states[i].queued == [] {
      assert states[i].committed + states[i].queued == states[i].committed;
    }
  }

  /**
   A server that decodes what left gets a prefix of the client's frames, whole, in order and with
   their payloads unmasked, for any masking keys; with nothing held back or in flight, all of them.
   */
  lemma FifoDelivery(states: seq<Sender>, ops: seq<Op>, i: nat, fs: seq<WireFrame>)
    requires IsRun(states, ops) && i <= |ops|
    requires AllMasked(fs) && Encodings(Asked(ops[..i]), fs)
    ensures ParseAll(states[i].committed) <= fs
    ensures !states[i].writeInFlight && !states[i].batching ==> ParseAll(states[i].committed) == fs
  {
    BytesConserved(states, ops, i);
    FlattenEncodings(Asked(ops[..i]), fs);
    ServerRecoversAll(fs);
    ParsePrefix(states[i].committed, states[i].queued);
  }

  /** While a write is outstanding no other starts, and its bytes stay at the front of the queue. */
  lemma OutstandingWriteUntouched(s: Sender, op: Op)
    requires Inv(s) && Enabled(s, op) && s.writeInFlight && !op.WriteDone?
    ensures var t := Apply(s, op);
            && t.writeInFlight && t.inFlight == s.inFlight && t.readPos == s.readPos
            && s.inFlight <= |t.queued| && t.queued[..s.inFlight] == s.queued[..s.inFlight]
            && t.committed == s.committed
  {
  }

  function Drain(s: Sender): Sender
    requires Shaped(s)
  {
    if s.writeInFlight then Apply(s, WriteDone) else s
  }

  /**
   Three completed writes empty the ring (the outstanding one, one to the wrap point, one past it)
   exactly when something starts them: a write is out, nothing is held back, or there is nothing to send.
   */
  lemma DrainsInThreeWrites(s: Sender)
    requires Inv(s) && s.connected
    ensures Inv(Drain(s)) && Inv(Drain(Drain(s)))
    ensures Drain(Drain(Drain(s))).queued == [] <==> s.writeInFlight || !s.batching || s.queued == []
  {
    if s.writeInFlight {
      StepKeepsInv(s, WriteDone);
      var a := Drain(s);
      if a.writeInFlight {
        StepKeepsInv(a, WriteDone);
        var b := Drain(a);
        if b.writeInFlight {
          assert b.readPos == 0;
          assert b.inFlight == |b.queued|;
        }
      }
    }
  }

  /** Ending a batch always lets the ring drain. */
  lemma EndBatchDrains(s: Sender)
    requires Inv(s) && s.connected
    ensures var e := Apply(s, EndBatch);
            Inv(e) && Inv(Drain(e)) && Inv(Drain(Drain(e))) && Drain(Drain(Drain(e))).queued == []
  {
    StepKeepsInv(s, EndBatch);
    DrainsInThreeWrites(Apply(s, EndBatch));
  }
}
