/** The two-sided book and the sequencing of the messages that change it. */
module OrderBook {
  import opened Common
  import opened PriceLevels
  import opened BookDepth

  /** `prevSeqId` of a snapshot. */
  const SNAPSHOT_SEQ_ID := -1

  /** A number of the message: not there, not readable as a number, or read. */
  datatype Number = Missing | Unreadable | Read(value: int)

  /** The levels of one side in order, up to a malformed one if there is one. */
  datatype Levels = Absent | Present(updates: seq<Update>, broken: bool)

  datatype Fields = Fields(seqId: Number, prevSeqId: Number, bids: Levels, asks: Levels)

  /** A message of another channel, or without data, carries no fields. */
  datatype Message = Other | Books(fields: Fields)

  /** `Malformed` and `Broken` throw: before the book is touched, and with the book changed in part. */
  datatype Outcome = Ignored | Malformed | GapDetected | Broken | Applied

  datatype Book2 = Book2(bids: seq<Level>, asks: seq<Level>, lastSeqId: int, hasSnapshot: bool)

  const EMPTY := Book2([], [], -1, false)

  function SetAll(desc: bool, s: seq<Level>, us: seq<Update>): seq<Level> {
    if us == [] then s
    else SetLevel(desc, SetAll(desc, s, us[..|us| - 1]), us[|us| - 1].price, us[|us| - 1].size)
  }

  function Updates(side: Levels): seq<Update> {
    match side case Absent => [] case Present(us, _) => us
  }

  predicate IsBroken(side: Levels) {
    side.Present? && side.broken
  }

  function Classify(b: Book2, m: Message): Outcome {
    match m
    case Other => Ignored
    case Books(f) =>
      if f.seqId.Missing? || !f.prevSeqId.Read? then Malformed
      else if f.prevSeqId.value != SNAPSHOT_SEQ_ID && b.hasSnapshot && f.prevSeqId.value != b.lastSeqId then GapDetected
      else if IsBroken(f.bids) || IsBroken(f.asks) || f.seqId.Unreadable? then Broken
      else Applied
  }

  /** The book after the message; a broken one stops at the malformed level, or before its unreadable number. */
  function ApplyMessage(b: Book2, m: Message): Book2 {
    var out := Classify(b, m);
    if !out.Applied? && !out.Broken? then b
    else
      var f := m.fields;
      var snapshot := f.prevSeqId.value == SNAPSHOT_SEQ_ID;
      var start := if snapshot then b.(bids := [], asks := [], hasSnapshot := true) else b;
      var bids := SetAll(true, start.bids, Updates(f.bids));
      if IsBroken(f.bids) then start.(bids := bids)
      else
        var both := start.(bids := bids, asks := SetAll(false, start.asks, Updates(f.asks)));
        if out.Broken? then both else both.(lastSeqId := f.seqId.value)
  }

  class OrderBook {
    const bids: PriceLevels
    const asks: PriceLevels
    var lastSeqId: int
    var hasSnapshot: bool

    ghost const Repr: set<object>

    ghost predicate Valid()
      reads this, bids, bids.levels, asks, asks.levels
    {
      && Repr == {this, bids, bids.levels, asks, asks.levels}
      && bids != asks && bids.levels != asks.levels
      && bids.desc && !asks.desc && bids.Valid() && asks.Valid()
    }

    ghost function View(): Book2
      requires Valid()
      reads this, bids, bids.levels, asks, asks.levels
    {
      Book2(bids.Contents(), asks.Contents(), lastSeqId, hasSnapshot)
    }

    constructor ()
      ensures Valid() && fresh(Repr) && View() == EMPTY
    {
      var b := new PriceLevels(true);
      var a := new PriceLevels(false);
      bids, asks, lastSeqId, hasSnapshot := b, a, -1, false;
      Repr := {this, b, b.levels, a, a.levels};
    }

    method BeginSnapshot()
      requires Valid()
      modifies this, bids, asks
      ensures Valid() && View() == old(View()).(bids := [], asks := [], hasSnapshot := true)
    {
      bids.Clear();
      asks.Clear();
      hasSnapshot := true;
    }

    method ApplyBids(us: seq<Update>)
      requires Valid()
      modifies bids, bids.levels
      ensures Valid() && View() == old(View()).(bids := SetAll(true, old(View()).bids, us))
    {
      for i := 0 to |us|
        invariant Valid() && View() == old(View()).(bids := SetAll(true, old(View()).bids, us[..i]))
      {
        assert us[..i + 1][..i] == us[..i];
        bids.Set(us[i].price, us[i].size);
      }
      assert us[..|us|] == us;
    }

    method ApplyAsks(us: seq<Update>)
      requires Valid()
      modifies asks, asks.levels
      ensures Valid() && View() == old(View()).(asks := SetAll(false, old(View()).asks, us))
    {
      for i := 0 to |us|
        invariant Valid() && View() == old(View()).(asks := SetAll(false, old(View()).asks, us[..i]))
      {
        assert us[..i + 1][..i] == us[..i];
        asks.Set(us[i].price, us[i].size);
      }
      assert us[..|us|] == us;
    }

    method ApplyBookMessage(m: Message) returns (out: Outcome)
      requires Valid()
      modifies Repr
      ensures Valid() && out == Classify(old(View()), m) && View() == ApplyMessage(old(View()), m)
    {
      if m.Other? {
        return Ignored;
      }
      var f := m.fields;
      if f.seqId.Missing? || f.prevSeqId.Missing? {
        return Malformed;
      }
      if f.prevSeqId.Unreadable? {
        return Malformed;
      }
      var isSnapshot := f.prevSeqId.value == SNAPSHOT_SEQ_ID;
      if !isSnapshot && hasSnapshot && f.prevSeqId.value != lastSeqId {
        return GapDetected;
      }
      if isSnapshot {
        BeginSnapshot();
      }
      if f.bids.Present? {
        ApplyBids(f.bids.updates);
        if f.bids.broken {
          return Broken;
        }
      }
      if f.asks.Present? {
        ApplyAsks(f.asks.updates);
        if f.asks.broken {
          return Broken;
        }
      }
      if f.seqId.Unreadable? {
        return Broken;
      }
      lastSeqId := f.seqId.value;
      return Applied;
    }
  }
}

/**
 Sequencing: an exchange history and every way its messages may be lost, repeated or reordered.
 */
module BookSequencing {
  import opened Common
  import opened PriceLevels
  import opened BookDepth
  import opened OrderBook

  /** One true version of the book: its identifier and the updates that led to it. */
  datatype Version = Version(seqId: int, bids: seq<Update>, asks: seq<Update>)

  function AllBids(h: seq<Version>): seq<Update> {
    if h == [] then [] else AllBids(h[..|h| - 1]) + h[|h| - 1].bids
  }

  function AllAsks(h: seq<Version>): seq<Update> {
    if h == [] then [] else AllAsks(h[..|h| - 1]) + h[|h| - 1].asks
  }

  /** The true book at version `j`. */
  function TrueBids(h: seq<Version>, j: nat): Book
    requires j < |h|
  {
    ReplayMap(AllBids(h[..j + 1]))
  }

  function TrueAsks(h: seq<Version>, j: nat): Book
    requires j < |h|
  {
    ReplayMap(AllAsks(h[..j + 1]))
  }

  /** Identifiers are unique, none is the snapshot mark, and only present prices are deleted. */
  ghost predicate History(h: seq<Version>) {
    && (forall i, j :: 0 <= i < j < |h| ==> h[i].seqId != h[j].seqId)
    && (forall i :: 0 <= i < |h| ==> h[i].seqId != SNAPSHOT_SEQ_ID)
    && DeletesPresent(AllBids(h)) && DeletesPresent(AllAsks(h))
  }

  /** The incremental message that leads from version `i - 1` to version `i`. */
  ghost predicate IsUpdate(h: seq<Version>, m: Message, i: nat) {
    && 0 < i < |h| && m.Books?
    && m.fields.prevSeqId == Read(h[i - 1].seqId) && m.fields.seqId == Read(h[i].seqId)
    && !IsBroken(m.fields.bids) && !IsBroken(m.fields.asks)
    && Updates(m.fields.bids) == h[i].bids && Updates(m.fields.asks) == h[i].asks
  }

  ghost predicate AllPresent(us: seq<Update>) {
    forall i :: 0 <= i < |us| ==> us[i].size != 0.0
  }

  /** A snapshot of version `k`, its levels in any order. */
  ghost predicate IsSnapshot(h: seq<Version>, m: Message, k: nat) {
    && k < |h| && m.Books?
    && m.fields.prevSeqId == Read(SNAPSHOT_SEQ_ID) && m.fields.seqId == Read(h[k].seqId)
    && !IsBroken(m.fields.bids) && !IsBroken(m.fields.asks)
    && AllPresent(Updates(m.fields.bids)) && ReplayMap(Updates(m.fields.bids)) == TrueBids(h, k)
    && AllPresent(Updates(m.fields.asks)) && ReplayMap(Updates(m.fields.asks)) == TrueAsks(h, k)
  }

  /** The side was loaded by `us`, which replays the truth. */
  ghost predicate Follows(desc: bool, side: seq<Level>, us: seq<Update>, truth: Book) {
    side == ReplayArray(desc, us) && ReplayMap(us) == truth && DeletesPresent(us)
  }

  /** The book replays the true history up to version `j`, which is the one it names. */
  ghost predicate Tracks(h: seq<Version>, b: Book2, j: nat, bidUs: seq<Update>, askUs: seq<Update>) {
    && b.hasSnapshot && j < |h| && b.lastSeqId == h[j].seqId
    && Follows(true, b.bids, bidUs, TrueBids(h, j))
    && Follows(false, b.asks, askUs, TrueAsks(h, j))
  }

  lemma ArrayLast(desc: bool, us: seq<Update>, more: seq<Update>)
    requires more != []
    ensures var u := more[|more| - 1];
            ReplayArray(desc, us + more) == SetLevel(desc, ReplayArray(desc, us + more[..|more| - 1]), u.price, u.size)
  {
    assert (us + more)[..|us + more| - 1] == us + more[..|more| - 1];
  }

  lemma {:induction false} SetAllReplays(desc: bool, us: seq<Update>, more: seq<Update>)
    ensures SetAll(desc, ReplayArray(desc, us), more) == ReplayArray(desc, us + more)
  {
    if more == [] {
      assert us + more == us;
    } else {
      SetAllReplays(desc, us, more[..|more| - 1]);
      ArrayLast(desc, us, more);
    }
  }

  lemma ReplayLast(us: seq<Update>, more: seq<Update>)
    requires more != []
    ensures ReplayMap(us + more) == Apply(ReplayMap(us + more[..|more| - 1]), more[|more| - 1])
  {
    assert (us + more)[..|us + more| - 1] == us + more[..|more| - 1];
  }

  /** Feeds that lead to the same book lead on to the same book. */
  lemma {:induction false} SameBookOnwards(us: seq<Update>, vs: seq<Update>, more: seq<Update>)
    requires ReplayMap(us) == ReplayMap(vs)
    ensures ReplayMap(us + more) == ReplayMap(vs + more)
  {
    if more == [] {
      assert us + more == us && vs + more == vs;
    } else {
      SameBookOnwards(us, vs, more[..|more| - 1]);
      ReplayLast(us, more);
      ReplayLast(vs, more);
    }
  }

  lemma DeletesPresentOnwards(us: seq<Update>, vs: seq<Update>, more: seq<Update>)
    requires ReplayMap(us) == ReplayMap(vs) && DeletesPresent(us) && DeletesPresent(vs + more)
    ensures DeletesPresent(us + more)
  {
    var all := us + more;
    forall i | 0 <= i < |all| && all[i].size == 0.0 ensures all[i].price in ReplayMap(all[..i]) {
      if i < |us| {
        assert all[..i] == us[..i];
      } else {
        var n := i - |us|;
        assert all[..i] == us + more[..n];
        assert (vs + more)[..|vs| + n] == vs + more[..n] && (vs + more)[|vs| + n] == all[i];
        SameBookOnwards(us, vs, more[..n]);
      }
    }
  }

  lemma DeletesPresentPrefix(us: seq<Update>, more: seq<Update>)
    requires DeletesPresent(us + more)
    ensures DeletesPresent(us)
  {
    assert forall i :: 0 <= i < |us| ==> (us + more)[..i] == us[..i];
  }

  lemma AllPresentDeletesPresent(us: seq<Update>)
    requires AllPresent(us)
    ensures DeletesPresent(us)
  {
  }

  lemma {:induction false} HistoryPrefix(h: seq<Version>, n: nat)
    requires n <= |h|
    requires DeletesPresent(AllBids(h)) && DeletesPresent(AllAsks(h))
    ensures DeletesPresent(AllBids(h[..n])) && DeletesPresent(AllAsks(h[..n]))
  {
    if n < |h| {
      var k := |h| - 1;
      DeletesPresentPrefix(AllBids(h[..k]), h[k].bids);
      DeletesPresentPrefix(AllAsks(h[..k]), h[k].asks);
      HistoryPrefix(h[..k], n);
      assert h[..k][..n] == h[..n];
    } else {
      assert h[..n] == h;
    }
  }

  /** One side takes the updates of the next version. */
  lemma SideAdvances(desc: bool, side: seq<Level>, us: seq<Update>, before: seq<Update>, more: seq<Update>)
    requires Follows(desc, side, us, ReplayMap(before)) && DeletesPresent(before + more)
    ensures Follows(desc, SetAll(desc, side, more), us + more, ReplayMap(before + more))
  {
    SetAllReplays(desc, us, more);
    SameBookOnwards(us, before, more);
    DeletesPresentOnwards(us, before, more);
  }

  lemma UpdateTracks(h: seq<Version>, b: Book2, j: nat, bidUs: seq<Update>, askUs: seq<Update>, m: Message)
    requires History(h) && Tracks(h, b, j, bidUs, askUs) && IsUpdate(h, m, j + 1)
    ensures Tracks(h, ApplyMessage(b, m), j + 1, bidUs + h[j + 1].bids, askUs + h[j + 1].asks)
  {
    HistoryPrefix(h, j + 2);
    assert h[..j + 2][..j + 1] == h[..j + 1];
    SideAdvances(true, b.bids, bidUs, AllBids(h[..j + 1]), h[j + 1].bids);
    SideAdvances(false, b.asks, askUs, AllAsks(h[..j + 1]), h[j + 1].asks);
  }

  lemma SnapshotTracks(h: seq<Version>, b: Book2, k: nat, m: Message)
    requires History(h) && IsSnapshot(h, m, k)
    ensures Tracks(h, ApplyMessage(b, m), k, Updates(m.fields.bids), Updates(m.fields.asks))
  {
    var bids, asks := Updates(m.fields.bids), Updates(m.fields.asks);
    SetAllReplays(true, [], bids);
    SetAllReplays(false, [], asks);
    assert [] + bids == bids && [] + asks == asks;
    AllPresentDeletesPresent(bids);
    AllPresentDeletesPresent(asks);
  }

  ghost predicate SomeSnapshot(h: seq<Version>, m: Message) {
    exists k: nat :: IsSnapshot(h, m, k)
  }

  /** Deliveries: each an update or a snapshot of the history, or a message of another kind. */
  ghost predicate Delivered(h: seq<Version>, m: Message) {
    || m.Other?
    || (exists i: nat :: IsUpdate(h, m, i))
    || SomeSnapshot(h, m)
  }

  ghost predicate IsRun(h: seq<Version>, ms: seq<Message>, bs: seq<Book2>) {
    && |bs| == |ms| + 1 && bs[0] == EMPTY
    && forall t :: 0 <= t < |ms| ==> Delivered(h, ms[t]) && bs[t + 1] == ApplyMessage(bs[t], ms[t])
  }

  /** The delivery the book was last loaded by, the version that was, and the version reached since. */
  datatype Trace = Trace(delivery: nat, loaded: nat, version: nat)

  /** The updates between two versions. */
  function BidsBetween(h: seq<Version>, k: nat, j: nat): seq<Update>
    requires k <= j < |h|
  {
    AllBids(h[k + 1..j + 1])
  }

  function AsksBetween(h: seq<Version>, k: nat, j: nat): seq<Update>
    requires k <= j < |h|
  {
    AllAsks(h[k + 1..j + 1])
  }

  /** At delivery `t` the book is the snapshot it was loaded from and every update since, none missing or twice. */
  ghost predicate Explains(h: seq<Version>, ms: seq<Message>, b: Book2, t: nat, tr: Trace) {
    && tr.delivery < t <= |ms| && IsSnapshot(h, ms[tr.delivery], tr.loaded)
    && tr.loaded <= tr.version < |h|
    && Tracks(h, b, tr.version, Updates(ms[tr.delivery].fields.bids) + BidsBetween(h, tr.loaded, tr.version),
              Updates(ms[tr.delivery].fields.asks) + AsksBetween(h, tr.loaded, tr.version))
  }

  lemma BetweenStep(h: seq<Version>, k: nat, j: nat, bids: seq<Update>, asks: seq<Update>)
    requires k <= j && j + 1 < |h|
    ensures bids + BidsBetween(h, k, j) + h[j + 1].bids == bids + BidsBetween(h, k, j + 1)
    ensures asks + AsksBetween(h, k, j) + h[j + 1].asks == asks + AsksBetween(h, k, j + 1)
  {
    var longer := h[k + 1..j + 2];
    assert longer[..|longer| - 1] == h[k + 1..j + 1] && longer[|longer| - 1] == h[j + 1];
  }

  lemma LoadExplains(h: seq<Version>, ms: seq<Message>, b: Book2, t: nat, k: nat)
    requires History(h) && 0 < t <= |ms| && IsSnapshot(h, ms[t - 1], k)
    ensures Explains(h, ms, ApplyMessage(b, ms[t - 1]), t, Trace(t - 1, k, k))
  {
    hide Tracks, ApplyMessage, History, AllPresent, TrueBids, TrueAsks;
    var f := ms[t - 1].fields;
    SnapshotTracks(h, b, k, ms[t - 1]);
    assert h[k + 1..k + 1] == [];
    assert Updates(f.bids) + [] == Updates(f.bids) && Updates(f.asks) + [] == Updates(f.asks);
  }

  lemma UpdateExplains(h: seq<Version>, ms: seq<Message>, b: Book2, t: nat, tr: Trace)
    requires History(h) && 0 < t <= |ms| && Explains(h, ms, b, t - 1, tr) && IsUpdate(h, ms[t - 1], tr.version + 1)
    ensures Explains(h, ms, ApplyMessage(b, ms[t - 1]), t, tr.(version := tr.version + 1))
  {
    hide Tracks, ApplyMessage, History, BidsBetween, AsksBetween, AllPresent, TrueBids, TrueAsks;
    var f := ms[tr.delivery].fields;
    UpdateTracks(h, b, tr.version, Updates(f.bids) + BidsBetween(h, tr.loaded, tr.version),
                 Updates(f.asks) + AsksBetween(h, tr.loaded, tr.version), ms[t - 1]);
    BetweenStep(h, tr.loaded, tr.version, Updates(f.bids), Updates(f.asks));
  }

  /** A message that applies without being a snapshot is the next version. */
  lemma OnlyNextApplies(h: seq<Version>, b: Book2, j: nat, m: Message, i: nat)
    requires History(h) && j < |h| && b.hasSnapshot && b.lastSeqId == h[j].seqId
    requires IsUpdate(h, m, i) && Classify(b, m).Applied?
    ensures i == j + 1
  {
    assert h[i - 1].seqId == h[j].seqId;
  }

  /**
   Under any loss, repetition and reordering of deliveries, from the first snapshot on the book is
   always a replay of the true history up to the version it names.
   */
  lemma {:induction false} RunExplained(h: seq<Version>, ms: seq<Message>, bs: seq<Book2>, t: nat) returns (tr: Trace)
    requires History(h) && IsRun(h, ms, bs) && t <= |ms| && bs[t].hasSnapshot
    ensures Explains(h, ms, bs[t], t, tr)
  {
    assert bs[t] == ApplyMessage(bs[t - 1], ms[t - 1]) && Delivered(h, ms[t - 1]);
    var m := ms[t - 1];
    if SomeSnapshot(h, m) {
      var k: nat :| IsSnapshot(h, m, k);
      LoadExplains(h, ms, bs[t - 1], t, k);
      return Trace(t - 1, k, k);
    }
    NotLoaded(h, bs[t - 1], ms[t - 1]);
    tr := RunExplained(h, ms, bs, t - 1);
    tr := StepExplained(h, ms, bs[t - 1], t, tr);
  }

  /** Only a snapshot loads a book. */
  lemma NotLoaded(h: seq<Version>, b: Book2, m: Message)
    requires History(h) && Delivered(h, m) && !SomeSnapshot(h, m)
    ensures ApplyMessage(b, m).hasSnapshot == b.hasSnapshot
  {
  }

  /** Without a snapshot the book keeps its explanation or moves on by one version. */
  lemma StepExplained(h: seq<Version>, ms: seq<Message>, b: Book2, t: nat, before: Trace) returns (tr: Trace)
    requires History(h) && 0 < t <= |ms| && Explains(h, ms, b, t - 1, before)
    requires Delivered(h, ms[t - 1]) && !SomeSnapshot(h, ms[t - 1])
    ensures Explains(h, ms, ApplyMessage(b, ms[t - 1]), t, tr)
  {
    hide History, BidsBetween, AsksBetween, IsSnapshot, Follows, SetAll;
    tr := before;
    if Classify(b, ms[t - 1]).Applied? {
      var m := ms[t - 1];
      var i: nat :| IsUpdate(h, m, i);
      OnlyNextApplies(h, b, before.version, m, i);
      UpdateExplains(h, ms, b, t, before);
      tr := before.(version := i);
    }
  }

  lemma {:induction false} DeletionsAdd(us: seq<Update>, more: seq<Update>)
    ensures Deletions(us + more) == Deletions(us) + Deletions(more)
  {
    if more == [] {
      assert us + more == us;
    } else {
      assert (us + more)[..|us + more| - 1] == us + more[..|more| - 1];
      DeletionsAdd(us, more[..|more| - 1]);
    }
  }

  /** The front of a side, and its best price, are those of the listing while `d` is below 32. */
  ghost predicate TrueTop(side: seq<Level>, list: seq<Level>, d: nat) {
    d < CAPACITY ==>
      var n := Min(CAPACITY - d, |list|);
      && n <= |side| && side[..n] == list[..n]
      && (if list == [] then side == [] else side != [] && side[0] == list[0])
  }

  lemma SideIsTrueTop(desc: bool, side: seq<Level>, loaded: seq<Update>, since: seq<Update>, truth: Book, list: seq<Level>)
    requires Follows(desc, side, loaded + since, truth) && Lists(desc, list, truth) && AllPresent(loaded)
    ensures TrueTop(side, list, Deletions(since))
  {
    DeletionsAdd(loaded, since);
    NoDeletions(loaded);
    DepthBound(desc, loaded + since, list);
    if Deletions(since) < CAPACITY {
      BestIsRight(desc, loaded + since, list);
    }
  }

  /**
   Put together: after the first snapshot, in every run, the first `32 - d` levels of each side are
   those of the true book at the version the book names, where `d` counts the deletions on that
   side since it was last loaded; so the best prices are the true ones while `d` is below 32.
   */
  lemma BookIsTrueTop(h: seq<Version>, ms: seq<Message>, bs: seq<Book2>, t: nat) returns (tr: Trace)
    requires History(h) && IsRun(h, ms, bs) && t <= |ms| && bs[t].hasSnapshot
    ensures Explains(h, ms, bs[t], t, tr) && bs[t].lastSeqId == h[tr.version].seqId
    ensures forall list :: Lists(true, list, TrueBids(h, tr.version)) ==>
              TrueTop(bs[t].bids, list, Deletions(BidsBetween(h, tr.loaded, tr.version)))
    ensures forall list :: Lists(false, list, TrueAsks(h, tr.version)) ==>
              TrueTop(bs[t].asks, list, Deletions(AsksBetween(h, tr.loaded, tr.version)))
  {
    tr := RunExplained(h, ms, bs, t);
    var f := ms[tr.delivery].fields;
    forall list | Lists(true, list, TrueBids(h, tr.version))
      ensures TrueTop(bs[t].bids, list, Deletions(BidsBetween(h, tr.loaded, tr.version)))
    {
      SideIsTrueTop(true, bs[t].bids, Updates(f.bids), BidsBetween(h, tr.loaded, tr.version), TrueBids(h, tr.version), list);
    }
    forall list | Lists(false, list, TrueAsks(h, tr.version))
      ensures TrueTop(bs[t].asks, list, Deletions(AsksBetween(h, tr.loaded, tr.version)))
    {
      SideIsTrueTop(false, bs[t].asks, Updates(f.asks), AsksBetween(h, tr.loaded, tr.version), TrueAsks(h, tr.version), list);
    }
  }

  /** The front of the side is the level of the true book whose price no other beats: the highest bid, the lowest ask. */
  ghost predicate TrueBest(side: seq<Level>, truth: Book, highest: bool) {
    if side == [] then truth.Keys == {}
    else
      && side[0].price in truth && truth[side[0].price] == side[0].size
      && forall p :: p in truth ==> if highest then p <= side[0].price else side[0].price <= p
  }

  lemma TopIsBest(side: seq<Level>, truth: Book, list: seq<Level>, d: nat, highest: bool)
    requires Lists(highest, list, truth) && TrueTop(side, list, d) && d < CAPACITY
    ensures TrueBest(side, truth, highest)
  {
    if list == [] {
      forall p ensures p !in truth {
        assert p in truth ==> Has(highest, list, p);
      }
    } else {
      forall p | p in truth ensures if highest then p <= side[0].price else side[0].price <= p {
        assert Has(highest, list, p);
        var i := Rank(highest, list, p);
        RankSplits(highest, list, p);
        assert i == 0 || Before(highest, list[0].price, list[i].price);
      }
    }
  }

  /**
   At every point of every delivery run, while fewer than 32 levels of a side were deleted since the
   snapshot: the best bid is the highest and the best ask the lowest price of the true book.
   */
  lemma BestIsTrueBest(h: seq<Version>, ms: seq<Message>, bs: seq<Book2>, t: nat) returns (tr: Trace)
    requires History(h) && IsRun(h, ms, bs) && t <= |ms| && bs[t].hasSnapshot
    ensures Explains(h, ms, bs[t], t, tr)
    ensures Deletions(BidsBetween(h, tr.loaded, tr.version)) < 32 ==> TrueBest(bs[t].bids, TrueBids(h, tr.version), true)
    ensures Deletions(AsksBetween(h, tr.loaded, tr.version)) < 32 ==> TrueBest(bs[t].asks, TrueAsks(h, tr.version), false)
  {
    hide TrueTop, TrueBest, Lists, History, BidsBetween, AsksBetween, Tracks, IsSnapshot;
    tr := BookIsTrueTop(h, ms, bs, t);
    var bids := ListingExists(true, AllBids(h[..tr.version + 1]));
    var asks := ListingExists(false, AllAsks(h[..tr.version + 1]));
    if Deletions(BidsBetween(h, tr.loaded, tr.version)) < 32 {
      TopIsBest(bs[t].bids, TrueBids(h, tr.version), bids, Deletions(BidsBetween(h, tr.loaded, tr.version)), true);
    }
    if Deletions(AsksBetween(h, tr.loaded, tr.version)) < 32 {
      TopIsBest(bs[t].asks, TrueAsks(h, tr.version), asks, Deletions(AsksBetween(h, tr.loaded, tr.version)), false);
    }
  }
}
