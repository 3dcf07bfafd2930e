/**
 The receive pipeline of one connection: read chunks are appended to a buffer, whole frames are
 peeled off its front, control frames are answered and fragments reassembled.
 */
module WsReceive {
  import opened Common
  import opened WebSocketFrame

  /** Capacity of the reassembly buffer, 1 MiB. */
  const MAX_MESSAGE := 0x10_0000

  /** The keepalive text `pong`. */
  const PONG_TEXT: Bytes := [0x70, 0x6F, 0x6E, 0x67]

  /** What the connection does with what it received, in order. */
  datatype Event = Dispatched(message: Bytes) | Replied(opcode: Opcode, payload: Bytes)

  /**
   Why the run of the connection ended: the decoder or the reassembler threw, or the peer sent a
   length with its top bit set, which section 5.2 of RFC 6455 forbids and this model does not follow.
   */
  datatype Fault = NoFault | BadFrame | MessageTooLong | IllegalLength

  /** The receiver between two reads; a fault ends the run and drops the unread bytes. */
  datatype Receiver = Receiver(buffer: Bytes, partial: Bytes, complete: bool, events: seq<Event>, fault: Fault)

  const FRESH := Receiver([], [], false, [], NoFault)

  function Emit(r: Receiver, e: Event): Receiver {
    r.(events := r.events + [e])
  }

  function Fail(r: Receiver, f: Fault): Receiver {
    r.(fault := f, buffer := [])
  }

  function Append(r: Receiver, payload: Bytes, fin: bool): Receiver {
    if |r.partial| + |payload| > MAX_MESSAGE then Fail(r, MessageTooLong)
    else r.(partial := r.partial + payload, complete := fin)
  }

  /** One frame, as opcode, final flag and payload. */
  function Handle(r: Receiver, fin: bool, opcode: Opcode, payload: Bytes): Receiver {
    match opcode
    case Ping => Emit(r, Replied(Pong, payload))
    case Close => Emit(r, Replied(Close, payload))
    case Pong => r
    case Continuation =>
      var a := Append(r, payload, fin);
      if a.fault.NoFault? && a.complete then Emit(a, Dispatched(a.partial)).(partial := [], complete := false) else a
    case _ =>
      if opcode.Text? && payload == PONG_TEXT then r
      else if !fin then Append(r, payload, false)
      else Emit(r, Dispatched(payload))
  }

  /** The peel loop; every turn takes at least two bytes off the buffer. */
  function Peel(r: Receiver): Receiver
    decreases |r.buffer|
  {
    match DecodeFrame(r.buffer)
    case NeedMore => r
    case Rejected => Fail(r, BadFrame)
    case Got(frame) =>
      if frame.header.payloadLength >= TWO_63 then Fail(r, IllegalLength)
      else
        FrameConsumesItsBytes(r.buffer);
        var handled := Handle(r, frame.header.fin, frame.header.opcode, frame.payload);
        if !handled.fault.NoFault? then handled
        else Peel(handled.(buffer := r.buffer[frame.totalSize..]))
  }

  function Feed(r: Receiver, chunk: Bytes): Receiver {
    if !r.fault.NoFault? then r else Peel(r.(buffer := r.buffer + chunk))
  }

  function FeedAll(r: Receiver, chunks: seq<Bytes>): Receiver
    decreases |chunks|
  {
    if chunks == [] then r else FeedAll(Feed(r, chunks[0]), chunks[1..])
  }

  lemma HandleKeepsBuffer(r: Receiver, fin: bool, opcode: Opcode, payload: Bytes)
    requires r.fault.NoFault?
    ensures var h := Handle(r, fin, opcode, payload);
            && (h.fault.NoFault? ==> h.buffer == r.buffer)
            && forall b: Bytes :: Handle(r.(buffer := b), fin, opcode, payload)
                 == if h.fault.NoFault? then h.(buffer := b) else h
    ensures r.events <= Handle(r, fin, opcode, payload).events
  {
  }

  /** One turn of the peel loop. */
  lemma PeelStep(r: Receiver)
    requires r.fault.NoFault? && DecodeFrame(r.buffer).Got?
    requires DecodeFrame(r.buffer).value.header.payloadLength < TWO_63
    ensures var frame := DecodeFrame(r.buffer).value;
            var h := Handle(r, frame.header.fin, frame.header.opcode, frame.payload);
            && 2 <= frame.totalSize <= |r.buffer|
            && r.events <= h.events
            && (h.fault.NoFault? ==> h.buffer == r.buffer && Peel(r) == Peel(h.(buffer := r.buffer[frame.totalSize..])))
            && (!h.fault.NoFault? ==> Peel(r) == h)
  {
    FrameConsumesItsBytes(r.buffer);
    var frame := DecodeFrame(r.buffer).value;
    HandleKeepsBuffer(r, frame.header.fin, frame.header.opcode, frame.payload);
  }

  /** Peeling what has arrived and then feeding the rest is peeling everything at once. */
  lemma {:induction false} PeelThenFeed(r: Receiver, more: Bytes)
    requires r.fault.NoFault?
    ensures Feed(Peel(r), more) == Peel(r.(buffer := r.buffer + more))
    decreases |r.buffer|
  {
    hide DecodeFrame, Handle;
    if !DecodeFrame(r.buffer).NeedMore? {
      DecodeIsStable(r.buffer, more);
      if DecodeFrame(r.buffer).Got? && DecodeFrame(r.buffer).value.header.payloadLength < TWO_63 {
        var frame := DecodeFrame(r.buffer).value;
        FrameConsumesItsBytes(r.buffer);
        HandleKeepsBuffer(r, frame.header.fin, frame.header.opcode, frame.payload);
        var handled := Handle(r, frame.header.fin, frame.header.opcode, frame.payload);
        if handled.fault.NoFault? {
          var next := handled.(buffer := r.buffer[frame.totalSize..]);
          assert (r.buffer + more)[frame.totalSize..] == next.buffer + more;
          PeelThenFeed(next, more);
        }
      }
    }
  }

  /** Two chunks may be read as one. */
  lemma FeedJoins(r: Receiver, a: Bytes, b: Bytes)
    ensures Feed(Feed(r, a), b) == Feed(r, a + b)
  {
    if r.fault.NoFault? {
      PeelThenFeed(r.(buffer := r.buffer + a), b);
      assert r.buffer + a + b == r.buffer + (a + b);
    }
  }

  /**
   Chunking independence, for every byte stream, conforming or not: however it is cut into reads,
   the messages, replies, remaining state and fault are those of the whole stream.
   */
  lemma {:induction false} ChunkingIndependent(r: Receiver, chunks: seq<Bytes>)
    requires r == Feed(r, [])
    ensures FeedAll(r, chunks) == Feed(r, Flatten(chunks))
    decreases |chunks|
  {
    if chunks != [] {
      var next := Feed(r, chunks[0]);
      FeedJoins(r, chunks[0], []);
      assert chunks[0] + [] == chunks[0];
      ChunkingIndependent(next, chunks[1..]);
      FeedJoins(r, chunks[0], Flatten(chunks[1..]));
    }
  }

  /** Later bytes only add to what was dispatched and replied. */
  lemma {:induction false} PeelAddsEvents(r: Receiver)
    requires r.fault.NoFault?
    ensures r.events <= Peel(r).events
    decreases |r.buffer|
  {
    if DecodeFrame(r.buffer).Got? && DecodeFrame(r.buffer).value.header.payloadLength < TWO_63 {
      var frame := DecodeFrame(r.buffer).value;
      FrameConsumesItsBytes(r.buffer);
      var handled := Handle(r, frame.header.fin, frame.header.opcode, frame.payload);
      HandleKeepsBuffer(r, frame.header.fin, frame.header.opcode, frame.payload);
      if handled.fault.NoFault? {
        PeelAddsEvents(handled.(buffer := r.buffer[frame.totalSize..]));
      }
    }
  }

  // ---------- Conforming streams (sections 5.4 and 5.5 of RFC 6455) ----------

  datatype Control = Control(opcode: Opcode, payload: Bytes)

  /** A continuation, with the control frames sent just before it. */
  datatype Fragment = Fragment(controls: seq<Control>, payload: Bytes)

  /** What a server sends: a control frame between messages, or a message in one or more fragments. */
  datatype Unit =
    | Between(control: Control)
    | Message(binary: bool, first: Bytes, rest: seq<Fragment>)

  predicate IsControl(c: Control) {
    c.opcode.IsControl() && |c.payload| <= 125
  }

  predicate Legal(u: Unit) {
    match u
    case Between(c) => IsControl(c)
    case Message(_, first, rest) =>
      && |first| < TWO_63
      && forall i :: 0 <= i < |rest| ==> |rest[i].payload| < TWO_63 && forall j :: 0 <= j < |rest[i].controls| ==> IsControl(rest[i].controls[j])
  }

  function ServerFrame(fin: bool, opcode: Opcode, payload: Bytes): WireFrame {
    WireFrame(fin, opcode, None, payload)
  }

  function ControlFrames(cs: seq<Control>): seq<WireFrame> {
    if cs == [] then [] else [ServerFrame(true, cs[0].opcode, cs[0].payload)] + ControlFrames(cs[1..])
  }

  /** The fragments after the first; the last one is final. */
  function FragmentFrames(rest: seq<Fragment>): seq<WireFrame> {
    if rest == [] then []
    else ControlFrames(rest[0].controls)
         + [ServerFrame(|rest| == 1, Continuation, rest[0].payload)]
         + FragmentFrames(rest[1..])
  }

  function Frames(u: Unit): seq<WireFrame> {
    match u
    case Between(c) => ControlFrames([c])
    case Message(binary, first, rest) =>
      [ServerFrame(rest == [], if binary then Binary else Text, first)] + FragmentFrames(rest)
  }

  function StreamFrames(us: seq<Unit>): seq<WireFrame> {
    if us == [] then [] else Frames(us[0]) + StreamFrames(us[1..])
  }

  // What the connection ought to do with it, said without frames.

  function Reply(c: Control): seq<Event> {
    match c.opcode
    case Ping => [Replied(Pong, c.payload)]
    case Close => [Replied(Close, c.payload)]
    case _ => []
  }

  function ControlEvents(cs: seq<Control>): seq<Event> {
    if cs == [] then [] else Reply(cs[0]) + ControlEvents(cs[1..])
  }

  function Joined(rest: seq<Fragment>): Bytes {
    if rest == [] then [] else rest[0].payload + Joined(rest[1..])
  }

  function InnerEvents(rest: seq<Fragment>): seq<Event> {
    if rest == [] then [] else ControlEvents(rest[0].controls) + InnerEvents(rest[1..])
  }

  predicate IsKeepalive(binary: bool, first: Bytes) {
    !binary && first == PONG_TEXT
  }

  /** The message as sent. */
  function Sent(u: Unit): Bytes
    requires u.Message?
  {
    u.first + Joined(u.rest)
  }

  /** What reaches the handler: a text fragment that reads `pong` is taken for a keepalive. */
  function Kept(u: Unit): Bytes
    requires u.Message?
  {
    (if IsKeepalive(u.binary, u.first) then [] else u.first) + Joined(u.rest)
  }

  function Expected(u: Unit): seq<Event> {
    match u
    case Between(c) => ControlEvents([c])
    case Message(binary, first, rest) =>
      if rest == [] then (if IsKeepalive(binary, first) then [] else [Dispatched(first)])
      else InnerEvents(rest) + [Dispatched(Kept(u))]
  }

  function StreamEvents(us: seq<Unit>): seq<Event> {
    if us == [] then [] else Expected(us[0]) + StreamEvents(us[1..])
  }

  /** Handling a sequence of frames one after another, stopping at a fault. */
  function HandleAll(r: Receiver, fs: seq<WireFrame>): Receiver
    decreases |fs|
  {
    if fs == [] || !r.fault.NoFault? then r
    else HandleAll(Handle(r, fs[0].fin, fs[0].opcode, fs[0].payload), fs[1..])
  }

  ghost predicate FromServer(fs: seq<WireFrame>) {
    forall i :: 0 <= i < |fs| ==> Sendable(fs[i]) && fs[i].mask.None?
  }

  /** Peeling the bytes of whole frames handles exactly those frames. */
  lemma {:induction false} PeelHandlesFrames(r: Receiver, fs: seq<WireFrame>)
    requires FromServer(fs) && r.fault.NoFault? && r.buffer == []
    ensures Peel(r.(buffer := WireAll(fs))) == HandleAll(r, fs)
    decreases |fs|
  {
    var rx := r.(buffer := WireAll(fs));
    if fs != [] {
      var f, first, rest := fs[0], Wire(fs[0]), WireAll(fs[1..]);
      DecodesWireFrame(f, rest);
      HandleKeepsBuffer(r, f.fin, f.opcode, f.payload);
      var handled := Handle(r, f.fin, f.opcode, f.payload);
      assert (first + rest)[|first|..] == rest;
      if handled.fault.NoFault? {
        PeelHandlesFrames(handled, fs[1..]);
        assert handled.(buffer := []) == handled;
      }
    }
  }

  lemma {:induction false} HandleAllJoins(r: Receiver, a: seq<WireFrame>, b: seq<WireFrame>)
    ensures HandleAll(r, a + b) == HandleAll(HandleAll(r, a), b)
    decreases |a|
  {
    if a == [] {
      assert a + b == b;
    } else {
      assert (a + b)[1..] == a[1..] + b;
      HandleAllJoins(Handle(r, a[0].fin, a[0].opcode, a[0].payload), a[1..], b);
    }
  }

  /** The receiver with more events behind it and nothing else changed. */
  function Then(r: Receiver, more: seq<Event>): Receiver {
    r.(events := r.events + more)
  }

  lemma ThenJoins(r: Receiver, a: seq<Event>, b: seq<Event>)
    ensures Then(Then(r, a), b) == Then(r, a + b)
    ensures Then(r, []) == r
  {
    assert r.events + a + b == r.events + (a + b);
    assert r.events + [] == r.events;
  }

  lemma HandleAllStep(r: Receiver, f: WireFrame, fs: seq<WireFrame>)
    requires r.fault.NoFault?
    ensures HandleAll(r, [f] + fs) == HandleAll(Handle(r, f.fin, f.opcode, f.payload), fs)
  {
    assert ([f] + fs)[1..] == fs;
  }

  lemma ControlHandled(r: Receiver, c: Control)
    requires IsControl(c)
    ensures Handle(r, true, c.opcode, c.payload) == Then(r, Reply(c))
  {
    ThenJoins(r, [], []);
  }

  lemma {:induction false} ControlsHandled(r: Receiver, cs: seq<Control>)
    requires r.fault.NoFault? && forall i :: 0 <= i < |cs| ==> IsControl(cs[i])
    ensures HandleAll(r, ControlFrames(cs)) == Then(r, ControlEvents(cs))
    decreases |cs|
  {
    if cs == [] {
      ThenJoins(r, [], []);
    } else {
      HandleAllStep(r, ServerFrame(true, cs[0].opcode, cs[0].payload), ControlFrames(cs[1..]));
      ControlHandled(r, cs[0]);
      ControlsHandled(Then(r, Reply(cs[0])), cs[1..]);
      ThenJoins(r, Reply(cs[0]), ControlEvents(cs[1..]));
    }
  }

  predicate LegalRest(rest: seq<Fragment>) {
    forall i :: 0 <= i < |rest| ==> |rest[i].payload| < TWO_63 && forall j :: 0 <= j < |rest[i].controls| ==> IsControl(rest[i].controls[j])
  }

  /** One continuation with the control frames before it. */
  lemma FragmentHandled(r: Receiver, rest: seq<Fragment>)
    requires r.fault.NoFault? && rest != [] && LegalRest(rest)
    ensures HandleAll(r, FragmentFrames(rest))
            == HandleAll(Handle(Then(r, ControlEvents(rest[0].controls)), |rest| == 1, Continuation, rest[0].payload),
                         FragmentFrames(rest[1..]))
  {
    var controls := ControlFrames(rest[0].controls);
    var last := ServerFrame(|rest| == 1, Continuation, rest[0].payload);
    var tail := FragmentFrames(rest[1..]);
    assert FragmentFrames(rest) == controls + ([last] + tail);
    HandleAllJoins(r, controls, [last] + tail);
    ControlsHandled(r, rest[0].controls);
    HandleAllStep(Then(r, ControlEvents(rest[0].controls)), last, tail);
  }

  /** The receiver after a message ending in the bytes `tail` was dispatched. */
  function Delivered(r: Receiver, inner: seq<Event>, tail: Bytes): Receiver {
    Then(r, inner + [Dispatched(r.partial + tail)]).(partial := [], complete := false)
  }

  lemma LastFragment(r: Receiver, payload: Bytes)
    requires r.fault.NoFault? && |r.partial| + |payload| <= MAX_MESSAGE
    ensures Handle(r, true, Continuation, payload) == Delivered(r, [], payload)
  {
    assert [] + [Dispatched(r.partial + payload)] == [Dispatched(r.partial + payload)];
  }

  lemma DeliveredJoins(r: Receiver, a: seq<Event>, b: seq<Event>, x: Bytes, y: Bytes, complete: bool)
    ensures Delivered(Then(r, a).(partial := r.partial + x, complete := complete), b, y) == Delivered(r, a + b, x + y)
    ensures Delivered(Then(r, a), b, y) == Delivered(r, a + b, y)
  {
    assert r.partial + x + y == r.partial + (x + y);
    assert r.events + a + (b + [Dispatched(r.partial + x + y)]) == r.events + (a + b + [Dispatched(r.partial + x + y)]);
    assert r.events + a + (b + [Dispatched(r.partial + y)]) == r.events + (a + b + [Dispatched(r.partial + y)]);
  }

  /** A whole tail of fragments is joined and dispatched once, after the replies it was interleaved with. */
  lemma {:induction false} FragmentsHandled(r: Receiver, rest: seq<Fragment>)
    requires r.fault.NoFault? && rest != [] && LegalRest(rest)
    requires |r.partial| + |Joined(rest)| <= MAX_MESSAGE
    ensures HandleAll(r, FragmentFrames(rest)) == Delivered(r, InnerEvents(rest), Joined(rest))
    decreases |rest|
  {
    FragmentHandled(r, rest);
    var controls, payload := ControlEvents(rest[0].controls), rest[0].payload;
    var before := Then(r, controls);
    if |rest| == 1 {
      LastFragment(before, payload);
      DeliveredJoins(r, controls, [], [], payload, false);
      assert payload + Joined(rest[1..]) == payload;
    } else {
      var next := before.(partial := r.partial + payload, complete := false);
      assert Handle(before, false, Continuation, payload) == next;
      FragmentsHandled(next, rest[1..]);
      DeliveredJoins(r, controls, InnerEvents(rest[1..]), payload, Joined(rest[1..]), false);
    }
  }

  lemma {:induction false} FragmentsTooLong(r: Receiver, rest: seq<Fragment>)
    requires r.fault.NoFault? && rest != [] && LegalRest(rest)
    requires |r.partial| <= MAX_MESSAGE < |r.partial| + |Joined(rest)|
    ensures HandleAll(r, FragmentFrames(rest)).fault == MessageTooLong
    decreases |rest|
  {
    FragmentHandled(r, rest);
    var next := Handle(Then(r, ControlEvents(rest[0].controls)), |rest| == 1, Continuation, rest[0].payload);
    if next.fault.NoFault? && |rest| > 1 {
      FragmentsTooLong(next, rest[1..]);
    }
  }

  /** Between messages nothing is held for reassembly. */
  predicate Resting(r: Receiver) {
    r.fault.NoFault? && r.buffer == [] && r.partial == [] && !r.complete
  }

  predicate Fits(u: Unit) {
    u.Message? && u.rest != [] ==> |Kept(u)| <= MAX_MESSAGE
  }

  lemma UnitHandled(r: Receiver, u: Unit)
    requires Resting(r) && Legal(u) && Fits(u)
    ensures HandleAll(r, Frames(u)) == Then(r, Expected(u))
  {
    match u
    case Between(c) => ControlsHandled(r, [c]);
    case Message(binary, first, rest) =>
      HandleAllStep(r, ServerFrame(rest == [], if binary then Binary else Text, first), FragmentFrames(rest));
      ThenJoins(r, [], []);
      if rest != [] {
        var kept := if IsKeepalive(binary, first) then [] else first;
        var next := r.(partial := kept);
        assert [] + first == first;
        assert Handle(r, false, if binary then Binary else Text, first) == next;
        FragmentsHandled(next, rest);
      }
  }

  /** A fragmented message ends the run with an error exactly when it does not fit the buffer. */
  lemma RejectedIffTooLong(r: Receiver, u: Unit)
    requires Resting(r) && Legal(u) && u.Message? && u.rest != []
    ensures HandleAll(r, Frames(u)).fault.NoFault? <==> |Kept(u)| <= MAX_MESSAGE
  {
    if |Kept(u)| <= MAX_MESSAGE {
      UnitHandled(r, u);
    } else {
      var next := Handle(r, false, if u.binary then Binary else Text, u.first);
      assert Frames(u)[1..] == FragmentFrames(u.rest);
      if next.fault.NoFault? {
        FragmentsTooLong(next, u.rest);
      }
    }
  }

  ghost predicate Conforming(us: seq<Unit>) {
    forall i :: 0 <= i < |us| ==> Legal(us[i]) && Fits(us[i])
  }

  lemma {:induction false} StreamHandled(r: Receiver, us: seq<Unit>)
    requires Resting(r) && Conforming(us)
    ensures HandleAll(r, StreamFrames(us)) == Then(r, StreamEvents(us))
    decreases |us|
  {
    if us == [] {
      ThenJoins(r, [], []);
    } else {
      HandleAllJoins(r, Frames(us[0]), StreamFrames(us[1..]));
      UnitHandled(r, us[0]);
      StreamHandled(Then(r, Expected(us[0])), us[1..]);
      ThenJoins(r, Expected(us[0]), StreamEvents(us[1..]));
    }
  }

  lemma {:induction false} ControlsFromServer(cs: seq<Control>)
    requires forall i :: 0 <= i < |cs| ==> IsControl(cs[i])
    ensures FromServer(ControlFrames(cs))
  {
    if cs != [] {
      ControlsFromServer(cs[1..]);
    }
  }

  lemma {:induction false} FragmentsFromServer(rest: seq<Fragment>)
    requires LegalRest(rest)
    ensures FromServer(FragmentFrames(rest))
  {
    if rest != [] {
      ControlsFromServer(rest[0].controls);
      FragmentsFromServer(rest[1..]);
    }
  }

  lemma {:induction false} StreamFromServer(us: seq<Unit>)
    requires Conforming(us)
    ensures FromServer(StreamFrames(us))
  {
    if us != [] {
      match us[0] {
        case Between(c) => ControlsFromServer([c]);
        case Message(_, _, rest) => FragmentsFromServer(rest);
      }
      StreamFromServer(us[1..]);
    }
  }

  /** The bytes of a conforming stream. */
  function StreamBytes(us: seq<Unit>): Bytes
    requires Conforming(us)
  {
    StreamFromServer(us);
    WireAll(StreamFrames(us))
  }

  /**
   For every conforming stream and every way of cutting it into reads, the connection dispatches
   exactly the messages and sends exactly the control replies of the stream, in order, and rests.
   */
  lemma ConformingStreamDelivered(us: seq<Unit>, chunks: seq<Bytes>)
    requires Conforming(us) && Flatten(chunks) == StreamBytes(us)
    ensures FeedAll(FRESH, chunks) == FRESH.(events := StreamEvents(us))
  {
    StreamFromServer(us);
    ChunkingIndependent(FRESH, chunks);
    PeelHandlesFrames(FRESH, StreamFrames(us));
    StreamHandled(FRESH, us);
    assert [] + StreamBytes(us) == StreamBytes(us);
    assert [] + StreamEvents(us) == StreamEvents(us);
  }

  /** Cut off anywhere, it has done a prefix of that and met no error. */
  lemma PartialStreamDelivered(us: seq<Unit>, chunks: seq<Bytes>, rest: Bytes)
    requires Conforming(us) && Flatten(chunks) + rest == StreamBytes(us)
    ensures FeedAll(FRESH, chunks).fault.NoFault?
    ensures FeedAll(FRESH, chunks).events <= StreamEvents(us)
  {
    var r := FeedAll(FRESH, chunks);
    ChunkingIndependent(FRESH, chunks);
    FeedJoins(FRESH, Flatten(chunks), rest);
    assert Flatten([StreamBytes(us)]) == StreamBytes(us);
    ConformingStreamDelivered(us, [StreamBytes(us)]);
    assert FeedAll(FRESH, [StreamBytes(us)]) == Feed(FRESH, StreamBytes(us));
    if r.fault.NoFault? {
      PeelAddsEvents(r.(buffer := r.buffer + rest));
    }
  }

  // ---------- Delivered as sent ----------

  /** What a receiver without the keepalive rule would do. */
  function AsSent(u: Unit): seq<Event> {
    match u
    case Between(c) => ControlEvents([c])
    case Message(_, _, rest) => InnerEvents(rest) + [Dispatched(Sent(u))]
  }

  function StreamAsSent(us: seq<Unit>): seq<Event> {
    if us == [] then [] else AsSent(us[0]) + StreamAsSent(us[1..])
  }

  predicate StartsKeepalive(u: Unit) {
    u.Message? && IsKeepalive(u.binary, u.first)
  }

  lemma UnitAsSent(u: Unit)
    ensures |Expected(u)| <= |AsSent(u)|
    ensures Expected(u) == AsSent(u) <==> !StartsKeepalive(u)
  {
    if u.Message? {
      var sent := InnerEvents(u.rest) + [Dispatched(Sent(u))];
      if u.rest == [] {
        assert sent == [Dispatched(Sent(u))];
        assert u.first + [] == u.first;
      } else {
        var kept := InnerEvents(u.rest) + [Dispatched(Kept(u))];
        assert kept[|kept| - 1] == Dispatched(Kept(u)) && sent[|sent| - 1] == Dispatched(Sent(u));
        assert IsKeepalive(u.binary, u.first) ==> |Kept(u)| < |Sent(u)|;
      }
    }
  }

  lemma SplitEqual<T>(a: seq<T>, b: seq<T>, a': seq<T>, b': seq<T>)
    requires |a| <= |a'| && |b| <= |b'|
    ensures a + b == a' + b' <==> a == a' && b == b'
  {
    if a + b == a' + b' {
      assert |a + b| == |a' + b'|;
      assert (a + b)[..|a|] == a && (a' + b')[..|a|] == a' && (a + b)[|a|..] == b && (a' + b')[|a|..] == b';
    }
  }

  lemma {:induction false} StreamAsSentIff(us: seq<Unit>)
    ensures |StreamEvents(us)| <= |StreamAsSent(us)|
    ensures StreamEvents(us) == StreamAsSent(us) <==> forall i :: 0 <= i < |us| ==> !StartsKeepalive(us[i])
    decreases |us|
  {
    hide Expected, AsSent, StartsKeepalive;
    if us != [] {
      UnitAsSent(us[0]);
      StreamAsSentIff(us[1..]);
      SplitEqual(Expected(us[0]), StreamEvents(us[1..]), AsSent(us[0]), StreamAsSent(us[1..]));
      assert us == [us[0]] + us[1..];
    }
  }

  /**
   However a conforming stream is cut into reads, every message reaches the handler as it was sent
   if and only if none of them starts with a frame that reads `pong`.
   */
  lemma DeliveredAsSentIff(us: seq<Unit>, chunks: seq<Bytes>)
    requires Conforming(us) && Flatten(chunks) == StreamBytes(us)
    ensures FeedAll(FRESH, chunks).events == StreamAsSent(us) <==> forall i :: 0 <= i < |us| ==> !StartsKeepalive(us[i])
  {
    ConformingStreamDelivered(us, chunks);
    StreamAsSentIff(us);
  }

  /** Such a stream: a text message `pong`, however it is cut, is not dispatched. */
  lemma PongNotDelivered(chunks: seq<Bytes>)
    requires Flatten(chunks) == StreamBytes([Message(false, PONG_TEXT, [])])
    ensures Conforming([Message(false, PONG_TEXT, [])])
    ensures StreamAsSent([Message(false, PONG_TEXT, [])]) == [Dispatched(PONG_TEXT)]
    ensures FeedAll(FRESH, chunks).events == []
  {
    var pong := Message(false, PONG_TEXT, []);
    hide FeedAll, StreamBytes, Flatten;
    assert [pong][1..] == [];
    assert StreamEvents([]) == [] && StreamAsSent([]) == [];
    assert PONG_TEXT + [] == PONG_TEXT;
    ConformingStreamDelivered([pong], chunks);
  }
}
