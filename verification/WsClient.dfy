/** The reassembly buffer: a fixed array filled from the front. */
module Reassembler {
  import opened WebSocketFrame

  class Reassembler {
    const data: array<Byte>
    var size: nat
    var complete: bool

    predicate Valid()
      reads this
    {
      size <= data.Length
    }

    function Message(): seq<Byte>
      requires Valid()
      reads this, data
    {
      data[..size]
    }

    constructor (capacity: nat)
      ensures Valid() && fresh(data) && data.Length == capacity
      ensures Message() == [] && !complete
    {
      data := new Byte[capacity];
      size, complete := 0, false;
    }

    /** Adds a fragment, or refuses it whole when it does not fit. */
    method Append(payload: seq<Byte>, fin: bool) returns (ok: bool)
      requires Valid()
      modifies this, data
      ensures Valid() && ok == (old(size) + |payload| <= data.Length)
      ensures Message() == if ok then old(Message()) + payload else old(Message())
      ensures complete == if ok then fin else old(complete)
    {
      if |payload| > data.Length - size {
        return false;
      }
      forall i | 0 <= i < |payload| {
        data[size + i] := payload[i];
      }
      size := size + |payload|;
      complete := fin;
      assert Message() == old(Message()) + payload;
      ok := true;
    }

    method Reset()
      modifies this
      ensures Valid() && Message() == [] && !complete
    {
      size, complete := 0, false;
    }
  }
}

/**
 One connection of the WebSocket client: the handlers that the event loop runs, each proved equal
 to a step of the receive pipeline (`WsReceive`) and of the send pipeline (`WsSend`).
 */
module WsClient {
  import opened Common
  import opened WebSocketFrame
  import Receive = WsReceive
  import Send = WsSend
  import RB = RingBuffer
  import RA = Reassembler

  /** How a handler ends: normally, by an error of the receive pipeline, or with a full ring. */
  datatype Outcome = Done | Faulted(fault: Receive.Fault) | RingFull

  /** The control replies among the client's frames. */
  function Answers(fs: seq<WireFrame>): seq<Receive.Event> {
    if fs == [] then []
    else
      var f := fs[|fs| - 1];
      Answers(fs[..|fs| - 1]) + (if f.opcode.IsControl() then [Receive.Replied(f.opcode, f.payload)] else [])
  }

  /** The replies among what the receiver did. */
  function Replies(es: seq<Receive.Event>): seq<Receive.Event> {
    if es == [] then []
    else Replies(es[..|es| - 1]) + (if es[|es| - 1].Replied? then [es[|es| - 1]] else [])
  }

  /** Only control frames were asked for on the way from `before` to `after`. */
  ghost predicate OnlyReplies(before: seq<WireFrame>, after: seq<WireFrame>) {
    before <= after && forall k :: |before| <= k < |after| ==> after[k].opcode.IsControl()
  }

  lemma OneMoreFrame(fs: seq<WireFrame>, f: WireFrame)
    ensures Answers(fs + [f]) == Answers(fs) + (if f.opcode.IsControl() then [Receive.Replied(f.opcode, f.payload)] else [])
  {
    assert (fs + [f])[..|fs|] == fs;
  }

  lemma OneMoreEncoding(frames: seq<Bytes>, fs: seq<WireFrame>, f: WireFrame)
    requires AllMasked(fs) && Encodings(frames, fs) && Sendable(f) && f.mask.Some?
    ensures AllMasked(fs + [f]) && Encodings(frames + [Wire(f)], fs + [f])
  {
    hide Wire;
  }

  lemma OneMoreEvent(es: seq<Receive.Event>, e: Receive.Event)
    ensures Replies(es + [e]) == Replies(es) + (if e.Replied? then [e] else [])
  {
    assert (es + [e])[..|es|] == es;
  }

  class Client {
    var connected: bool
    var rxBuffer: seq<Byte>
    const reassembler: RA.Reassembler
    const txRing: RB.RingBuffer
    var writeInFlight: bool
    var batching: bool
    /** Length of the region handed to the outstanding write. */
    var inFlight: nat
    /** Every masking key drawn so far. */
    ghost var keys: seq<Key>
    /** What was dispatched and replied, what has left, and the frames asked for, encoded and not. */
    ghost var events: seq<Receive.Event>
    ghost var committed: seq<Byte>
    ghost var frames: seq<Bytes>
    ghost var asked: seq<WireFrame>

    ghost const Repr: set<object>

    ghost predicate Shape()
      reads this, reassembler, txRing
    {
      && Repr == {this, reassembler, reassembler.data, txRing, txRing.data}
      && reassembler.data != txRing.data
      && reassembler.Valid() && reassembler.data.Length == Receive.MAX_MESSAGE
      && txRing.Valid() && txRing.data.Length == Send.CAPACITY
    }

    ghost function Rx(): Receive.Receiver
      requires Shape()
      reads this, reassembler, reassembler.data, txRing
    {
      Receive.Receiver(rxBuffer, reassembler.Message(), reassembler.complete, events, Receive.NoFault)
    }

    ghost function Tx(): Send.Sender
      requires Shape()
      reads this, txRing, txRing.data, reassembler
    {
      Send.Sender(connected, txRing.readPos, txRing.Queued(), writeInFlight, inFlight, batching, committed, frames)
    }

    /** The ring is in order and holds encodings of the frames asked for. */
    ghost predicate Sound()
      reads this, reassembler, txRing, txRing.data
    {
      Shape() && Send.Inv(Tx()) && AllMasked(asked) && Encodings(frames, asked)
    }

    /** Every reply recorded was asked for, in order, and no other. */
    ghost predicate Valid()
      reads this, reassembler, txRing, txRing.data
    {
      Sound() && Answers(asked) == Replies(events)
    }

    constructor ()
      ensures Valid() && fresh(Repr)
      ensures Rx() == Receive.FRESH && Tx() == Send.FRESH && keys == [] && asked == []
    {
      var ra := new RA.Reassembler(Receive.MAX_MESSAGE);
      var ring := new RB.RingBuffer(Send.CAPACITY);
      reassembler, txRing := ra, ring;
      connected, rxBuffer, writeInFlight, batching, inFlight := true, [], false, false, 0;
      events, committed, frames, keys, asked := [], [], [], [], [];
      Repr := {this, ra, ra.data, ring, ring.data};
    }

    method StartWrite()
      requires Shape()
      modifies `writeInFlight, `inFlight
      ensures Shape() && Tx() == Send.StartWrite(old(Tx()))
    {
      if !connected {
        return;
      }
      writeInFlight := true;
      inFlight := txRing.ReadableLength();
    }

    /** Queues the encoding of `f`, or refuses it. */
    method WriteRaw(frame: Bytes, ghost f: WireFrame) returns (ok: bool)
      requires Sound() && Sendable(f) && f.mask.Some? && frame == Wire(f)
      modifies this, txRing, txRing.data
      ensures Sound() && Rx() == old(Rx()) && keys == old(keys)
      ensures ok == Send.Enabled(old(Tx()), Send.WriteRaw(frame))
      ensures Tx() == if ok then Send.Apply(old(Tx()), Send.WriteRaw(frame)) else old(Tx())
      ensures asked == if ok then old(asked) + [f] else old(asked)
    {
      hide Wire, Answers, Replies, Encodings, AllMasked, Flatten;
      ghost var before := Tx();
      ghost var passes;
      ok, passes := txRing.Write(frame);
      if !ok {
        return;
      }
      OneMoreEncoding(frames, asked, f);
      frames := frames + [frame];
      asked := asked + [f];
      if !writeInFlight && !batching {
        StartWrite();
      }
      Send.StepKeepsInv(before, Send.WriteRaw(frame));
    }

    method BeginBatch()
      requires Valid()
      modifies this
      ensures Valid() && Rx() == old(Rx()) && Tx() == Send.Apply(old(Tx()), Send.BeginBatch)
    {
      hide Encodings, AllMasked, Answers, Replies;
      batching := true;
    }

    method EndBatch()
      requires Valid()
      modifies this
      ensures Valid() && Rx() == old(Rx()) && Tx() == Send.Apply(old(Tx()), Send.EndBatch)
    {
      hide Encodings, AllMasked, Answers, Replies;
      ghost var before := Tx();
      batching := false;
      if !writeInFlight {
        StartWrite();
      }
      Send.StepKeepsInv(before, Send.EndBatch);
    }

    /** The outstanding write completes: `asio::async_write` has written the whole region. */
    method OnWritten()
      requires Valid() && writeInFlight
      modifies this, txRing
      ensures Valid() && Rx() == old(Rx()) && Tx() == Send.Apply(old(Tx()), Send.WriteDone)
    {
      hide Encodings, AllMasked, Answers, Replies;
      ghost var before := Tx();
      committed := committed + txRing.Queued()[..inFlight];
      txRing.CommitRead(inFlight);
      inFlight := 0;
      if txRing.size > 0 {
        StartWrite();
      } else {
        writeInFlight := false;
      }
      Send.StepKeepsInv(before, Send.WriteDone);
    }

    /** Four random bytes: any key may come. */
    method GenerateMaskingKey() returns (key: Key)
      modifies `keys
      ensures keys == old(keys) + [key]
    {
      key := *;
      keys := keys + [key];
    }

    /** Encodes a control reply and queues it; a full ring throws. */
    method SendReply(opcode: Opcode, payload: Bytes) returns (ok: bool)
      requires Valid() && |payload| < TWO_63 && opcode.IsControl()
      modifies this, txRing, txRing.data
      ensures Valid() && |keys| == |old(keys)| + 1 && old(keys) <= keys && OnlyReplies(old(asked), asked)
      ensures Rx() == if ok then Receive.Emit(old(Rx()), Receive.Replied(opcode, payload)) else old(Rx())
      ensures var frame := Wire(WireFrame(true, opcode, Some(keys[|old(keys)|]), payload));
              && ok == Send.Enabled(old(Tx()), Send.WriteRaw(frame))
              && Tx() == if ok then Send.Apply(old(Tx()), Send.WriteRaw(frame)) else old(Tx())
    {
      hide Wire, Encodings, AllMasked, Answers, Replies, Send.Inv, Send.Apply;
      var key := GenerateMaskingKey();
      var frame := EncodeFrame(opcode, payload, key);
      ghost var f := WireFrame(true, opcode, Some(key), payload);
      ok := WriteRaw(frame, f);
      if ok {
        OneMoreFrame(old(asked), f);
        OneMoreEvent(events, Receive.Replied(opcode, payload));
        events := events + [Receive.Replied(opcode, payload)];
      }
    }

    /** A data frame: dispatched whole, or through the reassembler. */
    method HandleData(fin: bool, opcode: Opcode, payload: Bytes) returns (out: Outcome)
      requires Valid() && !opcode.IsControl()
      modifies this, reassembler, reassembler.data
      ensures Valid() && Tx() == old(Tx()) && keys == old(keys) && asked == old(asked)
      ensures var h := Receive.Handle(old(Rx()), fin, opcode, payload);
              if h.fault.NoFault? then out == Done && Rx() == h else out == Faulted(h.fault) && Rx() == old(Rx())
    {
      hide Encodings, AllMasked, Answers, Replies, Send.Inv, Flatten;
      if opcode.Text? && payload == Receive.PONG_TEXT {
        return Done;
      }
      if opcode.Continuation? {
        var ok := reassembler.Append(payload, fin);
        if !ok {
          return Faulted(Receive.MessageTooLong);
        }
      } else if !fin {
        var ok := reassembler.Append(payload, false);
        return if ok then Done else Faulted(Receive.MessageTooLong);
      } else {
        OneMoreEvent(events, Receive.Dispatched(payload));
        events := events + [Receive.Dispatched(payload)];
        return Done;
      }
      if reassembler.complete {
        OneMoreEvent(events, Receive.Dispatched(reassembler.Message()));
        events := events + [Receive.Dispatched(reassembler.Message())];
        reassembler.Reset();
      }
      out := Done;
    }

    /**
     One frame: answered, ignored, dispatched or kept for reassembly.  A ping or close queues one
     client frame that carries its payload back; nothing else is queued.
     */
    method HandleFrame(fin: bool, opcode: Opcode, payload: Bytes) returns (out: Outcome)
      requires Valid() && |payload| < TWO_63
      modifies this, reassembler, reassembler.data, txRing, txRing.data
      ensures Valid() && committed == old(committed)
      ensures !out.Done? ==> Rx() == old(Rx()) && frames == old(frames)
      ensures OnlyReplies(old(asked), asked)
      ensures var h := Receive.Handle(old(Rx()), fin, opcode, payload);
              && (out.Done? ==> h.fault.NoFault? && Rx() == h)
              && (out.Faulted? ==> h.fault == out.fault && !h.fault.NoFault? && h.events == old(events))
      ensures out.Done? && (opcode.Ping? || opcode.Close?) ==>
                && |keys| == |old(keys)| + 1
                && frames == old(frames)
                             + [Wire(WireFrame(true, if opcode.Ping? then Pong else Close, Some(keys[|old(keys)|]), payload))]
      ensures out.Done? && !(opcode.Ping? || opcode.Close?) ==> frames == old(frames) && keys == old(keys)
    {
      hide Wire, Encodings, AllMasked, Answers, Replies, Send.Inv, Flatten;
      if opcode.Ping? || opcode.Close? {
        var ok := SendReply(if opcode.Ping? then Pong else Close, payload);
        return if ok then Done else RingFull;
      }
      if opcode.Pong? {
        return Done;
      }
      out := HandleData(fin, opcode, payload);
    }

    /** One turn of the peel loop. */
    method PeelOne() returns (more: bool, out: Outcome)
      requires Valid()
      modifies this, reassembler, reassembler.data, txRing, txRing.data
      ensures Valid() && committed == old(committed) && old(events) <= events && OnlyReplies(old(asked), asked)
      ensures more ==> |rxBuffer| < |old(rxBuffer)| && Receive.Peel(Rx()) == Receive.Peel(old(Rx()))
      ensures !more ==> Rx() == old(Rx())
      ensures !more && out.Done? ==> Receive.Peel(Rx()) == Rx()
      ensures !more && out.Faulted? ==> Receive.Peel(Rx()).fault == out.fault && Receive.Peel(Rx()).events == events
    {
      hide Encodings, AllMasked, Answers, Replies, Send.Inv, Flatten, Receive.Handle, Wire, DecodeFrame;
      ghost var before := Rx();
      var decoded := DecodeFrame(rxBuffer);
      if decoded.Got? && decoded.value.header.payloadLength < TWO_63 {
        var frame := decoded.value;
        Receive.PeelStep(before);
        FrameConsumesItsBytes(rxBuffer);
        out := HandleFrame(frame.header.fin, frame.header.opcode, frame.payload);
        more := out.Done?;
        if more {
          rxBuffer := rxBuffer[frame.totalSize..];
        }
      } else {
        more := false;
        out := if decoded.NeedMore? then Done
               else if decoded.Rejected? then Faulted(Receive.BadFrame)
               else Faulted(Receive.IllegalLength);
      }
    }

    /** A read completes.  Unless the ring overflows, the client is left as the receive pipeline says. */
    method OnRead(chunk: Bytes) returns (out: Outcome)
      requires Valid()
      modifies this, reassembler, reassembler.data, txRing, txRing.data
      ensures Valid() && committed == old(committed) && old(events) <= events && OnlyReplies(old(asked), asked)
      ensures out.Done? ==> Rx() == Receive.Feed(old(Rx()), chunk)
      ensures out.Faulted? ==>
                Receive.Feed(old(Rx()), chunk).fault == out.fault && Receive.Feed(old(Rx()), chunk).events == events
      ensures out.RingFull? ==> events <= Receive.Feed(old(Rx()), chunk).events
    {
      hide Encodings, AllMasked, Answers, Replies, Send.Inv, Flatten, Receive.Peel, Wire;
      rxBuffer := rxBuffer + chunk;
      ghost var whole := Receive.Peel(Rx());
      var more := true;
      out := Done;
      while more
        invariant Valid() && committed == old(committed) && old(events) <= events && OnlyReplies(old(asked), asked)
        invariant Receive.Peel(Rx()) == whole
        invariant !more && out.Done? ==> whole == Rx()
        invariant !more && out.Faulted? ==> whole.fault == out.fault && whole.events == events
        decreases more, |rxBuffer|
      {
        more, out := PeelOne();
      }
      Receive.PeelAddsEvents(Rx());
    }

    /** `Send`: a text frame under a fresh key; a full ring throws. */
    method SendText(payload: Bytes) returns (ok: bool)
      requires Valid() && |payload| < TWO_63
      modifies this, txRing, txRing.data
      ensures Valid() && |keys| == |old(keys)| + 1 && Rx() == old(Rx())
      ensures var frame := Wire(WireFrame(true, Text, Some(keys[|old(keys)|]), payload));
              && ok == Send.Enabled(old(Tx()), Send.WriteRaw(frame))
              && Tx() == if ok then Send.Apply(old(Tx()), Send.WriteRaw(frame)) else old(Tx())
    {
      hide Wire, Encodings, AllMasked, Answers, Replies, Send.Inv, Send.Apply;
      var key := GenerateMaskingKey();
      var frame := EncodeFrame(Text, payload, key);
      ghost var f := WireFrame(true, Text, Some(key), payload);
      ok := WriteRaw(frame, f);
      OneMoreFrame(old(asked), f);
    }

    /**
     The whole connection, after any interleaving of reads, sends, batches and completed writes: a
     server decoding what has left hears a prefix of the frames asked for, and once nothing is held
     back or in flight it has heard every pong and close the receiver owed it, in order, with its payload.
     */
    lemma ServerHears()
      requires Valid()
      ensures ParseAll(committed) <= asked
      ensures connected && !writeInFlight && !batching ==>
                ParseAll(committed) == asked && Answers(ParseAll(committed)) == Replies(events)
    {
      FlattenEncodings(frames, asked);
      ServerRecoversAll(asked);
      ParsePrefix(committed, Tx().queued);
      assert Tx().queued == [] ==> committed + Tx().queued == committed;
    }

    /** The bytes the outstanding write reads, as they lie in the ring's memory. */
    ghost function InFlightBytes(): seq<Byte>
      requires Valid()
      reads this, txRing, txRing.data, reassembler
    {
      txRing.data[txRing.readPos..txRing.readPos + inFlight]
    }

    lemma InFlightIsFront()
      requires Valid()
      ensures InFlightBytes() == Tx().queued[..inFlight]
    {
      txRing.ReadableIsFront(inFlight);
    }
  }
}
