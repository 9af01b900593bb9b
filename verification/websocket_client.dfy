/** The client object over the wire format: exact reads from a socket that hands out bytes in arbitrary
    pieces, one frame at a time, and the pump that answers pings and returns data and close events. */
module WebSocketClient {
  import opened WebSocketCodec

  const TEXT: Byte := 0x1
  const BINARY: Byte := 0x2
  const CLOSE: Byte := 0x8
  const PING: Byte := 0x9
  const PONG: Byte := 0xA

  // The fields of a JSON object the harness looks at; "" stands for an absent or non-string value.
  datatype Message =
    | NotAnObject
    | Object(kind: string, state: string, transport: string, status: string, ingressIsObject: bool, pipelineIsObject: bool)

  const INVALID_JSON := Object("invalid_json", "", "", "", false, false)

  // What json.loads(payload.decode("utf-8")) does; only a JSONDecodeError is caught by the caller.
  datatype Loaded = Parsed(message: Message) | NotJson | Undecodable

  type Loads = Bytes -> Loaded

  datatype Event = JsonEvent(message: Message) | BinaryEvent(length: nat) | CloseEvent

  datatype Error = NotConnected | PeerClosed | BadText | LengthOverflow

  datatype Outcome = Got(event: Event) | NoEvent | TimedOut | Raised(error: Error)

  // ---- what one frame means to the pump ----

  predicate Silent(f: Frame)
  {
    f.opcode !in {TEXT, BINARY, CLOSE}
  }

  function Returned(f: Frame, loads: Loads): (o: Outcome)
    requires !Silent(f)
  {
    if f.opcode == TEXT then
      match loads(f.payload)
      case Parsed(message) => Got(JsonEvent(message))
      case NotJson => Got(JsonEvent(INVALID_JSON))
      case Undecodable => Raised(BadText)
    else if f.opcode == BINARY then Got(BinaryEvent(|f.payload|))
    else Got(CloseEvent)
  }

  function Pong(ping: Frame): (pong: Frame)
  {
    Frame(PONG, ping.payload)
  }

  datatype Pumped = Pumped(outcome: Outcome, pongs: seq<Frame>, rest: Bytes)

  // One call of recv on the bytes still to come, when no timeout strikes.
  function Pump(s: Bytes, loads: Loads): (r: Pumped)
    ensures |r.rest| <= |s|
    ensures r.outcome.Got? ==> |r.rest| < |s|
    ensures !r.outcome.TimedOut? && !r.outcome.NoEvent?
    decreases |s|
  {
    match Decode(s)
    case ConnectionClosed => Pumped(Raised(PeerClosed), [], [])
    case Decoded(frame, rest) =>
      if !Silent(frame) then Pumped(Returned(frame, loads), [], rest)
      else
        var more := Pump(rest, loads);
        if frame.opcode == PING then more.(pongs := [Pong(frame)] + more.pongs) else more
  }

  /** What the bytes of an unmasked frame mean to one call of recv: text is parsed, and text that is no JSON makes
      an object of its own; binary gives its length; a close ends it; a ping is answered with the same payload and
      like everything else passed over. */
  lemma WireMeans(first: Byte, field: Bytes, payload: Bytes, tail: Bytes, loads: Loads)
    requires Announces(field, |payload|)
    ensures var r, after := Pump([first] + field + payload + tail, loads), Pump(tail, loads);
            match first % 16
            case 1 => r.pongs == [] && r.rest == tail && TextMeans(r.outcome, loads(payload))
            case 2 => r == Pumped(Got(BinaryEvent(|payload|)), [], tail)
            case 8 => r == Pumped(Got(CloseEvent), [], tail)
            case 9 => r == after.(pongs := [Frame(10, payload)] + after.pongs)
            case _ => r == after
  {
    hide Decode, Announces;
    UnmaskedFrame(first, field, payload, tail);
  }

  predicate TextMeans(o: Outcome, loaded: Loaded)
  {
    match loaded
    case Parsed(message) => o == Got(JsonEvent(message))
    case NotJson => o == Got(JsonEvent(Object("invalid_json", "", "", "", false, false)))
    case Undecodable => o == Raised(BadText)
  }

  // Reading s as far as t takes no event, and sends these pongs.
  ghost predicate Skips(s: Bytes, t: Bytes, pongs: seq<Frame>, loads: Loads)
  {
    Pump(s, loads) == Pump(t, loads).(pongs := pongs + Pump(t, loads).pongs)
  }

  lemma SkipsOn(s: Bytes, t: Bytes, u: Bytes, first: seq<Frame>, next: seq<Frame>, loads: Loads)
    ensures Skips(s, s, [], loads)
    ensures Skips(s, t, first, loads) && Skips(t, u, next, loads) ==> Skips(s, u, first + next, loads)
  {
    hide Pump;
    assert [] + Pump(s, loads).pongs == Pump(s, loads).pongs;
    assert first + (next + Pump(u, loads).pongs) == (first + next) + Pump(u, loads).pongs;
  }

  lemma SkipsTo(s: Bytes, t: Bytes, pongs: seq<Frame>, r: Outcome, rest: Bytes, loads: Loads)
    requires Skips(s, t, pongs, loads)
    ensures pongs <= Pump(s, loads).pongs
    ensures Pump(t, loads) == Pumped(r, [], rest) ==> Pump(s, loads) == Pumped(r, pongs, rest)
  {
    hide Pump;
    assert pongs + [] == pongs;
  }

  // ---- all calls until one raises, or closes; with `past` the reader goes on past a close ----

  datatype Session = Session(outcomes: seq<Outcome>, pongs: seq<Frame>)

  predicate Final(o: Outcome, past: bool)
  {
    !o.Got? || (!past && o.event.CloseEvent?)
  }

  function PumpAll(s: Bytes, loads: Loads, past: bool): (r: Session)
    decreases |s|
  {
    var one := Pump(s, loads);
    if Final(one.outcome, past) then Session([one.outcome], one.pongs)
    else
      var more := PumpAll(one.rest, loads, past);
      Session([one.outcome] + more.outcomes, one.pongs + more.pongs)
  }

  // The bytes that k calls leave.
  function Rest(s: Bytes, loads: Loads, k: nat): (rest: Bytes)
  {
    if k == 0 then s else Pump(Rest(s, loads, k - 1), loads).rest
  }

  lemma {:induction false} RestOfRest(s: Bytes, loads: Loads, a: nat, b: nat)
    ensures Rest(Rest(s, loads, a), loads, b) == Rest(s, loads, a + b)
  {
    hide Pump;
    if b > 0 {
      RestOfRest(s, loads, a, b - 1);
    }
  }

  /** After any number of calls that returned an event, the bytes left deliver what had not been delivered yet. */
  lemma {:induction false} RestDelivers(s: Bytes, loads: Loads, past: bool, k: nat)
    requires k < |PumpAll(s, loads, past).outcomes|
    ensures PumpAll(s, loads, past).outcomes[k..] == PumpAll(Rest(s, loads, k), loads, past).outcomes
    decreases k
  {
    hide Pump;
    if k > 0 {
      var one := Pump(s, loads);
      var more := PumpAll(one.rest, loads, past).outcomes;
      RestDelivers(one.rest, loads, past, k - 1);
      RestOfRest(s, loads, 1, k - 1);
      assert Rest(s, loads, 1) == one.rest;
      assert PumpAll(s, loads, past).outcomes == [one.outcome] + more;
      assert ([one.outcome] + more)[k..] == more[k - 1..];
    }
  }

  predicate Ends(f: Frame, loads: Loads, past: bool)
  {
    !Silent(f) && Final(Returned(f, loads), past)
  }

  // The position of the first frame that ends the session, or the number of frames.
  function FirstEnd(frames: seq<Frame>, loads: Loads, past: bool): (n: nat)
    ensures n <= |frames|
    ensures forall i :: 0 <= i < n ==> !Ends(frames[i], loads, past)
    ensures n < |frames| ==> Ends(frames[n], loads, past)
  {
    if frames == [] || Ends(frames[0], loads, past) then 0 else 1 + FirstEnd(frames[1..], loads, past)
  }

  function DataOutcomes(frames: seq<Frame>, loads: Loads): (r: seq<Outcome>)
  {
    if frames == [] then []
    else (if Silent(frames[0]) then [] else [Returned(frames[0], loads)]) + DataOutcomes(frames[1..], loads)
  }

  function Pongs(frames: seq<Frame>): (r: seq<Frame>)
  {
    if frames == [] then []
    else (if frames[0].opcode == PING then [Pong(frames[0])] else []) + Pongs(frames[1..])
  }

  lemma PumpAllByFrames(s: Bytes, loads: Loads, past: bool)
    ensures var frames := DecodeAll(s).frames;
            if frames == [] then PumpAll(s, loads, past) == Session([Raised(PeerClosed)], [])
            else if Ends(frames[0], loads, past) then PumpAll(s, loads, past) == Session([Returned(frames[0], loads)], [])
            else
              && Decode(s).Decoded? && DecodeAll(Decode(s).rest).frames == frames[1..]
              && |Decode(s).rest| < |s|
              && PumpAll(s, loads, past) == Session(
                   DataOutcomes(frames[..1], loads) + PumpAll(Decode(s).rest, loads, past).outcomes,
                   Pongs(frames[..1]) + PumpAll(Decode(s).rest, loads, past).pongs)
  {
    hide Decode;
    var frames := DecodeAll(s).frames;
    if frames == [] {
      assert Pump(s, loads) == Pumped(Raised(PeerClosed), [], []);
    } else {
      var f, rest := frames[0], Decode(s).rest;
      OneFrame(f, loads);
      assert frames[..1] == [f];
      assert DecodeAll(rest).frames == frames[1..];
      hide DataOutcomes, Pongs, Returned;
      var more := PumpAll(rest, loads, past);
      if Silent(f) {
        assert Pump(s, loads) == Pump(rest, loads).(pongs := Pongs([f]) + Pump(rest, loads).pongs);
        PumpAllPongs(s, rest, loads, Pongs([f]), past);
        assert [] + more.outcomes == more.outcomes;
      } else {
        assert Pump(s, loads) == Pumped(Returned(f, loads), [], rest);
        assert [] + more.pongs == more.pongs;
      }
    }
  }

  lemma OneFrame(f: Frame, loads: Loads)
    ensures DataOutcomes([f], loads) == if Silent(f) then [] else [Returned(f, loads)]
    ensures Pongs([f]) == if f.opcode == PING then [Pong(f)] else []
  {
    hide Returned;
    assert [f][1..] == [];
  }

  lemma PumpAllPongs(s: Bytes, rest: Bytes, loads: Loads, first: seq<Frame>, past: bool)
    requires Pump(s, loads) == Pump(rest, loads).(pongs := first + Pump(rest, loads).pongs)
    ensures PumpAll(s, loads, past) == Session(PumpAll(rest, loads, past).outcomes, first + PumpAll(rest, loads, past).pongs)
  {
    hide Pump;
    var one := Pump(rest, loads);
    if Final(one.outcome, past) {
      assert PumpAll(s, loads, past) == Session([one.outcome], first + one.pongs);
    } else {
      var more := PumpAll(one.rest, loads, past);
      assert PumpAll(s, loads, past) == Session([one.outcome] + more.outcomes, (first + one.pongs) + more.pongs);
      assert PumpAll(rest, loads, past) == Session([one.outcome] + more.outcomes, one.pongs + more.pongs);
      assert first + (one.pongs + more.pongs) == (first + one.pongs) + more.pongs;
    }
  }

  /** Repeated recv on any byte stream returns the text and binary frames before the first frame that ends
      the session, in order, then that ending; meanwhile it has sent one pong for every ping before the
      ending, with the same payload and in the same order. */
  lemma {:induction false} PumpDeliversFrames(s: Bytes, loads: Loads, past: bool)
    ensures var frames := DecodeAll(s).frames;
            var n := FirstEnd(frames, loads, past);
            var ending := if n < |frames| then Returned(frames[n], loads) else Raised(PeerClosed);
            && PumpAll(s, loads, past).outcomes == DataOutcomes(frames[..n], loads) + [ending]
            && PumpAll(s, loads, past).pongs == Pongs(frames[..n])
    decreases |s|
  {
    hide Decode, DecodeAll, PumpAll, Returned, DataOutcomes, Pongs;
    PumpAllByFrames(s, loads, past);
    var frames := DecodeAll(s).frames;
    var n := FirstEnd(frames, loads, past);
    if n > 0 {
      PumpDeliversFrames(Decode(s).rest, loads, past);
      SplitFirst(frames, n, loads);
      assert FirstEnd(frames[1..], loads, past) == n - 1;
      assert n < |frames| ==> frames[1..][n - 1] == frames[n];
      var first, data, ending := DataOutcomes(frames[..1], loads), DataOutcomes(frames[1..][..n - 1], loads),
        if n < |frames| then Returned(frames[n], loads) else Raised(PeerClosed);
      assert first + (data + [ending]) == (first + data) + [ending];
    } else {
      NoFrames(frames, loads);
    }
  }

  lemma NoFrames(frames: seq<Frame>, loads: Loads)
    ensures DataOutcomes(frames[..0], loads) == [] && Pongs(frames[..0]) == []
    ensures forall o: Outcome :: [] + [o] == [o]
  {
  }

  lemma SplitFirst(frames: seq<Frame>, n: nat, loads: Loads)
    requires 0 < n <= |frames|
    ensures DataOutcomes(frames[..n], loads) == DataOutcomes(frames[..1], loads) + DataOutcomes(frames[1..][..n - 1], loads)
    ensures Pongs(frames[..n]) == Pongs(frames[..1]) + Pongs(frames[1..][..n - 1])
  {
    hide Returned;
    assert frames[..n][1..] == frames[1..][..n - 1];
    assert frames[..1][1..] == [];
  }

  // ---- the program's objects ----

  datatype Piece = Piece(bytes: Bytes) | Late

  // The bytes the peer has sent and closed after, and the bytes sent to it. `Recv` hands out a piece of
  // any size, or times out: the network decides, so nothing may depend on which. `late` remembers a timeout.
  class Socket {
    var incoming: Bytes
    var sent: Bytes
    ghost var late: bool

    constructor (incoming: Bytes)
      ensures this.incoming == incoming && sent == [] && !late
    {
      this.incoming := incoming;
      sent := [];
      late := false;
    }

    method Recv(size: nat) returns (r: Piece)
      requires size > 0
      modifies this`incoming, this`late
      ensures late == (old(late) || r.Late?)
      ensures r.Late? ==> incoming == old(incoming)
      ensures r.Piece? ==> old(incoming) == r.bytes + incoming && |r.bytes| <= size
      ensures r.Piece? ==> (r.bytes == [] <==> old(incoming) == [])
    {
      if * {
        late := true;
        return Late;
      }
      if incoming == [] {
        return Piece([]);
      }
      var n: nat :| 1 <= n <= size && n <= |incoming|;
      r := Piece(incoming[..n]);
      incoming := incoming[n..];
    }

    method SendAll(data: Bytes)
      modifies this`sent
      ensures sent == old(sent) + data
    {
      sent := sent + data;
    }
  }

  datatype Exact = Exactly(data: Bytes) | ClosedEarly | ExactLate

  datatype FrameRead = FrameRead(frame: Frame) | FrameClosed | FrameLate | FrameNotConnected

  class StdlibWebSocket {
    var sock: Socket?
    const loads: Loads

    constructor (sock: Socket?, loads: Loads)
      ensures this.sock == sock && this.loads == loads
    {
      this.sock := sock;
      this.loads := loads;
    }

    // The frames the peer reads out of the bytes sent so far, if nothing is left over.
    ghost function SentFrames(): seq<Frame>
      reads this, sock
      requires sock != null
    {
      DecodeAll(sock.sent).frames
    }

    ghost predicate Valid()
      reads this, sock
    {
      sock != null ==> DecodeAll(sock.sent).residue == []
    }

    method SendFrame(opcode: Byte, payload: Bytes) returns (ok: bool)
      requires Valid() && opcode < 16
      modifies if sock == null then {} else {sock}
      ensures Valid()
      ensures ok <==> sock != null && |payload| < MAX_LENGTH
      ensures ok ==> SentFrames() == old(SentFrames()) + [Frame(opcode, payload)]
      ensures sock != null ==> sock.incoming == old(sock.incoming) && sock.late == old(sock.late)
      ensures sock != null && !ok ==> sock.sent == old(sock.sent)
    {
      hide DecodeAll, ApplyMask, BigEndian, SetTopBit;
      if sock == null {
        return false;
      }
      var header := [SetTopBit(opcode)];
      var length := |payload|;
      if length < 126 {
        header := header + [128 + length];
      } else if length <= 0xFFFF {
        Widths();
        header := header + [128 + 126] + BigEndian(length, 2);
      } else if length < MAX_LENGTH {
        Widths();
        header := header + [128 + 127] + BigEndian(length, 8);
      } else {
        return false;
      }
      assert header == [SetTopBit(opcode)] + LengthField(length);
      var mask := AnyMask();
      var masked := ApplyMask(payload, mask);
      assert header + mask + masked == Encode(Frame(opcode, payload), mask);
      DecodeAllAppend(sock.sent, Frame(opcode, payload), mask);
      sock.SendAll(header + mask + masked);
      return true;
    }

    // os.urandom(4)
    method AnyMask() returns (mask: Bytes)
      ensures |mask| == 4
    {
      var a: Byte, b: Byte, c: Byte, d: Byte := *, *, *, *;
      return [a, b, c, d];
    }

    method RecvExact(size: nat) returns (r: Exact)
      requires sock != null
      modifies sock`incoming, sock`late
      ensures sock.late == (old(sock.late) || r.ExactLate?)
      ensures r.Exactly? ==> |r.data| == size && old(sock.incoming) == r.data + sock.incoming
      ensures r.ClosedEarly? ==> |old(sock.incoming)| < size && sock.incoming == []
      ensures |sock.incoming| <= |old(sock.incoming)|
    {
      var data: Bytes := [];
      while |data| < size
        invariant |data| <= size && sock.late == old(sock.late)
        invariant old(sock.incoming) == data + sock.incoming
        decreases size - |data|
      {
        var chunk := sock.Recv(size - |data|);
        if chunk.Late? {
          return ExactLate;
        }
        if chunk.bytes == [] {
          return ClosedEarly;
        }
        data := data + chunk.bytes;
      }
      return Exactly(data);
    }

    method RecvFrame() returns (r: FrameRead)
      modifies if sock == null then {} else {sock}
      ensures sock == null <==> r.FrameNotConnected?
      ensures sock != null ==> sock.late == (old(sock.late) || r.FrameLate?)
      ensures sock != null ==> sock.sent == old(sock.sent) && |sock.incoming| <= |old(sock.incoming)|
      ensures r.FrameRead? ==> Decode(old(sock.incoming)) == Decoded(r.frame, sock.incoming)
      ensures r.FrameClosed? ==> Decode(old(sock.incoming)) == ConnectionClosed && sock.incoming == []
    {
      hide Decode, DecodeAll, FromBigEndian, ApplyMask, PayloadLength, ExtraLength;
      if sock == null {
        return FrameNotConnected;
      }
      var head, more, length := RecvHeader();
      if !head.Exactly? || !more.Exactly? {
        return Interrupted(if head.Exactly? then more else head, old(sock.incoming));
      }
      ghost var afterHeader := sock.incoming;
      var mask := Exactly([]);
      if head.data[1] >= 128 {
        mask := RecvExact(4);
      }
      if !mask.Exactly? {
        MissingBytes(old(sock.incoming), head.data, more.data, [], afterHeader, 4);
        return Interrupted(mask, old(sock.incoming));
      }
      ghost var afterMask := sock.incoming;
      assert afterHeader == mask.data + afterMask;
      var payload := RecvExact(length);
      if !payload.Exactly? {
        MissingBytes(old(sock.incoming), head.data, more.data, mask.data, afterMask, length);
        return Interrupted(payload, old(sock.incoming));
      }
      DecodePieces(head.data, more.data, mask.data, payload.data, sock.incoming, length);
      InPieces(head.data, more.data, mask.data, payload.data, sock.incoming);
      return FrameRead(Frame(head.data[0] % 16,
                             if head.data[1] >= 128 then ApplyMask(payload.data, mask.data) else payload.data));
    }

    lemma InPieces(head: Bytes, extra: Bytes, mask: Bytes, data: Bytes, rest: Bytes)
      ensures head + extra + (mask + (data + rest)) == head + extra + mask + data + rest
    {
    }

    lemma MissingBytes(s: Bytes, head: Bytes, extra: Bytes, mask: Bytes, left: Bytes, wanted: nat)
      requires s == head + extra + (mask + left) || (mask == [] && s == head + extra + left)
      requires |head| == 2 && |extra| == ExtraLength(head[1])
      ensures |left| < wanted ==> |s| < 2 + ExtraLength(s[1]) + |mask| + wanted
    {
      assert s[1] == head[1];
    }

    // The first two bytes and the extra length bytes they announce.
    method RecvHeader() returns (head: Exact, more: Exact, length: nat)
      requires sock != null
      modifies sock`incoming, sock`late
      ensures |sock.incoming| <= |old(sock.incoming)|
      ensures sock.late == (old(sock.late) || head.ExactLate? || (head.Exactly? && more.ExactLate?))
      ensures head.Exactly? && more.Exactly? ==>
        && |head.data| == 2 && |more.data| == ExtraLength(head.data[1])
        && old(sock.incoming) == head.data + more.data + sock.incoming
        && old(sock.incoming)[1] == head.data[1]
        && length == PayloadLength(old(sock.incoming))
        && length == if more.data == [] then head.data[1] % 128 else FromBigEndian(more.data)
      ensures head.ClosedEarly? || (head.Exactly? && more.ClosedEarly?) ==>
        && sock.incoming == []
        && (|old(sock.incoming)| < 2 || |old(sock.incoming)| < 2 + ExtraLength(old(sock.incoming)[1]))
    {
      hide FromBigEndian;
      more, length := Exactly([]), 0;
      head := RecvExact(2);
      if !head.Exactly? {
        return;
      }
      length := head.data[1] % 128;
      if length == 126 || length == 127 {
        more := RecvExact(if length == 126 then 2 else 8);
        if !more.Exactly? {
          return;
        }
        length := FromBigEndian(more.data);
      }
      LengthOfPieces(old(sock.incoming), head.data, more.data, sock.incoming);
    }

    function Interrupted(e: Exact, ghost s: Bytes): (r: FrameRead)
      requires !e.Exactly?
      requires e.ClosedEarly? ==>
        || |s| < 2
        || |s| < 2 + ExtraLength(s[1])
        || |s| < 2 + ExtraLength(s[1]) + MaskLength(s[1]) + PayloadLength(s)
      ensures r.FrameClosed? ==> Decode(s) == ConnectionClosed
      ensures !r.FrameRead? && !r.FrameNotConnected? && (r.FrameLate? <==> e.ExactLate?)
    {
      if e.ExactLate? then FrameLate else FrameClosed
    }

    /** One event from the stream. Unless the network times out, the result, the pongs sent and the bytes
        left are those of `Pump`, however the bytes were cut into pieces. */
    method Recv() returns (r: Outcome)
      requires Valid()
      modifies if sock == null then {} else {sock}
      ensures Valid()
      ensures sock == null ==> r == Raised(NotConnected)
      ensures !r.NoEvent?
      ensures sock != null ==> sock.late == (old(sock.late) || r.TimedOut?)
      ensures sock != null && !r.TimedOut? ==>
        && Pump(old(sock.incoming), loads) == Pumped(r, Pump(old(sock.incoming), loads).pongs, sock.incoming)
        && SentFrames() == old(SentFrames()) + Pump(old(sock.incoming), loads).pongs
      ensures sock != null && r.TimedOut? ==>
        old(SentFrames()) <= SentFrames() <= old(SentFrames()) + Pump(old(sock.incoming), loads).pongs
    {
      if sock == null {
        return Raised(NotConnected);
      }
      hide Decode, DecodeAll, Pump, Skips;
      ghost var answered: seq<Frame> := [];
      SkipsOn(sock.incoming, [], [], [], [], loads);
      assert SentFrames() + answered == SentFrames();
      while true
        invariant Valid() && sock != null && sock.late == old(sock.late)
        invariant SentFrames() == old(SentFrames()) + answered
        invariant Skips(old(sock.incoming), sock.incoming, answered, loads)
        decreases |sock.incoming|
      {
        ghost var before := sock.incoming;
        ghost var pongs;
        r, pongs := RecvOne();
        if !r.NoEvent? {
          SkipsTo(old(sock.incoming), before, answered, r, sock.incoming, loads);
          SentSoFar(old(SentFrames()), answered, Pump(old(sock.incoming), loads).pongs);
          return;
        }
        SkipsOn(old(sock.incoming), before, sock.incoming, answered, pongs, loads);
        Regroup(old(SentFrames()), answered, pongs);
        answered := answered + pongs;
      }
    }

    lemma Regroup(a: seq<Frame>, b: seq<Frame>, c: seq<Frame>)
      ensures a + (b + c) == (a + b) + c
    {
    }

    lemma SentSoFar(sent: seq<Frame>, some: seq<Frame>, all: seq<Frame>)
      requires some <= all
      ensures sent <= sent + some <= sent + all && sent + some + [] == sent + some
    {
    }

    // The body of the loop in recv: one frame, answered if it is a ping; NoEvent to go round again.
    method RecvOne() returns (r: Outcome, ghost pongs: seq<Frame>)
      requires Valid() && sock != null
      modifies sock
      ensures Valid() && sock.late == (old(sock.late) || r.TimedOut?)
      ensures !r.TimedOut? && !r.NoEvent? ==> Pump(old(sock.incoming), loads) == Pumped(r, [], sock.incoming)
      ensures SentFrames() == old(SentFrames()) + pongs
      ensures !r.NoEvent? ==> pongs == []
      ensures r.NoEvent? ==>
        |sock.incoming| < |old(sock.incoming)| && Skips(old(sock.incoming), sock.incoming, pongs, loads)
    {
      pongs := [];
      hide Decode;
      var frame := RecvFrame();
      match frame {
        case FrameNotConnected =>
          r := Raised(NotConnected);
        case FrameLate =>
          r := TimedOut;
        case FrameClosed =>
          r := Raised(PeerClosed);
        case FrameRead(f) =>
          if f.opcode == TEXT {
            match loads(f.payload) {
              case Parsed(message) =>
                r := Got(JsonEvent(message));
              case NotJson =>
                r := Got(JsonEvent(INVALID_JSON));
              case Undecodable =>
                r := Raised(BadText);
            }
          } else if f.opcode == BINARY {
            r := Got(BinaryEvent(|f.payload|));
          } else if f.opcode == CLOSE {
            r := Got(CloseEvent);
          } else {
            if f.opcode == PING {
              var ok := SendFrame(PONG, f.payload);
              pongs := [Pong(f)];
            }
            r := NoEvent;
          }
      }
    }
  }
}
