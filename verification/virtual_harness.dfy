/** One harness run: hello, listen, optional audio, then a timed event loop that may send one abort.
    The clock is a script of readings; the network decides when a read times out. */
module VirtualHarness {
  import opened Wrappers
  import opened WebSocketCodec
  import opened WebSocketClient

  datatype Options = Options(expectAudio: bool, requireMetrics: bool, abortAfterFirstAudio: bool)

  // The report fields a run changes.
  datatype Facts = Facts(
    helloAccepted: bool, listenAck: bool, binaryFrames: nat, firstAudioMs: Option<int>,
    ttsStop: bool, abortSent: bool, abortStopMs: Option<int>, metrics: bool)

  const BLANK := Facts(false, false, 0, None, false, false, None, false)

  // round(seconds * 1000): to the nearest integer, halves to even.
  function RoundMs(seconds: real): (ms: int)
    ensures ms as real - 0.5 <= seconds * 1000.0 <= ms as real + 0.5
    ensures seconds * 1000.0 == ms as real - 0.5 || seconds * 1000.0 == ms as real + 0.5 ==> ms % 2 == 0
  {
    var x := seconds * 1000.0;
    var below := x.Floor;
    var fraction := x - below as real;
    if fraction < 0.5 || (fraction == 0.5 && below % 2 == 0) then below else below + 1
  }

  function Mark(f: Facts, m: Message): (r: Facts)
    requires m.Object?
    ensures r == f.(helloAccepted := r.helloAccepted, listenAck := r.listenAck, metrics := r.metrics, ttsStop := f.ttsStop || IsTtsStop(m))
  {
    f.(helloAccepted := f.helloAccepted || (m.kind == "hello" && m.transport == "websocket"),
       listenAck := f.listenAck || (m.kind == "listen" && m.state == "start" && m.status == "accepted"),
       metrics := f.metrics || (m.kind == "tts" && (m.ingressIsObject || m.pipelineIsObject)),
       ttsStop := f.ttsStop || IsTtsStop(m))
  }

  predicate IsTtsStop(m: Message)
  {
    m.Object? && m.kind == "tts" && m.state == "stop"
  }

  // ---- the event loop as a fold over what it saw ----

  // What one round of the loop read, with the clock when it was handled and just after an abort was sent.
  datatype Seen = Seen(outcome: Outcome, at: real, later: real)

  datatype Loop = Loop(facts: Facts, abortAt: Option<real>, ended: bool, failed: bool)

  function Handle(l: Loop, s: Seen, abortMode: bool, start: real): (r: Loop)
  {
    match s.outcome
    case TimedOut => l.(ended := true)
    case NoEvent => l.(ended := true)
    case Raised(_) => l.(ended := true, failed := true)
    case Got(CloseEvent) => l.(ended := true)
    case Got(JsonEvent(NotAnObject)) => l.(ended := true, failed := true)
    case Got(JsonEvent(m)) =>
      var f := Mark(l.facts, m);
      if f.abortSent && f.ttsStop && l.abortAt.Some? then
        l.(facts := f.(abortStopMs := Some(RoundMs(s.at - l.abortAt.value))), ended := true)
      else l.(facts := f, ended := f.ttsStop && !abortMode)
    case Got(BinaryEvent(_)) =>
      var f := l.facts.(
        binaryFrames := l.facts.binaryFrames + 1,
        firstAudioMs := if l.facts.firstAudioMs.None? then Some(RoundMs(s.at - start)) else l.facts.firstAudioMs);
      if abortMode && !f.abortSent then l.(facts := f.(abortSent := true), abortAt := Some(s.later))
      else l.(facts := f)
  }

  function Fold(facts: Facts, seen: seq<Seen>, abortMode: bool, start: real): (r: Loop)
  {
    if seen == [] then Loop(facts, None, false, false)
    else Handle(Fold(facts, seen[..|seen| - 1], abortMode, start), seen[|seen| - 1], abortMode, start)
  }

  // ---- the same run described by the events alone ----

  predicate IsAudio(s: Seen)
  {
    s.outcome.Got? && s.outcome.event.BinaryEvent?
  }

  predicate IsObject(s: Seen)
  {
    s.outcome.Got? && s.outcome.event.JsonEvent? && s.outcome.event.message.Object?
  }

  predicate IsStop(s: Seen)
  {
    IsObject(s) && IsTtsStop(s.outcome.event.message)
  }

  // The position of the first audio frame, or the number of events.
  function FirstAudio(seen: seq<Seen>): (n: nat)
    ensures n <= |seen|
    ensures forall i :: 0 <= i < n ==> !IsAudio(seen[i])
    ensures n < |seen| ==> IsAudio(seen[n])
  {
    if seen == [] || IsAudio(seen[0]) then 0 else 1 + FirstAudio(seen[1..])
  }

  function AudioCount(seen: seq<Seen>): (n: nat)
  {
    if seen == [] then 0 else AudioCount(seen[..|seen| - 1]) + if IsAudio(seen[|seen| - 1]) then 1 else 0
  }

  // A tts stop was read before the loop or among the first n events.
  predicate StopHeard(before: bool, seen: seq<Seen>, n: nat)
    requires n <= |seen|
  {
    before || exists i :: 0 <= i < n && IsStop(seen[i])
  }

  // Event i is where the abort is seen to take effect: a JSON message after audio, a stop having been heard.
  predicate AbortAnswered(before: bool, seen: seq<Seen>, i: nat)
    requires i < |seen|
  {
    IsObject(seen[i]) && StopHeard(before, seen, i + 1) && FirstAudio(seen[..i]) < i
  }

  // Event i is one the loop does not read past.
  predicate StopsAt(before: bool, seen: seq<Seen>, i: nat, abortMode: bool)
    requires i < |seen|
  {
    if IsAudio(seen[i]) then false
    else if IsObject(seen[i]) then
      if abortMode then AbortAnswered(before, seen, i) else StopHeard(before, seen, i + 1)
    else true
  }

  ghost predicate ReadToTheEnd(before: bool, seen: seq<Seen>, abortMode: bool)
  {
    forall i :: 0 <= i < |seen| - 1 ==> !StopsAt(before, seen, i, abortMode)
  }

  // What the facts of a finished loop must be.
  ghost predicate Describes(facts: Facts, l: Loop, seen: seq<Seen>, abortMode: bool, start: real)
  {
    var first := FirstAudio(seen);
    var heard := first < |seen|;
    && l.facts.binaryFrames == AudioCount(seen)
    && (heard <==> AudioCount(seen) > 0)
    && l.facts.firstAudioMs == (if heard then Some(RoundMs(seen[first].at - start)) else None)
    && l.facts.ttsStop == StopHeard(facts.ttsStop, seen, |seen|)
    && l.facts.abortSent == (abortMode && heard)
    && l.abortAt == (if abortMode && heard then Some(seen[first].later) else None)
    && l.ended == (seen != [] && StopsAt(facts.ttsStop, seen, |seen| - 1, abortMode))
    && l.facts.abortStopMs ==
         (if abortMode && seen != [] && AbortAnswered(facts.ttsStop, seen, |seen| - 1)
          then Some(RoundMs(seen[|seen| - 1].at - seen[first].later)) else None)
  }

  lemma {:induction false} FirstAudioSnoc(seen: seq<Seen>)
    requires seen != []
    ensures var init := seen[..|seen| - 1];
            FirstAudio(seen) ==
              if FirstAudio(init) < |init| then FirstAudio(init)
              else if IsAudio(seen[|seen| - 1]) then |init| else |seen|
  {
    if |seen| > 1 && !IsAudio(seen[0]) {
      FirstAudioSnoc(seen[1..]);
      assert seen[1..][..|seen| - 2] == seen[..|seen| - 1][1..];
    }
  }

  lemma StopHeardSnoc(before: bool, seen: seq<Seen>)
    requires seen != []
    ensures var init := seen[..|seen| - 1];
            StopHeard(before, seen, |seen|) == (StopHeard(before, init, |init|) || IsStop(seen[|seen| - 1]))
  {
    var init := seen[..|seen| - 1];
    if exists i :: 0 <= i < |init| && IsStop(init[i]) {
      var i :| 0 <= i < |init| && IsStop(init[i]);
      assert IsStop(seen[i]);
    }
    if exists i :: 0 <= i < |seen| && IsStop(seen[i]) {
      var i :| 0 <= i < |seen| && IsStop(seen[i]);
      assert i < |init| ==> IsStop(init[i]);
    }
  }

  lemma StopsAtPrefix(before: bool, seen: seq<Seen>, n: nat, i: nat, abortMode: bool)
    requires i < n <= |seen|
    ensures StopsAt(before, seen[..n], i, abortMode) == StopsAt(before, seen, i, abortMode)
    ensures AbortAnswered(before, seen[..n], i) == AbortAnswered(before, seen, i)
  {
    assert seen[..n][..i] == seen[..i];
    assert StopHeard(before, seen[..n], i + 1) == StopHeard(before, seen, i + 1) by {
      if exists j :: 0 <= j < i + 1 && IsStop(seen[j]) {
        var j :| 0 <= j < i + 1 && IsStop(seen[j]);
        assert IsStop(seen[..n][j]);
      }
    }
  }

  predicate NoAudioYet(f: Facts)
  {
    f == f.(binaryFrames := 0, firstAudioMs := None, abortSent := false, abortStopMs := None)
  }

  /** Every run of the loop, in terms of its events alone: audio is reported exactly when some binary frame
      arrived, from the first one; the abort goes out exactly when audio arrived in abort mode; its stop time
      is set exactly when the last event is a JSON message after that audio by which a tts stop had been
      heard; and the loop has ended exactly when its last event is one it does not read past. */
  lemma {:induction false} LoopDescribed(facts: Facts, seen: seq<Seen>, abortMode: bool, start: real)
    requires NoAudioYet(facts)
    requires ReadToTheEnd(facts.ttsStop, seen, abortMode)
    ensures Describes(facts, Fold(facts, seen, abortMode, start), seen, abortMode, start)
  {
    if seen != [] {
      var n := |seen| - 1;
      var init := seen[..n];
      forall i | 0 <= i < |init|
        ensures !StopsAt(facts.ttsStop, init, i, abortMode)
      {
        StopsAtPrefix(facts.ttsStop, seen, n, i, abortMode);
      }
      LoopDescribed(facts, init, abortMode, start);
      if init != [] {
        StopsAtPrefix(facts.ttsStop, seen, n, n - 1, abortMode);
      }
      assert !Fold(facts, init, abortMode, start).ended;
      hide Describes, StopsAt, Handle;
      var l := Fold(facts, init, abortMode, start);
      if IsAudio(seen[n]) {
        AudioDescribed(facts, l, seen, abortMode, start);
      } else {
        OtherDescribed(facts, l, seen, abortMode, start);
      }
    }
  }

  lemma AudioDescribed(facts: Facts, l: Loop, seen: seq<Seen>, abortMode: bool, start: real)
    requires seen != [] && IsAudio(seen[|seen| - 1])
    requires Describes(facts, l, seen[..|seen| - 1], abortMode, start)
    requires !l.ended
    ensures Describes(facts, Handle(l, seen[|seen| - 1], abortMode, start), seen, abortMode, start)
  {
    hide FirstAudio, StopHeard, RoundMs;
    var init := seen[..|seen| - 1];
    FirstAudioSnoc(seen);
    StopHeardSnoc(facts.ttsStop, seen);
    NotYetAnswered(facts.ttsStop, init, abortMode);
    assert StopsAt(facts.ttsStop, seen, |init|, abortMode) == false;
  }

  lemma OtherDescribed(facts: Facts, l: Loop, seen: seq<Seen>, abortMode: bool, start: real)
    requires seen != [] && !IsAudio(seen[|seen| - 1])
    requires Describes(facts, l, seen[..|seen| - 1], abortMode, start)
    requires !l.ended
    ensures Describes(facts, Handle(l, seen[|seen| - 1], abortMode, start), seen, abortMode, start)
  {
    hide Describes, Handle;
    if IsObject(seen[|seen| - 1]) {
      ObjectDescribed(facts, l, seen, abortMode, start);
    } else {
      EndingDescribed(facts, l, seen, abortMode, start);
    }
  }

  lemma ObjectDescribed(facts: Facts, l: Loop, seen: seq<Seen>, abortMode: bool, start: real)
    requires seen != [] && IsObject(seen[|seen| - 1])
    requires Describes(facts, l, seen[..|seen| - 1], abortMode, start)
    requires !l.ended
    ensures Describes(facts, Handle(l, seen[|seen| - 1], abortMode, start), seen, abortMode, start)
  {
    hide FirstAudio, StopHeard, RoundMs, Mark, IsTtsStop;
    var init := seen[..|seen| - 1];
    FirstAudioSnoc(seen);
    StopHeardSnoc(facts.ttsStop, seen);
    NotYetAnswered(facts.ttsStop, init, abortMode);
    assert seen[..|init|] == init;
    assert AbortAnswered(facts.ttsStop, seen, |init|) ==
           (StopHeard(facts.ttsStop, seen, |seen|) && FirstAudio(init) < |init|);
  }

  lemma EndingDescribed(facts: Facts, l: Loop, seen: seq<Seen>, abortMode: bool, start: real)
    requires seen != [] && !IsAudio(seen[|seen| - 1]) && !IsObject(seen[|seen| - 1])
    requires Describes(facts, l, seen[..|seen| - 1], abortMode, start)
    requires !l.ended
    ensures Describes(facts, Handle(l, seen[|seen| - 1], abortMode, start), seen, abortMode, start)
  {
    hide FirstAudio, StopHeard, RoundMs, Mark, IsTtsStop;
    var init := seen[..|seen| - 1];
    FirstAudioSnoc(seen);
    StopHeardSnoc(facts.ttsStop, seen);
    NotYetAnswered(facts.ttsStop, init, abortMode);
  }

  lemma NotYetAnswered(before: bool, init: seq<Seen>, abortMode: bool)
    requires init != [] ==> !StopsAt(before, init, |init| - 1, abortMode)
    ensures abortMode && init != [] ==> !AbortAnswered(before, init, |init| - 1)
  {
  }

  // ---- the program's methods ----

  class Report {
    var facts: Facts
    var error: bool
    var failure: string

    constructor ()
      ensures facts == BLANK && !error && failure == ""
    {
      facts, error, failure := BLANK, false, "";
    }

    method MarkJsonEvent(m: Message)
      requires m.Object?
      modifies this`facts
      ensures facts == Mark(old(facts), m)
    {
      if m.kind == "hello" && m.transport == "websocket" {
        facts := facts.(helloAccepted := true);
      }
      if m.kind == "listen" && m.state == "start" && m.status == "accepted" {
        facts := facts.(listenAck := true);
      }
      if m.kind == "tts" && m.ingressIsObject {
        facts := facts.(metrics := true);
      }
      if m.kind == "tts" && m.pipelineIsObject {
        facts := facts.(metrics := true);
      }
      if m.kind == "tts" && m.state == "stop" {
        facts := facts.(ttsStop := true);
      }
    }
  }

  // One reading of the clock per round: whether the deadline is still ahead, and the times Handle uses.
  datatype Tick = Tick(open: bool, at: real, later: real)

  function Outcomes(seen: seq<Seen>): (r: seq<Outcome>)
    ensures |r| == |seen|
  {
    seq(|seen|, i requires 0 <= i < |seen| => seen[i].outcome)
  }

  // The frames a run sends of its own accord: all but the pongs.
  function Said(frames: seq<Frame>): (r: seq<Frame>)
  {
    if frames == [] then []
    else
      var last := frames[|frames| - 1];
      Said(frames[..|frames| - 1]) + if last.opcode == PONG then [] else [last]
  }

  lemma {:induction false} PongsAreNotSaid(frames: seq<Frame>, pongs: seq<Frame>)
    requires forall i :: 0 <= i < |pongs| ==> pongs[i].opcode == PONG
    ensures Said(frames + pongs) == Said(frames)
  {
    if pongs == [] {
      assert frames + pongs == frames;
    } else {
      var n := |pongs| - 1;
      PongsAreNotSaid(frames, pongs[..n]);
      assert (frames + pongs)[..|frames| + n] == frames + pongs[..n];
    }
  }

  lemma SaidOneMore(frames: seq<Frame>, f: Frame)
    requires f.opcode != PONG
    ensures Said(frames + [f]) == Said(frames) + [f]
  {
    assert (frames + [f])[..|frames|] == frames;
  }

  lemma {:induction false} PumpSendsPongs(s: Bytes, loads: Loads)
    ensures forall i :: 0 <= i < |Pump(s, loads).pongs| ==> Pump(s, loads).pongs[i].opcode == PONG
    decreases |s|
  {
    hide Decode;
    if Decode(s).Decoded? {
      PumpSendsPongs(Decode(s).rest, loads);
    }
  }

  lemma SomePongs(s: Bytes, loads: Loads, before: seq<Frame>, after: seq<Frame>)
    requires before <= after <= before + Pump(s, loads).pongs
    ensures Said(after) == Said(before)
  {
    hide Pump;
    PumpSendsPongs(s, loads);
    var pongs := after[|before|..];
    assert after == before + pongs;
    PongsAreNotSaid(before, pongs);
  }

  // What the connection has delivered once it has handed out `read`, `ahead` being what it still would.
  predicate Handed(session: seq<Outcome>, read: Outcome, ahead: seq<Outcome>)
  {
    !read.NoEvent? && (!read.TimedOut? ==> session == [read] + if Final(read, true) then [] else ahead)
  }

  // All that repeated recv calls would return, were there no timeouts.
  ghost function Ahead(conn: StdlibWebSocket): (session: seq<Outcome>)
    reads conn, conn.sock
    requires conn.sock != null
  {
    PumpAll(conn.sock.incoming, conn.loads, true).outcomes
  }

  // conn.recv(), with what it means for the whole session and for the frames the peer has been sent.
  method ReadEvent(conn: StdlibWebSocket) returns (r: Outcome)
    requires conn.Valid() && conn.sock != null
    modifies conn.sock
    ensures conn.Valid()
    ensures Handed(old(Ahead(conn)), r, Ahead(conn))
    ensures !r.TimedOut? ==> conn.sock.incoming == Pump(old(conn.sock.incoming), conn.loads).rest
    ensures conn.sock.late == (old(conn.sock.late) || r.TimedOut?)
    ensures Said(conn.SentFrames()) == Said(old(conn.SentFrames()))
  {
    hide Pump, Decode, DecodeAll, Said;
    r := conn.Recv();
    assert old(conn.SentFrames()) <= conn.SentFrames();
    SomePongs(old(conn.sock.incoming), conn.loads, old(conn.SentFrames()), conn.SentFrames());
  }

  lemma OneMoreRead(facts: Facts, seen: seq<Seen>, next: Seen, abortMode: bool, start: real)
    requires NoAudioYet(facts)
    requires ReadToTheEnd(facts.ttsStop, seen, abortMode)
    requires !Fold(facts, seen, abortMode, start).ended
    ensures ReadToTheEnd(facts.ttsStop, seen + [next], abortMode)
    ensures Fold(facts, seen + [next], abortMode, start) == Handle(Fold(facts, seen, abortMode, start), next, abortMode, start)
  {
    hide StopsAt, Handle;
    LoopDescribed(facts, seen, abortMode, start);
    assert (seen + [next])[..|seen|] == seen;
    forall i | 0 <= i < |seen|
      ensures !StopsAt(facts.ttsStop, seen + [next], i, abortMode)
    {
      StopsAtPrefix(facts.ttsStop, seen + [next], |seen|, i, abortMode);
    }
  }

  method SendJson(conn: StdlibWebSocket, payload: Bytes)
    requires conn.Valid() && conn.sock != null && |payload| < MAX_LENGTH
    modifies conn.sock
    ensures conn.Valid() && conn.sock.late == old(conn.sock.late)
    ensures conn.sock.incoming == old(conn.sock.incoming) && Ahead(conn) == old(Ahead(conn))
    ensures Said(conn.SentFrames()) == Said(old(conn.SentFrames())) + [Frame(TEXT, payload)]
  {
    hide DecodeAll, Said;
    SaidOneMore(conn.SentFrames(), Frame(TEXT, payload));
    var ok := conn.SendFrame(TEXT, payload);
  }

  method SendBinary(conn: StdlibWebSocket, payload: Bytes)
    requires conn.Valid() && conn.sock != null && |payload| < MAX_LENGTH
    modifies conn.sock
    ensures conn.Valid() && conn.sock.late == old(conn.sock.late)
    ensures conn.sock.incoming == old(conn.sock.incoming) && Ahead(conn) == old(Ahead(conn))
    ensures Said(conn.SentFrames()) == Said(old(conn.SentFrames())) + [Frame(BINARY, payload)]
  {
    hide DecodeAll, Said;
    SaidOneMore(conn.SentFrames(), Frame(BINARY, payload));
    var ok := conn.SendFrame(BINARY, payload);
  }

  // The abort message, where one was sent.
  function Aborts(sent: bool, abort: Bytes): (frames: seq<Frame>)
  {
    if sent then [Frame(1, abort)] else []
  }

  // The body of the loop once an event has been read.
  method HandleEvent(conn: StdlibWebSocket, report: Report, event: Outcome, tick: Tick, l: Loop, abortMode: bool, abort: Bytes, start: real)
    returns (abortAt: Option<real>, ended: bool, failed: bool)
    requires conn.Valid() && conn.sock != null && |abort| < MAX_LENGTH
    requires report.facts == l.facts && !l.ended && !l.failed
    modifies conn.sock, report`facts
    ensures conn.Valid() && conn.sock.late == old(conn.sock.late)
    ensures conn.sock.incoming == old(conn.sock.incoming) && Ahead(conn) == old(Ahead(conn))
    ensures Loop(report.facts, abortAt, ended, failed) == Handle(l, Seen(event, tick.at, tick.later), abortMode, start)
    ensures l.facts.abortSent ==> report.facts.abortSent
    ensures Said(conn.SentFrames()) ==
              Said(old(conn.SentFrames())) + Aborts(report.facts.abortSent && !l.facts.abortSent, abort)
  {
    hide RoundMs, Said, DecodeAll, PumpAll, Ahead, Mark, Aborts;
    abortAt, ended, failed := l.abortAt, false, false;
    NothingAborted(Said(conn.SentFrames()), abort);
    match event {
      case TimedOut =>
        ended := true;
      case NoEvent =>
        ended := true;
      case Raised(_) =>
        ended, failed := true, true;
      case Got(CloseEvent) =>
        ended := true;
      case Got(JsonEvent(m)) =>
        if m.NotAnObject? {
          ended, failed := true, true;
        } else {
          report.MarkJsonEvent(m);
          if report.facts.abortSent && report.facts.ttsStop && abortAt.Some? {
            report.facts := report.facts.(abortStopMs := Some(RoundMs(tick.at - abortAt.value)));
            ended := true;
          } else if report.facts.ttsStop && !abortMode {
            ended := true;
          }
        }
      case Got(BinaryEvent(_)) =>
        abortAt := HandleAudio(conn, report, tick, l, abortMode, abort, start);
    }
  }

  method HandleAudio(conn: StdlibWebSocket, report: Report, tick: Tick, l: Loop, abortMode: bool, abort: Bytes, start: real)
    returns (abortAt: Option<real>)
    requires conn.Valid() && conn.sock != null && |abort| < MAX_LENGTH
    requires report.facts == l.facts
    modifies conn.sock, report`facts
    ensures conn.Valid() && conn.sock.late == old(conn.sock.late)
    ensures conn.sock.incoming == old(conn.sock.incoming) && Ahead(conn) == old(Ahead(conn))
    ensures forall length :: l.(facts := report.facts, abortAt := abortAt) ==
              Handle(l, Seen(Got(BinaryEvent(length)), tick.at, tick.later), abortMode, start)
    ensures l.facts.abortSent ==> report.facts.abortSent
    ensures Said(conn.SentFrames()) ==
              Said(old(conn.SentFrames())) + Aborts(report.facts.abortSent && !l.facts.abortSent, abort)
  {
    hide RoundMs, Said, DecodeAll, PumpAll, Ahead;
    abortAt := l.abortAt;
    NothingAborted(Said(conn.SentFrames()), abort);
    report.facts := report.facts.(binaryFrames := report.facts.binaryFrames + 1);
    if report.facts.firstAudioMs.None? {
      report.facts := report.facts.(firstAudioMs := Some(RoundMs(tick.at - start)));
    }
    if abortMode && !report.facts.abortSent {
      SendJson(conn, abort);
      report.facts := report.facts.(abortSent := true);
      abortAt := Some(tick.later);
    }
  }

  ghost predicate FollowsScript(seen: seq<Seen>, script: seq<Tick>)
  {
    && |seen| <= |script|
    && forall i :: 0 <= i < |seen| ==> script[i].open && seen[i].at == script[i].at && seen[i].later == script[i].later
  }

  predicate EndsLate(outcomes: seq<Outcome>)
  {
    outcomes != [] && outcomes[|outcomes| - 1].TimedOut?
  }

  // What was read, up to a timeout, is what the session delivers.
  ghost predicate Delivered(outcomes: seq<Outcome>, session: seq<Outcome>)
  {
    (if EndsLate(outcomes) then outcomes[..|outcomes| - 1] else outcomes) <= session
  }

  // Unless the last read timed out, exactly what the reads returned has been taken from the bytes.
  ghost predicate Taken(before: Bytes, left: Bytes, loads: Loads, outcomes: seq<Outcome>)
  {
    !EndsLate(outcomes) ==> left == Rest(before, loads, |outcomes|)
  }

  lemma OneMoreTaken(before: Bytes, here: Bytes, left: Bytes, loads: Loads, seen: seq<Seen>, next: Seen)
    requires Taken(before, here, loads, Outcomes(seen)) && !EndsLate(Outcomes(seen))
    requires !next.outcome.TimedOut? ==> left == Pump(here, loads).rest
    ensures Taken(before, left, loads, Outcomes(seen + [next]))
  {
    hide Pump;
    assert Outcomes(seen + [next])[|seen|] == next.outcome;
  }

  lemma LateEnds(seen: seq<Seen>, l: Loop, next: Seen, abortMode: bool, start: real)
    ensures EndsLate(Outcomes(seen + [next])) <==> next.outcome.TimedOut?
    ensures next.outcome.TimedOut? ==> Handle(l, next, abortMode, start).ended
  {
  }

  // The loop so far: `session` is all the connection would deliver, `ahead` what it still would.
  ghost predicate SoFar(facts: Facts, session: seq<Outcome>, ahead: seq<Outcome>, seen: seq<Seen>, script: seq<Tick>, l: Loop, abortMode: bool, start: real)
  {
    && l == Fold(facts, seen, abortMode, start)
    && FollowsScript(seen, script)
    && ReadToTheEnd(facts.ttsStop, seen, abortMode)
    && Delivered(Outcomes(seen), session)
    && (!l.ended ==> !l.failed && session == Outcomes(seen) + ahead)
  }

  lemma OneRound(facts: Facts, session: seq<Outcome>, ahead: seq<Outcome>, seen: seq<Seen>, script: seq<Tick>, l: Loop, abortMode: bool, start: real,
                 event: Outcome, ahead': seq<Outcome>)
    requires NoAudioYet(facts)
    requires SoFar(facts, session, ahead, seen, script, l, abortMode, start)
    requires !l.ended && |seen| < |script| && script[|seen|].open
    requires Handed(ahead, event, ahead')
    ensures var next := Seen(event, script[|seen|].at, script[|seen|].later);
            SoFar(facts, session, ahead', seen + [next], script, Handle(l, next, abortMode, start), abortMode, start)
  {
    hide Handle, Fold, ReadToTheEnd, Delivered;
    var next := Seen(event, script[|seen|].at, script[|seen|].later);
    OneMoreRead(facts, seen, next, abortMode, start);
    Continues(seen, next, ahead, ahead', l, abortMode, start);
  }

  method RunLoop(conn: StdlibWebSocket, report: Report, abortMode: bool, abort: Bytes, script: seq<Tick>, start: real)
    returns (failed: bool, ghost seen: seq<Seen>)
    requires conn.Valid() && conn.sock != null && |abort| < MAX_LENGTH
    requires NoAudioYet(report.facts)
    modifies conn.sock, report`facts
    ensures conn.Valid()
    ensures conn.sock.late == (old(conn.sock.late) || EndsLate(Outcomes(seen)))
    ensures FollowsScript(seen, script)
    ensures Delivered(Outcomes(seen), old(Ahead(conn)))
    ensures Taken(old(conn.sock.incoming), conn.sock.incoming, conn.loads, Outcomes(seen))
    ensures ReadToTheEnd(old(report.facts.ttsStop), seen, abortMode)
    ensures var l := Fold(old(report.facts), seen, abortMode, start);
            && report.facts == l.facts && failed == l.failed
            && Describes(old(report.facts), l, seen, abortMode, start)
            && (l.ended || |seen| == |script| || !script[|seen|].open)
    ensures Said(conn.SentFrames()) == Said(old(conn.SentFrames())) + Aborts(report.facts.abortSent, abort)
  {
    hide Decode, DecodeAll, Pump, PumpAll, StopsAt, Handle, Said, Describes, Fold, Ahead, Handed, Aborts, Taken, EndsLate;
    seen := [];
    NothingTaken(conn.sock.incoming, conn.loads);
    ghost var facts, session := report.facts, Ahead(conn);
    NothingAborted(Said(conn.SentFrames()), abort);
    var l := Loop(report.facts, None, false, false);
    var round := 0;
    NothingSeen(facts, session, script, abortMode, start);
    while round < |script| && script[round].open && !l.ended
      invariant conn.Valid() && conn.sock != null
      invariant report.facts == l.facts && round == |seen|
      invariant conn.sock.late == (old(conn.sock.late) || EndsLate(Outcomes(seen)))
      invariant EndsLate(Outcomes(seen)) ==> l.ended
      invariant Taken(old(conn.sock.incoming), conn.sock.incoming, conn.loads, Outcomes(seen))
      invariant SoFar(facts, session, Ahead(conn), seen, script, l, abortMode, start)
      invariant Said(conn.SentFrames()) == Said(old(conn.SentFrames())) + Aborts(report.facts.abortSent, abort)
    {
      ghost var ahead, aborted, here := Ahead(conn), report.facts.abortSent, conn.sock.incoming;
      var event := ReadEvent(conn);
      OneMoreTaken(old(conn.sock.incoming), here, conn.sock.incoming, conn.loads, seen, Seen(event, script[round].at, script[round].later));
      OneRound(facts, session, ahead, seen, script, l, abortMode, start, event, Ahead(conn));
      var abortAt, ended, failedNow := HandleEvent(conn, report, event, script[round], l, abortMode, abort, start);
      AbortedOnce(Said(old(conn.SentFrames())), aborted, report.facts.abortSent, abort);
      LateEnds(seen, l, Seen(event, script[round].at, script[round].later), abortMode, start);
      l := Loop(report.facts, abortAt, ended, failedNow);
      seen := seen + [Seen(event, script[round].at, script[round].later)];
      round := round + 1;
    }
    LoopDescribed(facts, seen, abortMode, start);
    failed := l.failed;
  }

  lemma NothingTaken(s: Bytes, loads: Loads)
    ensures Taken(s, s, loads, Outcomes([])) && !EndsLate(Outcomes([]))
  {
  }

  lemma NothingAborted(said: seq<Frame>, abort: Bytes)
    ensures said == said + Aborts(false, abort)
  {
  }

  lemma AbortedOnce(said: seq<Frame>, before: bool, after: bool, abort: Bytes)
    requires before ==> after
    ensures said + Aborts(before, abort) + Aborts(after && !before, abort) == said + Aborts(after, abort)
  {
  }

  lemma NothingSeen(facts: Facts, session: seq<Outcome>, script: seq<Tick>, abortMode: bool, start: real)
    ensures SoFar(facts, session, session, [], script, Loop(facts, None, false, false), abortMode, start)
  {
    assert Outcomes([]) + session == session;
  }

  // The session splits at each event read; the loop never reads past one that ends the session.
  lemma Continues(seen: seq<Seen>, next: Seen, before: seq<Outcome>, after: seq<Outcome>, l: Loop, abortMode: bool, start: real)
    requires Handed(before, next.outcome, after)
    requires !l.ended && !l.failed
    ensures Delivered(Outcomes(seen + [next]), Outcomes(seen) + before)
    ensures var l' := Handle(l, next, abortMode, start);
            && (!l'.ended ==> !l'.failed)
            && (!l'.ended ==> Outcomes(seen) + before == Outcomes(seen + [next]) + after)
  {
    hide RoundMs, Mark;
    var o := next.outcome;
    assert Outcomes(seen + [next]) == Outcomes(seen) + [o];
    OneMoreDelivered(Outcomes(seen), o, before, after);
    if Final(o, true) {
      assert Handle(l, next, abortMode, start).ended;
    }
  }

  lemma OneMoreDelivered(read: seq<Outcome>, o: Outcome, before: seq<Outcome>, after: seq<Outcome>)
    requires Handed(before, o, after)
    ensures Delivered(read + [o], read + before)
    ensures !Final(o, true) ==> read + before == read + [o] + after
  {
    assert (read + [o])[..|read|] == read;
    if !o.TimedOut? && !Final(o, true) {
      assert read + ([o] + after) == (read + [o]) + after;
    }
  }

  // ---- one whole run over a connected socket ----

  // The encoded JSON messages of the run and the optional audio packet.
  datatype Script = Script(hello: Bytes, listenStart: Bytes, audio: Option<Bytes>, listenStop: Bytes, abort: Bytes)
  {
    predicate Fits()
    {
      && |hello| < MAX_LENGTH && |listenStart| < MAX_LENGTH && |listenStop| < MAX_LENGTH && |abort| < MAX_LENGTH
      && (audio.Some? ==> |audio.value| < MAX_LENGTH)
    }
  }

  // What the run does with an outcome of conn.recv() before the loop: only a JSON object is looked at, and a
  // timeout is an error.
  predicate Fails(reply: Outcome)
  {
    reply.TimedOut? || reply.Raised? || reply == Got(JsonEvent(NotAnObject))
  }

  function AfterReply(f: Facts, reply: Outcome): (r: Facts)
  {
    if reply.Got? && reply.event.JsonEvent? && reply.event.message.Object? then Mark(f, reply.event.message) else f
  }

  // What a run consumed: the outcomes of the reads for hello and listen replies, then those of the loop, if
  // it got there.
  datatype Run = Run(replies: seq<Outcome>, looped: bool, seen: seq<Seen>)

  function AfterReplies(replies: seq<Outcome>): (f: Facts)
    ensures NoAudioYet(f)
  {
    if replies == [] then BLANK else AfterReply(AfterReplies(replies[..|replies| - 1]), replies[|replies| - 1])
  }

  function Consumed(run: Run): (outcomes: seq<Outcome>)
  {
    run.replies + Outcomes(run.seen)
  }

  function Result(run: Run, abortMode: bool, start: real): (l: Loop)
  {
    Fold(AfterReplies(run.replies), run.seen, abortMode, start)
  }

  // The loop is reached exactly when neither reply fails; nothing is read after a reply that does.
  predicate Answered(run: Run)
  {
    match |run.replies|
    case 1 => Fails(run.replies[0]) && !run.looped && run.seen == []
    case 2 => !Fails(run.replies[0]) && run.looped == !Fails(run.replies[1]) && (!run.looped ==> run.seen == [])
    case _ => false
  }

  // A run is possible over a connection that would deliver `session`.
  ghost predicate Ran(run: Run, session: seq<Outcome>, script: seq<Tick>, abortMode: bool, start: real)
  {
    var seen := run.seen;
    && Answered(run) && Delivered(Consumed(run), session) && FollowsScript(seen, script)
    && ReadToTheEnd(AfterReplies(run.replies).ttsStop, seen, abortMode)
    && (run.looped ==> Result(run, abortMode, start).ended || |seen| == |script| || !script[|seen|].open)
  }

  // The frames a run has said: how far it went shows in them.
  function Spoken(run: Run, w: Script, aborted: bool): (frames: seq<Frame>)
  {
    [Frame(1, w.hello)]
    + (if |run.replies| == 2 then [Frame(1, w.listenStart)] else [])
    + (if run.looped && w.audio.Some? then [Frame(2, w.audio.value)] else [])
    + (if run.looped then [Frame(1, w.listenStop)] else [])
    + Aborts(aborted, w.abort)
  }

  method ReadReply(conn: StdlibWebSocket, report: Report) returns (ok: bool, ghost reply: Outcome)
    requires conn.Valid() && conn.sock != null
    modifies conn.sock, report`facts
    ensures conn.Valid()
    ensures ok == !Fails(reply) && report.facts == AfterReply(old(report.facts), reply)
    ensures Handed(old(Ahead(conn)), reply, Ahead(conn))
    ensures !reply.TimedOut? ==> conn.sock.incoming == Pump(old(conn.sock.incoming), conn.loads).rest
    ensures conn.sock.late == (old(conn.sock.late) || reply.TimedOut?)
    ensures Said(conn.SentFrames()) == Said(old(conn.SentFrames()))
  {
    hide Said, DecodeAll, PumpAll, Handed, Pump;
    var event := ReadEvent(conn);
    reply := event;
    if event.TimedOut? || event.Raised? {
      return false, reply;
    }
    if event.Got? && event.event.JsonEvent? {
      if event.event.message.NotAnObject? {
        return false, reply;
      }
      report.MarkJsonEvent(event.event.message);
    }
    return true, reply;
  }

  // Hello and listen start, each with its reply.
  method Open(conn: StdlibWebSocket, report: Report, w: Script, ghost script: seq<Tick>, ghost abortMode: bool, ghost start: real)
    returns (ok: bool, ghost run: Run)
    requires conn.Valid() && conn.sock != null && report.facts == BLANK && w.Fits()
    modifies conn.sock, report`facts
    ensures conn.Valid() && report.facts == AfterReplies(run.replies) && ok == run.looped && run.seen == []
    ensures conn.sock.late == (old(conn.sock.late) || EndsLate(run.replies))
    ensures Taken(old(conn.sock.incoming), conn.sock.incoming, conn.loads, run.replies)
    ensures ok ==> Answered(run) && !EndsLate(run.replies) && old(Ahead(conn)) == run.replies + Ahead(conn)
    ensures ok ==> Said(conn.SentFrames()) == Said(old(conn.SentFrames())) + [Frame(TEXT, w.hello)] + [Frame(TEXT, w.listenStart)]
    ensures !ok ==> Ran(run, old(Ahead(conn)), script, abortMode, start)
    ensures !ok ==> Result(run, abortMode, start) == Loop(report.facts, None, false, false)
    ensures !ok ==> Said(conn.SentFrames()) == Said(old(conn.SentFrames())) + Spoken(run, w, false)
  {
    hide Said, DecodeAll, Fold, Describes, ReadToTheEnd, PumpAll, Ahead, Handed, Ran, Result, Spoken, AfterReplies, AfterReply, EndsLate, Answered, Fails, Taken, Pump;
    ghost var session, said, before := Ahead(conn), Said(conn.SentFrames()), conn.sock.incoming;
    ghost var first, second;
    SendJson(conn, w.hello);
    ok, first := ReadReply(conn, report);
    ghost var session', here := Ahead(conn), conn.sock.incoming;
    RepliesTaken(before, here, here, conn.loads, first, first);
    FirstReply(first, session, session', script, abortMode, start, w, said);
    if !ok {
      return false, Run([first], false, []);
    }
    SendJson(conn, w.listenStart);
    ok, second := ReadReply(conn, report);
    RepliesTaken(before, here, conn.sock.incoming, conn.loads, first, second);
    SecondReply(first, second, session, session', Ahead(conn), script, abortMode, start, w, said);
    run := Run([first, second], ok, []);
  }

  // The body of the with statement; false is an exception that reached the caller.
  method Converse(conn: StdlibWebSocket, report: Report, abortMode: bool, w: Script, script: seq<Tick>, start: real)
    returns (ok: bool, ghost run: Run)
    requires conn.Valid() && conn.sock != null && report.facts == BLANK && w.Fits()
    modifies conn.sock, report`facts
    ensures conn.Valid()
    ensures Ran(run, old(Ahead(conn)), script, abortMode, start)
    ensures conn.sock.late == (old(conn.sock.late) || EndsLate(Consumed(run)))
    ensures Taken(old(conn.sock.incoming), conn.sock.incoming, conn.loads, Consumed(run))
    ensures var l := Result(run, abortMode, start);
            report.facts == l.facts && ok == (run.looped && !l.failed)
    ensures Said(conn.SentFrames()) == Said(old(conn.SentFrames())) + Spoken(run, w, report.facts.abortSent)
  {
    hide Said, DecodeAll, Fold, Describes, ReadToTheEnd, PumpAll, Ahead, Ran, Spoken, AfterReplies, FollowsScript, Delivered, Aborts, EndsLate, Answered, Taken;
    ghost var session, said, before := Ahead(conn), Said(conn.SentFrames()), conn.sock.incoming;
    ok, run := Open(conn, report, w, script, abortMode, start);
    if !ok {
      OnlyReplies(run);
      return;
    }
    ghost var session', here := Ahead(conn), conn.sock.incoming;
    if w.audio.Some? {
      SendBinary(conn, w.audio.value);
    }
    SendJson(conn, w.listenStop);
    ghost var seen;
    var failed;
    failed, seen := RunLoop(conn, report, abortMode, w.abort, script, start);
    ok, run := !failed, Run(run.replies, true, seen);
    WholeRun(run, session, session', script, abortMode, start);
    BothTaken(before, here, conn.sock.incoming, conn.loads, run.replies, Outcomes(seen));
    WholeSpoken(run, w, said, report.facts.abortSent);
  }

  function ExitCode(error: bool, facts: Facts, options: Options): (code: int)
  {
    if error then 1
    else if (options.expectAudio && facts.binaryFrames == 0) || (options.requireMetrics && !facts.metrics) then 2
    else 0
  }

  /** One run over a connected socket, whatever pieces the network hands out and whenever it times out: the
      report and the exit code are those of the outcomes consumed, which are what the stream delivers; no more
      has been taken from it; the run has said exactly the messages it got to, in order, and closes. */
  method RunHarness(conn: StdlibWebSocket, options: Options, w: Script, script: seq<Tick>, start: real)
    returns (code: int, report: Report, ghost run: Run)
    requires conn.Valid() && conn.sock != null && w.Fits()
    modifies conn, conn.sock
    ensures fresh(report) && conn.sock == null
    ensures Ran(run, old(Ahead(conn)), script, options.abortAfterFirstAudio, start)
    ensures old(conn.sock).late == (old(conn.sock.late) || EndsLate(Consumed(run)))
    ensures Taken(old(conn.sock.incoming), old(conn.sock).incoming, conn.loads, Consumed(run))
    ensures var l := Result(run, options.abortAfterFirstAudio, start);
            report.facts == l.facts && report.error == (!run.looped || l.failed)
    ensures code == ExitCode(report.error, report.facts, options)
    ensures DecodeAll(old(conn.sock).sent).residue == []
    ensures Said(DecodeAll(old(conn.sock).sent).frames) ==
              Said(old(conn.SentFrames())) + Spoken(run, w, report.facts.abortSent) + [Frame(CLOSE, [])]
  {
    hide Said, DecodeAll, Fold, Describes, PumpAll, Ran, Spoken, Result, Ahead, Taken;
    report := new Report();
    var ok;
    ok, run := Converse(conn, report, options.abortAfterFirstAudio, w, script, start);
    SaidOneMore(conn.SentFrames(), Frame(CLOSE, []));
    var closed := conn.SendFrame(CLOSE, []);
    conn.sock := null;
    if !ok {
      report.error := true;
      return 1, report, run;
    }
    code := 0;
    if options.expectAudio && report.facts.binaryFrames == 0 {
      report.failure := "expected_audio_not_observed";
      code := 2;
    }
    if options.requireMetrics && !report.facts.metrics {
      report.failure := "required_metrics_not_observed";
      code := 2;
    }
  }

  // ---- the steps of a conversation ----

  lemma OnlyReplies(run: Run)
    requires run.seen == []
    ensures Consumed(run) == run.replies
  {
  }

  lemma FirstReply(first: Outcome, session: seq<Outcome>, session': seq<Outcome>, script: seq<Tick>, abortMode: bool, start: real, w: Script, said: seq<Frame>)
    requires Handed(session, first, session')
    ensures AfterReplies([first]) == AfterReply(BLANK, first)
    ensures (EndsLate([first]) <==> first.TimedOut?) && (first.TimedOut? ==> Fails(first))
    ensures Fails(first) ==>
      var run := Run([first], false, []);
      && Ran(run, session, script, abortMode, start)
      && Result(run, abortMode, start) == Loop(AfterReply(BLANK, first), None, false, false)
      && said + [Frame(TEXT, w.hello)] == said + Spoken(run, w, false)
  {
    assert [first][..0] == [];
    assert Consumed(Run([first], false, [])) == [first];
  }

  lemma SecondReply(first: Outcome, second: Outcome, session: seq<Outcome>, session': seq<Outcome>, session'': seq<Outcome>,
                    script: seq<Tick>, abortMode: bool, start: real, w: Script, said: seq<Frame>)
    requires Handed(session, first, session') && Handed(session', second, session'') && !Fails(first)
    ensures AfterReplies([first, second]) == AfterReply(AfterReply(BLANK, first), second)
    ensures (EndsLate([first, second]) <==> second.TimedOut?) && (second.TimedOut? ==> Fails(second))
    ensures !Fails(second) ==> Answered(Run([first, second], true, [])) && session == [first, second] + session''
    ensures Fails(second) ==>
      var run := Run([first, second], false, []);
      && Ran(run, session, script, abortMode, start)
      && Result(run, abortMode, start) == Loop(AfterReplies([first, second]), None, false, false)
      && said + [Frame(TEXT, w.hello)] + [Frame(TEXT, w.listenStart)] == said + Spoken(run, w, false)
  {
    hide AfterReply, AfterReplies;
    AfterTwo(first, second);
    assert Consumed(Run([first, second], false, [])) == [first] + [second];
    OneMoreDelivered([first], second, session', session'');
  }

  lemma RepliesTaken(before: Bytes, here: Bytes, left: Bytes, loads: Loads, first: Outcome, second: Outcome)
    requires !first.TimedOut? ==> here == Pump(before, loads).rest
    ensures Taken(before, here, loads, [first])
    ensures !first.TimedOut? && (!second.TimedOut? ==> left == Pump(here, loads).rest) ==> Taken(before, left, loads, [first, second])
  {
    hide Pump;
    assert Rest(before, loads, 1) == Pump(Rest(before, loads, 0), loads).rest;
  }

  lemma BothTaken(before: Bytes, here: Bytes, left: Bytes, loads: Loads, a: seq<Outcome>, b: seq<Outcome>)
    requires Taken(before, here, loads, a) && !EndsLate(a)
    requires Taken(here, left, loads, b)
    ensures Taken(before, left, loads, a + b)
  {
    hide Rest, EndsLate;
    EndOfBoth(a, b);
    if !EndsLate(b) {
      RestOfRest(before, loads, |a|, |b|);
      assert left == Rest(before, loads, |a + b|);
    }
  }

  lemma EndOfBoth(a: seq<Outcome>, b: seq<Outcome>)
    ensures !EndsLate(a) ==> (EndsLate(a + b) <==> EndsLate(b))
  {
    if b == [] {
      assert a + b == a;
    }
  }

  lemma AfterTwo(first: Outcome, second: Outcome)
    ensures AfterReplies([first, second]) == AfterReply(AfterReply(BLANK, first), second)
  {
    hide AfterReply;
    var one, two := [first], [first, second];
    assert one[..0] == [] && two[..1] == one;
    assert AfterReplies(one) == AfterReply(BLANK, first);
  }

  lemma WholeRun(run: Run, session: seq<Outcome>, session': seq<Outcome>, script: seq<Tick>, abortMode: bool, start: real)
    requires Answered(run.(seen := [])) && run.looped && !EndsLate(run.replies) && session == run.replies + session'
    requires Delivered(Outcomes(run.seen), session') && FollowsScript(run.seen, script)
    requires ReadToTheEnd(AfterReplies(run.replies).ttsStop, run.seen, abortMode)
    requires Result(run, abortMode, start).ended || |run.seen| == |script| || !script[|run.seen|].open
    ensures Ran(run, session, script, abortMode, start)
    ensures |run.replies| == 2 && (EndsLate(Consumed(run)) <==> EndsLate(Outcomes(run.seen)))
  {
    hide Result, AfterReplies, ReadToTheEnd, FollowsScript;
    var all, seen, n := Consumed(run), Outcomes(run.seen), |run.seen|;
    if EndsLate(seen) {
      assert all[..|all| - 1] == run.replies + seen[..n - 1];
    } else if n == 0 {
      assert all == run.replies;
    }
  }

  lemma WholeSpoken(run: Run, w: Script, said: seq<Frame>, aborted: bool)
    requires |run.replies| == 2 && run.looped
    ensures said + Spoken(run, w, aborted) ==
      said + [Frame(TEXT, w.hello)] + [Frame(TEXT, w.listenStart)]
      + (if w.audio.Some? then [Frame(2, w.audio.value)] else []) + [Frame(TEXT, w.listenStop)] + Aborts(aborted, w.abort)
  {
  }

  // ---- what may be read off a finished run ----

  /** Every run's report, in terms of what it read in the loop; exit code 0 with audio expected means the
      first-audio time is reported, and an abort stop time is never reported without an abort and audio. */
  lemma ReportedRun(run: Run, session: seq<Outcome>, options: Options, script: seq<Tick>, start: real)
    requires Ran(run, session, script, options.abortAfterFirstAudio, start)
    ensures var l := Result(run, options.abortAfterFirstAudio, start);
            && Describes(AfterReplies(run.replies), l, run.seen, options.abortAfterFirstAudio, start)
            && (l.facts.firstAudioMs.Some? <==> l.facts.binaryFrames > 0)
            && (ExitCode(!run.looped || l.failed, l.facts, options) == 0 && options.expectAudio ==> l.facts.firstAudioMs.Some?)
            && (l.facts.abortStopMs.Some? ==> l.facts.abortSent && l.facts.ttsStop && l.ended)
  {
    hide AfterReplies, Fold, Delivered, FollowsScript, FirstAudio;
    LoopDescribed(AfterReplies(run.replies), run.seen, options.abortAfterFirstAudio, start);
    if run.seen != [] {
      assert run.seen[..|run.seen|] == run.seen;
    }
  }

  // ---- the report's flags and the exit code, by the messages consumed ----

  datatype Flag = HelloFlag | ListenFlag | MetricsFlag | StopFlag

  predicate IsOn(f: Facts, flag: Flag)
  {
    match flag
    case HelloFlag => f.helloAccepted
    case ListenFlag => f.listenAck
    case MetricsFlag => f.metrics
    case StopFlag => f.ttsStop
  }

  // A JSON object whose type field is this.
  predicate OfKind(o: Outcome, kind: string)
  {
    o.Got? && o.event.JsonEvent? && o.event.message.Object? && o.event.message.kind == kind
  }

  predicate TurnsOn(o: Outcome, flag: Flag)
  {
    match flag
    case HelloFlag => OfKind(o, "hello") && o.event.message.transport == "websocket"
    case ListenFlag => OfKind(o, "listen") && o.event.message.state == "start" && o.event.message.status == "accepted"
    case MetricsFlag => OfKind(o, "tts") && (o.event.message.ingressIsObject || o.event.message.pipelineIsObject)
    case StopFlag => OfKind(o, "tts") && o.event.message.state == "stop"
  }

  ghost predicate SomeTurnsOn(outcomes: seq<Outcome>, flag: Flag)
  {
    exists i :: 0 <= i < |outcomes| && TurnsOn(outcomes[i], flag)
  }

  lemma OneMoreTurn(outcomes: seq<Outcome>, o: Outcome, flag: Flag)
    ensures SomeTurnsOn(outcomes + [o], flag) <==> SomeTurnsOn(outcomes, flag) || TurnsOn(o, flag)
  {
    hide TurnsOn;
    var all := outcomes + [o];
    assert all[|outcomes|] == o;
    assert forall i :: 0 <= i < |outcomes| ==> all[i] == outcomes[i];
    if i :| 0 <= i < |outcomes| && TurnsOn(outcomes[i], flag) {
      assert TurnsOn(all[i], flag);
    }
  }

  lemma MarkTurns(f: Facts, m: Message, flag: Flag)
    requires m.Object?
    ensures IsOn(Mark(f, m), flag) <==> IsOn(f, flag) || TurnsOn(Got(JsonEvent(m)), flag)
  {
  }

  lemma HandleTurns(l: Loop, s: Seen, abortMode: bool, start: real, flag: Flag)
    ensures IsOn(Handle(l, s, abortMode, start).facts, flag) <==> IsOn(l.facts, flag) || TurnsOn(s.outcome, flag)
  {
    hide Mark, RoundMs;
    if s.outcome.Got? && s.outcome.event.JsonEvent? && s.outcome.event.message.Object? {
      MarkTurns(l.facts, s.outcome.event.message, flag);
    }
  }

  lemma {:induction false} RepliesTurn(replies: seq<Outcome>, flag: Flag)
    ensures IsOn(AfterReplies(replies), flag) <==> SomeTurnsOn(replies, flag)
  {
    hide Mark, TurnsOn;
    if replies != [] {
      var n := |replies| - 1;
      RepliesTurn(replies[..n], flag);
      assert replies == replies[..n] + [replies[n]];
      OneMoreTurn(replies[..n], replies[n], flag);
      ReplyTurns(AfterReplies(replies[..n]), replies[n], flag);
    }
  }

  lemma ReplyTurns(f: Facts, reply: Outcome, flag: Flag)
    ensures IsOn(AfterReply(f, reply), flag) <==> IsOn(f, flag) || TurnsOn(reply, flag)
  {
    hide Mark;
    if reply.Got? && reply.event.JsonEvent? && reply.event.message.Object? {
      MarkTurns(f, reply.event.message, flag);
    }
  }

  lemma {:induction false} FoldTurns(replies: seq<Outcome>, seen: seq<Seen>, abortMode: bool, start: real, flag: Flag)
    ensures IsOn(Fold(AfterReplies(replies), seen, abortMode, start).facts, flag) <==> SomeTurnsOn(replies + Outcomes(seen), flag)
  {
    hide Handle, TurnsOn, AfterReplies, IsOn, SomeTurnsOn;
    if seen == [] {
      RepliesTurn(replies, flag);
      assert replies + Outcomes(seen) == replies;
    } else {
      var n := |seen| - 1;
      FoldTurns(replies, seen[..n], abortMode, start, flag);
      HandleTurns(Fold(AfterReplies(replies), seen[..n], abortMode, start), seen[n], abortMode, start, flag);
      OneMoreTurn(replies + Outcomes(seen[..n]), seen[n].outcome, flag);
      assert replies + Outcomes(seen) == replies + Outcomes(seen[..n]) + [seen[n].outcome];
    }
  }

  /** What the report says of the server, for every run: each flag is set if and only if the run consumed, in a
      reply's place or in the loop, an object of the right type with the right fields. */
  lemma FlagsMean(run: Run, session: seq<Outcome>, script: seq<Tick>, abortMode: bool, start: real, flag: Flag)
    requires Ran(run, session, script, abortMode, start)
    ensures IsOn(Result(run, abortMode, start).facts, flag) <==> SomeTurnsOn(Consumed(run), flag)
  {
    FoldTurns(run.replies, run.seen, abortMode, start, flag);
  }

  // What raises in the loop: the connection, or a JSON value that is no object.
  predicate Broken(o: Outcome)
  {
    o.Raised? || o == Got(JsonEvent(NotAnObject))
  }

  lemma {:induction false} FailedMeans(facts: Facts, seen: seq<Seen>, abortMode: bool, start: real)
    requires NoAudioYet(facts) && ReadToTheEnd(facts.ttsStop, seen, abortMode)
    ensures Fold(facts, seen, abortMode, start).failed <==> seen != [] && Broken(seen[|seen| - 1].outcome)
  {
    if seen != [] {
      var n := |seen| - 1;
      var init := seen[..n];
      forall i | 0 <= i < |init|
        ensures !StopsAt(facts.ttsStop, init, i, abortMode)
      {
        StopsAtPrefix(facts.ttsStop, seen, n, i, abortMode);
      }
      FailedMeans(facts, init, abortMode, start);
      if init != [] {
        assert !StopsAt(facts.ttsStop, seen, n - 1, abortMode) && init[n - 1] == seen[n - 1];
      }
      hide Mark, RoundMs, StopsAt;
    }
  }

  /** The exit code of every run: 1 if a reply was late or broken, or the loop ended on a broken outcome;
      otherwise 2 if audio was expected and the loop read none, or metrics were required and no tts object with
      either block was consumed; otherwise 0. */
  lemma CodeMeans(run: Run, session: seq<Outcome>, options: Options, script: seq<Tick>, start: real)
    requires Ran(run, session, script, options.abortAfterFirstAudio, start)
    ensures var l := Result(run, options.abortAfterFirstAudio, start);
            var code := ExitCode(!run.looped || l.failed, l.facts, options);
            var seen, read := run.seen, Consumed(run);
            var error := (exists i :: 0 <= i < |run.replies| && (run.replies[i].TimedOut? || Broken(run.replies[i])))
              || (seen != [] && Broken(seen[|seen| - 1].outcome));
            var silent := forall i :: 0 <= i < |seen| ==> !(seen[i].outcome.Got? && seen[i].outcome.event.BinaryEvent?);
            var bare := forall i :: 0 <= i < |read| ==> !TurnsOn(read[i], MetricsFlag);
            code == if error then 1
              else if (options.expectAudio && silent) || (options.requireMetrics && bare) then 2 else 0
  {
    hide AfterReplies, Fold, TurnsOn, Delivered, FollowsScript, AudioCount, FirstAudio, Mark;
    FlagsMean(run, session, script, options.abortAfterFirstAudio, start, MetricsFlag);
    ReportedRun(run, session, options, script, start);
    FailedMeans(AfterReplies(run.replies), run.seen, options.abortAfterFirstAudio, start);
    SilentMeans(run.seen);
  }

  lemma {:induction false} SilentMeans(seen: seq<Seen>)
    ensures AudioCount(seen) == 0 <==> forall i :: 0 <= i < |seen| ==> !(seen[i].outcome.Got? && seen[i].outcome.event.BinaryEvent?)
  {
    if seen != [] {
      SilentMeans(seen[..|seen| - 1]);
      assert forall i :: 0 <= i < |seen| - 1 ==> seen[..|seen| - 1][i] == seen[i];
    }
  }

  predicate IsBinary(o: Outcome)
  {
    o.Got? && o.event.BinaryEvent?
  }

  function BinaryCount(outcomes: seq<Outcome>): (n: nat)
  {
    if outcomes == [] then 0
    else BinaryCount(outcomes[..|outcomes| - 1]) + if IsBinary(outcomes[|outcomes| - 1]) then 1 else 0
  }

  lemma {:induction false} CountsAdd(a: seq<Outcome>, seen: seq<Seen>)
    ensures BinaryCount(a + Outcomes(seen)) == BinaryCount(a) + AudioCount(seen)
  {
    if seen == [] {
      assert a + Outcomes(seen) == a;
    } else {
      var n := |seen| - 1;
      CountsAdd(a, seen[..n]);
      assert (a + Outcomes(seen))[..|a| + n] == a + Outcomes(seen[..n]);
    }
  }

  /** The report counts every binary frame the run consumed if and only if none was consumed in place of a
      reply, that is, if and only if none of the first two outcomes of the session is one. */
  lemma AllAudioCounted(run: Run, session: seq<Outcome>, script: seq<Tick>, abortMode: bool, start: real)
    requires Ran(run, session, script, abortMode, start)
    ensures Result(run, abortMode, start).facts.binaryFrames == BinaryCount(Consumed(run)) <==>
      forall i :: 0 <= i < |run.replies| ==> !IsBinary(run.replies[i])
    ensures run.looped ==> |session| >= 2 && run.replies == session[..2]
  {
    hide AfterReplies, Fold, FollowsScript, BinaryCount, ReadToTheEnd, IsBinary, Delivered;
    LoopDescribed(AfterReplies(run.replies), run.seen, abortMode, start);
    CountsAdd(run.replies, run.seen);
    CountOfTwo(run.replies);
    RepliesDelivered(run, session);
  }

  lemma CountOfTwo(replies: seq<Outcome>)
    requires |replies| <= 2
    ensures BinaryCount(replies) == 0 <==> forall i :: 0 <= i < |replies| ==> !IsBinary(replies[i])
  {
    hide IsBinary;
    if |replies| == 2 {
      assert replies[..1][..0] == [] && replies[..1][0] == replies[0];
    } else if |replies| == 1 {
      assert replies[..0] == [];
    }
  }

  lemma RepliesDelivered(run: Run, session: seq<Outcome>)
    requires Answered(run) && Delivered(Consumed(run), session)
    ensures run.looped ==> |session| >= 2 && run.replies == session[..2]
  {
    if run.looped {
      var all := Consumed(run);
      assert all[1] == run.replies[1];
      assert all[..2] == run.replies;
    }
  }

  // A server's whole stream: one audio frame, then two closes.
  function AudioThenCloses(mask: Bytes): (s: Bytes)
    requires |mask| == 4
  {
    EncodeAll([Frame(BINARY, [0]), Frame(CLOSE, []), Frame(CLOSE, [])], [mask, mask, mask])
  }

  const AUDIO_THEN_CLOSES: seq<Outcome> := [Got(BinaryEvent(1)), Got(CloseEvent), Got(CloseEvent), Raised(PeerClosed)]

  /** A server that sends audio at once and then closes: whatever the clock and the timeouts, every run that
      reaches the loop has consumed the frame and counted none, and fails for want of audio where it is expected,
      without an error. */
  lemma AudioLost(run: Run, mask: Bytes, loads: Loads, options: Options, script: seq<Tick>, start: real)
    requires |mask| == 4 && options.expectAudio && run.looped
    requires Ran(run, PumpAll(AudioThenCloses(mask), loads, true).outcomes, script, options.abortAfterFirstAudio, start)
    ensures var l := Result(run, options.abortAfterFirstAudio, start);
            BinaryCount(Consumed(run)) == 1 && l.facts.binaryFrames == 0 && !l.failed && ExitCode(l.failed, l.facts, options) == 2
  {
    hide PumpAll, AudioThenCloses, Fold, AfterReplies, BinaryCount, Delivered, FollowsScript;
    AudioThenClosesRead(mask, loads);
    RepliesDelivered(run, AUDIO_THEN_CLOSES);
    AtMostOneRead(run, options.abortAfterFirstAudio);
    LostFacts(run, options.abortAfterFirstAudio, start);
  }

  // The loop is over after the second close, or after a timeout in its place.
  lemma AtMostOneRead(run: Run, abortMode: bool)
    requires |run.replies| == 2 && Delivered(Consumed(run), AUDIO_THEN_CLOSES)
    requires ReadToTheEnd(AfterReplies(run.replies).ttsStop, run.seen, abortMode)
    ensures |run.seen| <= 1
    ensures run.seen != [] ==> run.seen[0].outcome == Got(CloseEvent) || run.seen[0].outcome.TimedOut?
  {
    hide AfterReplies;
    var all := Consumed(run);
    if run.seen != [] {
      assert all[2] == run.seen[0].outcome;
      assert run.seen[0].outcome == Got(CloseEvent) || (EndsLate(all) && |run.seen| == 1);
      assert StopsAt(AfterReplies(run.replies).ttsStop, run.seen, 0, abortMode);
    }
  }

  lemma LostFacts(run: Run, abortMode: bool, start: real)
    requires run.replies == AUDIO_THEN_CLOSES[..2] && |run.seen| <= 1
    requires run.seen != [] ==> run.seen[0].outcome == Got(CloseEvent) || run.seen[0].outcome.TimedOut?
    ensures BinaryCount(Consumed(run)) == 1
    ensures Result(run, abortMode, start).facts == BLANK && !Result(run, abortMode, start).failed
  {
    hide BinaryCount, AudioCount, Fold, AfterReplies;
    var audio, close := Got(BinaryEvent(1)), Got(CloseEvent);
    assert run.replies == [audio, close];
    AfterTwo(audio, close);
    CountsAdd([audio, close], run.seen);
    AudioThenCloseCount();
    ClosingRead(AfterReplies(run.replies), run.seen, abortMode, start);
  }

  lemma AudioThenCloseCount()
    ensures BinaryCount([Got(BinaryEvent(1)), Got(CloseEvent)]) == 1
  {
    var one, two := [Got(BinaryEvent(1))], [Got(BinaryEvent(1)), Got(CloseEvent)];
    assert two[..1] == one && one[..0] == [];
  }

  lemma ClosingRead(facts: Facts, seen: seq<Seen>, abortMode: bool, start: real)
    requires |seen| <= 1
    requires seen != [] ==> seen[0].outcome == Got(CloseEvent) || seen[0].outcome.TimedOut?
    ensures AudioCount(seen) == 0
    ensures Fold(facts, seen, abortMode, start).facts == facts && !Fold(facts, seen, abortMode, start).failed
  {
    hide RoundMs, Mark;
    if seen != [] {
      assert seen[..0] == [];
    }
  }

  /** Such runs happen with every clock, without any timeout. */
  lemma AudioIsLost(mask: Bytes, loads: Loads, script: seq<Tick>, abortMode: bool, start: real) returns (run: Run)
    requires |mask| == 4
    ensures run.looped && !EndsLate(Consumed(run))
    ensures Ran(run, PumpAll(AudioThenCloses(mask), loads, true).outcomes, script, abortMode, start)
  {
    hide PumpAll, AudioThenCloses, AfterReplies;
    AudioThenClosesRead(mask, loads);
    var replies := AUDIO_THEN_CLOSES[..2];
    if script == [] || !script[0].open {
      run := Run(replies, true, []);
      assert Consumed(run) == replies;
    } else {
      run := Run(replies, true, [Seen(Got(CloseEvent), script[0].at, script[0].later)]);
      assert Consumed(run) == AUDIO_THEN_CLOSES[..3];
      assert run.seen[..0] == [];
      assert Result(run, abortMode, start).ended;
    }
  }

  lemma AudioThenClosesRead(mask: Bytes, loads: Loads)
    requires |mask| == 4
    ensures PumpAll(AudioThenCloses(mask), loads, true).outcomes == AUDIO_THEN_CLOSES
  {
    hide PumpAll, Encode, Decode, DecodeAll;
    var s, frames := AudioThenCloses(mask), [Frame(BINARY, [0]), Frame(CLOSE, []), Frame(CLOSE, [])];
    StreamRoundTrip(frames, [mask, mask, mask], []);
    assert s + [] == s;
    PumpDeliversFrames(s, loads, true);
    NoneEnds(frames, loads);
    assert frames[..3] == frames;
    OneDelivered(frames, loads);
    OneDelivered(frames[1..], loads);
    OneDelivered(frames[2..], loads);
    assert DataOutcomes(frames[2..], loads) == [Got(CloseEvent)] + [];
  }

  lemma {:induction false} NoneEnds(frames: seq<Frame>, loads: Loads)
    requires forall i :: 0 <= i < |frames| ==> frames[i].opcode == BINARY || frames[i].opcode == CLOSE
    ensures FirstEnd(frames, loads, true) == |frames|
  {
    if frames != [] {
      NoneEnds(frames[1..], loads);
    }
  }

  lemma OneDelivered(frames: seq<Frame>, loads: Loads)
    requires frames != [] && !Silent(frames[0])
    ensures DataOutcomes(frames, loads) == [Returned(frames[0], loads)] + DataOutcomes(frames[1..], loads)
    ensures |frames| == 1 ==> DataOutcomes(frames[1..], loads) == []
  {
    hide Returned;
  }
}
