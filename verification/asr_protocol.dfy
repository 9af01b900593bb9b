/** The smoke run: a parent that writes start, append and commit and reads events, and the helper process,
    joined by two bounded FIFO pipes. Either process may move at any time, the parent's context may expire
    at any time, and an expired context kills the helper. */
module AsrProtocol {
  import opened Wrappers
  import opened AsrHelper

  // What the recogniser will do in this run, and how many messages each pipe holds.
  datatype Config = Config(start: Heard, append: Heard, commit: Heard, capacity: nat)

  const FRAME := Pcm(16000 * 60 / 1000 * 2)

  function Commands(c: Config): (lines: seq<Line>)
    ensures |lines| == 3
  {
    [Start(c.start), Append(FRAME, c.append), Commit(c.commit)]
  }

  // ---- the parent's counters ----

  datatype Result = Result(frames: nat, ready: nat, partial: nat, final: nat, finalChars: nat, finding: string)

  const NO_RESULT := Result(0, 0, 0, 0, 0, "")

  const RUNTIME_FAILED := "helper_runtime_failed"
  const PROTOCOL_ERROR := "helper_protocol_error"
  const TIMEOUT := "helper_timeout"

  // The parent's own table of codes.
  const CODES: set<string> := {
    "invalid_pcm", "model_dir_missing", "model_files_missing", "session_not_started",
    "sherpa_onnx_unavailable", "unsupported_streaming_family", "unknown_command" }

  function Finding(code: string): (finding: string)
    ensures finding != ""
  {
    if code in CODES then code else RUNTIME_FAILED
  }

  function Apply(r: Result, e: Event): (r': Result)
  {
    match e
    case Ready => r.(ready := r.ready + 1)
    case Partial(_) => r.(partial := r.partial + 1)
    case Final(text) => r.(final := r.final + 1, finalChars := |text|)
    case Error(code) => r.(finding := Finding(code))
  }

  // ---- the joint state ----

  // Where the parent is. Check and Read are one turn of a reading loop: the context test and the blocking read.
  datatype Place = WriteStart | CheckReady | ReadReady | WriteAppend | WriteCommit | CheckFinal | ReadFinal | Wait | Done

  datatype Process = Alive | Exited(code: int) | Killed

  // `taken` counts the commands the helper has read, `pending` holds the event it is about to write, and
  // `received` is what the parent has read: the last is history only, no step depends on it.
  datatype State = State(
    place: Place, result: Result, expired: bool,
    stdin: seq<Line>, stdinOpen: bool, stdout: seq<Event>,
    helper: Process, session: Session, pending: seq<Event>, leaving: Option<int>,
    taken: nat, received: seq<Event>)

  const INITIAL := State(WriteStart, NO_RESULT, false, [], true, [], Alive, NoSession, [], None, 0, [])

  function Close(s: State, finding: string): (s': State)
  {
    s.(place := Wait, stdinOpen := false, result := s.result.(finding := finding))
  }

  function AfterEvent(s: State, e: Event): (s': State)
  {
    var r := Apply(s.result, e);
    var s' := s.(result := r, received := s.received + [e]);
    if r.finding != "" then Close(s', r.finding)
    else if s.place == ReadReady then s'.(place := if r.ready > 0 then WriteAppend else CheckReady)
    else if r.final > 0 then s'.(place := Wait) else s'.(place := CheckFinal)
  }

  // What cmd.Wait and the context add to the finding the parent had.
  function FinalFinding(s: State, finding: string): (f: string)
  {
    if finding != "" then finding
    else if s.helper != Exited(0) then RUNTIME_FAILED
    else if s.expired then TIMEOUT
    else ""
  }

  // The parent's next step, if it is not blocked. A write to a helper that is gone fails.
  function ParentStep(s: State, c: Config): (next: Option<State>)
  {
    match s.place
    case WriteStart =>
      if s.helper != Alive then Some(Close(s.(result := NO_RESULT), RUNTIME_FAILED))
      else if |s.stdin| < c.capacity then Some(s.(place := CheckReady, stdin := s.stdin + [Commands(c)[0]]))
      else None
    case CheckReady =>
      if s.expired then Some(Close(s, TIMEOUT)) else Some(s.(place := ReadReady))
    case ReadReady =>
      if s.stdout != [] then Some(AfterEvent(s.(stdout := s.stdout[1..]), s.stdout[0]))
      else if s.helper != Alive then Some(Close(s, PROTOCOL_ERROR))
      else None
    case WriteAppend =>
      if s.helper != Alive then Some(Close(s.(result := NO_RESULT.(ready := s.result.ready)), RUNTIME_FAILED))
      else if |s.stdin| < c.capacity then
        Some(s.(place := WriteCommit, stdin := s.stdin + [Commands(c)[1]], result := s.result.(frames := 1)))
      else None
    case WriteCommit =>
      if s.helper != Alive then Some(Close(s, RUNTIME_FAILED))
      else if |s.stdin| < c.capacity then
        Some(s.(place := CheckFinal, stdin := s.stdin + [Commands(c)[2]], stdinOpen := false))
      else None
    case CheckFinal =>
      if s.expired then Some(Close(s, TIMEOUT)) else Some(s.(place := ReadFinal))
    case ReadFinal =>
      if s.stdout != [] then Some(AfterEvent(s.(stdout := s.stdout[1..]), s.stdout[0]))
      else if s.helper != Alive then Some(Close(s, PROTOCOL_ERROR))
      else None
    case Wait =>
      if s.helper == Alive then None
      else
        Some(s.(place := Done, result := s.result.(finding := FinalFinding(s, s.result.finding))))
    case Done => None
  }

  // The helper's next step: write the pending event, leave, or read a command and work it out.
  function HelperStep(s: State, c: Config): (next: Option<State>)
  {
    if s.helper != Alive then None
    else if s.pending != [] then
      if |s.stdout| < c.capacity then Some(s.(stdout := s.stdout + s.pending, pending := [])) else None
    else if s.leaving.Some? then Some(s.(helper := Exited(s.leaving.value)))
    else if s.stdin != [] then
      var reply := Handle(s.session, s.stdin[0], false);
      Some(s.(stdin := s.stdin[1..], taken := s.taken + 1, session := reply.session,
              pending := reply.events, leaving := reply.exit))
    else if !s.stdinOpen then Some(s.(helper := Exited(0)))
    else None
  }

  datatype Move = Parent | Child | Expire | Kill

  function Step(s: State, m: Move, c: Config): (next: Option<State>)
  {
    match m
    case Parent => ParentStep(s, c)
    case Child => HelperStep(s, c)
    case Expire => if s.expired || s.place == Done then None else Some(s.(expired := true))
    case Kill => if s.expired && s.helper == Alive then Some(s.(helper := Killed)) else None
  }

  // Carrying out moves one after another; a move that is not possible ends the schedule.
  function Play(s: State, moves: seq<Move>, c: Config): (r: Option<State>)
  {
    if moves == [] then Some(s)
    else
      var before := Play(s, moves[..|moves| - 1], c);
      if before.None? then None else Step(before.value, moves[|moves| - 1], c)
  }

  ghost predicate Reachable(s: State, moves: seq<Move>, c: Config)
  {
    Play(INITIAL, moves, c) == Some(s)
  }

  // ---- every run ends ----

  function PlaceRank(p: Place): (n: nat)
  {
    match p
    case WriteStart => 9
    case CheckReady => 8
    case ReadReady => 7
    case WriteAppend => 6
    case WriteCommit => 5
    case CheckFinal => 4
    case ReadFinal => 3
    case Wait => 1
    case Done => 0
  }

  function Measure(s: State): (n: nat)
  {
    5 * (if s.taken < 3 then 3 - s.taken else 0) + 3 * |s.pending| + 2 * |s.stdout| + PlaceRank(s.place)
    + (if s.helper == Alive then 1 else 0) + (if s.expired then 0 else 1)
  }

  // ---- the invariant ----

  // The helper's reply to the first k commands of this run.
  function Told(c: Config, k: nat): (r: Reply)
    requires k <= 3
  {
    After(Commands(c)[..k], false)
  }

  function PartialOf(text: string): (events: seq<Event>)
    ensures |events| <= 1
  {
    if text == "" then [] else [Partial(text)]
  }

  lemma Replies(c: Config)
    ensures Told(c, 0) == Reply([], NoSession, None)
    ensures c.start.Raises? ==>
      Told(c, 1) == Told(c, 2) == Told(c, 3) == Reply([Error(ErrorCode(c.start.message))], NoSession, Some(1))
    ensures c.start.Returns? ==> Told(c, 1) == Reply([Ready], Zipformer(""), None)
    ensures c.start.Returns? && c.append.Raises? ==>
      Told(c, 2) == Told(c, 3) == Reply([Ready, Error(ErrorCode(c.append.message))], Zipformer(""), Some(1))
    ensures c.start.Returns? && c.append.Returns? ==>
      && Told(c, 2) == Reply([Ready] + PartialOf(c.append.text), Zipformer(c.append.text), None)
      && Told(c, 3) == (match c.commit
           case Raises(m) => Reply(Told(c, 2).events + [Error(ErrorCode(m))], Zipformer(c.append.text), Some(1))
           case Returns(t) => Reply(Told(c, 2).events + [Final(t)], Zipformer(c.append.text), Some(0)))
  {
    hide ErrorCode;
    var lines := Commands(c);
    assert lines[..0] == [];
    ToldStep(c, 0);
    ToldStep(c, 1);
    ToldStep(c, 2);
  }

  lemma ToldStep(c: Config, k: nat)
    requires k < 3
    ensures Told(c, k).exit.Some? ==> Told(c, k + 1) == Told(c, k)
    ensures Told(c, k).exit.None? ==>
      var now := Handle(Told(c, k).session, Commands(c)[k], false);
      Told(c, k + 1) == now.(events := Told(c, k).events + now.events)
  {
    hide Handle;
    assert Commands(c)[..k + 1][..k] == Commands(c)[..k];
  }

  // The counters after a list of events none of which is an error.
  function Counters(received: seq<Event>, frames: nat): (r: Result)
  {
    if received == [] then NO_RESULT.(frames := frames)
    else Apply(Counters(received[..|received| - 1], frames), received[|received| - 1])
  }

  ghost predicate HelperFollows(s: State, c: Config)
  {
    && s.taken + |s.stdin| <= 3
    && s.stdin == Commands(c)[s.taken..s.taken + |s.stdin|]
    && s.session == Told(c, s.taken).session && s.leaving == Told(c, s.taken).exit
    && s.received + s.stdout + s.pending == Told(c, s.taken).events
    && |s.pending| <= 1
    && (s.helper == Killed ==> s.expired)
    && (s.helper.Exited? ==>
          s.pending == [] && s.helper.code == (if s.leaving.Some? then s.leaving.value else 0)
          && (s.leaving.None? ==> !s.stdinOpen && s.stdin == []))
  }

  // How many commands have been written once the parent is at this place.
  function Written(p: Place): (n: nat)
    requires p != Wait && p != Done
  {
    match p
    case WriteStart => 0
    case CheckReady => 1
    case ReadReady => 1
    case WriteAppend => 1
    case WriteCommit => 2
    case CheckFinal => 3
    case ReadFinal => 3
  }

  // Whether the parent's last command went into the pipe, read by the helper or not.
  predicate CommitWritten(s: State)
  {
    s.taken + |s.stdin| == 3
  }

  ghost predicate NoneClosing(events: seq<Event>)
  {
    forall i :: 0 <= i < |events| ==> !Closing(events[i])
  }

  ghost predicate ParentFollows(s: State)
    requires s.place != Wait && s.place != Done
  {
    && s.taken + |s.stdin| == Written(s.place)
    && (s.stdinOpen <==> s.place != CheckFinal && s.place != ReadFinal)
    && NoneClosing(s.received)
    && (s.place == WriteStart || s.place == CheckReady || s.place == ReadReady ==> s.received == [])
    && (s.place == WriteAppend || s.place == WriteCommit ==> s.received == [Ready])
    && (s.place == CheckFinal || s.place == ReadFinal ==> s.received != [] && s.received[0] == Ready)
    && s.result == Counters(s.received, if Written(s.place) >= 2 then 1 else 0)
  }

  // Why the parent stopped talking, by the finding it had then.
  ghost predicate Stopped(s: State, c: Config, finding: string)
  {
    var n := |s.received|;
    || // everything was answered
       (finding == "" && n > 0 && s.received[n - 1].Final?
        && s.result.(finding := "") == Counters(s.received, 1))
    || // the helper reported an error
       (n > 0 && s.received[n - 1].Error? && finding == Finding(s.received[n - 1].code)
        && (n > 1 ==> CommitWritten(s))
        && s.result.(finding := "") == Counters(s.received[..n - 1], if n == 1 then 0 else 1))
    || // the helper left with an append error before the commit was written
       (finding == RUNTIME_FAILED && s.received == [Ready] && s.taken + |s.stdin| == 2
        && s.helper.Exited? && s.leaving.Some? && s.result.(finding := "") == Counters([Ready], 1))
    || // the context expired
       (s.expired && finding != "")
  }

  ghost predicate Invariant(s: State, c: Config)
  {
    && HelperFollows(s, c)
    && (s.place != Wait && s.place != Done ==> ParentFollows(s))
    && (s.place == Wait ==> !s.stdinOpen && Stopped(s, c, s.result.finding))
    && (s.place == Done ==> !s.stdinOpen && Finished(s, c))
  }

  ghost predicate Finished(s: State, c: Config)
  {
    && s.helper != Alive
    && exists f :: Stopped(s, c, f) && s.result.finding == FinalFinding(s, f)
  }

  lemma HelperKeepsItsSide(s: State, c: Config)
    requires HelperFollows(s, c) && HelperStep(s, c).Some?
    ensures HelperFollows(HelperStep(s, c).value, c)
    ensures var s' := HelperStep(s, c).value;
            s'.taken + |s'.stdin| == s.taken + |s.stdin|
  {
    hide Handle, Told, Commands;
    var s' := HelperStep(s, c).value;
    if s.pending != [] {
      assert s'.received + s'.stdout + s'.pending == s.received + (s.stdout + s.pending) + [];
      assert s.received + (s.stdout + s.pending) + [] == s.received + s.stdout + s.pending;
    } else if s.leaving.None? && s.stdin != [] {
      HelperReads(s, c);
    }
  }

  lemma HelperReads(s: State, c: Config)
    requires HelperFollows(s, c) && s.helper == Alive && s.pending == [] && s.leaving.None? && s.stdin != []
    ensures var s' := HelperStep(s, c).value;
            HelperFollows(s', c) && s'.taken + |s'.stdin| == s.taken + |s.stdin|
  {
    hide Handle, Told, Commands;
    var s' := HelperStep(s, c).value;
    var k := s.taken;
    ToldStep(c, k);
    assert s.stdin[0] == Commands(c)[k];
    assert s'.stdin == Commands(c)[k + 1..k + 1 + |s'.stdin|];
    assert s.received + s.stdout + [] == s.received + s.stdout;
  }

  lemma HelperKeeps(s: State, c: Config)
    requires Invariant(s, c) && HelperStep(s, c).Some?
    ensures Invariant(HelperStep(s, c).value, c)
  {
    hide HelperFollows, Counters, Finding, Handle;
    HelperKeepsItsSide(s, c);
    var s' := HelperStep(s, c).value;
    assert s' == s.(stdin := s'.stdin, taken := s'.taken, session := s'.session, pending := s'.pending,
                    leaving := s'.leaving, stdout := s'.stdout, helper := s'.helper);
  }

  // ---- the parent keeps the invariant, place by place ----

  // The helper leaves only after an event that closes the exchange, which the parent then reads last.
  lemma LeavingCloses(c: Config, k: nat)
    requires k <= 3
    ensures Told(c, k).exit.Some? ==> var e := Told(c, k).events; e != [] && Closing(e[|e| - 1])
    ensures Told(c, k).exit.None? ==> NoneClosing(Told(c, k).events) && k < 3
    ensures Told(c, k).events != [] ==> Told(c, k).events[0] == Ready || Told(c, k).events[0].Error?
    ensures |Told(c, k).events| <= k
  {
    hide ErrorCode, Told;
    Replies(c);
    assert k == 0 || k == 1 || k == 2 || k == 3;
  }

  lemma ExitedSaidAll(s: State, c: Config)
    requires HelperFollows(s, c) && s.helper.Exited?
    ensures s.received + s.stdout == Told(c, s.taken).events
    ensures s.stdout == [] ==> s.received == Told(c, s.taken).events
  {
    assert s.received + s.stdout + [] == s.received + s.stdout;
    assert s.stdout == [] ==> s.received + s.stdout == s.received;
  }

  lemma WriteKeeps(s: State, c: Config)
    requires Invariant(s, c) && ParentStep(s, c).Some?
    requires s.place == WriteStart || s.place == WriteAppend || s.place == WriteCommit
    requires s.helper == Alive
    ensures Invariant(ParentStep(s, c).value, c)
  {
    hide HelperFollows;
    WriteHelperSide(s, c);
    assert Counters([Ready], 1) == Counters([Ready], 0).(frames := 1);
  }

  lemma WriteHelperSide(s: State, c: Config)
    requires HelperFollows(s, c) && s.helper == Alive && ParentStep(s, c).Some?
    requires s.place == WriteStart || s.place == WriteAppend || s.place == WriteCommit
    requires s.taken + |s.stdin| == Written(s.place)
    ensures HelperFollows(ParentStep(s, c).value, c)
  {
    hide HelperFollows, Commands, ParentStep;
    WriteFields(s, c);
    var s' := ParentStep(s, c).value;
    assert s' == s.(place := s'.place, stdin := s'.stdin, stdinOpen := s'.stdinOpen, result := s'.result);
    OneMoreWritten(s, s', c);
  }

  lemma OneMoreWritten(s: State, s': State, c: Config)
    requires HelperFollows(s, c) && s.helper == Alive && s.taken + |s.stdin| < 3
    requires s' == s.(place := s'.place, stdin := s.stdin + [Commands(c)[s.taken + |s.stdin|]], stdinOpen := s'.stdinOpen, result := s'.result)
    ensures HelperFollows(s', c)
  {
    hide Told, Commands;
    var n := s.taken + |s.stdin|;
    var lines := Commands(c);
    assert lines[s.taken..n + 1] == lines[s.taken..n] + [lines[n]];
  }

  // What the helper's side does not depend on.
  lemma SameHelperSide(s: State, s': State, c: Config)
    requires HelperFollows(s, c)
    requires s' == s.(place := s'.place, stdinOpen := s'.stdinOpen, result := s'.result) && (s'.stdinOpen ==> s.stdinOpen)
    ensures HelperFollows(s', c)
  {
    hide Told, Commands;
  }

  lemma WriteFields(s: State, c: Config)
    requires s.helper == Alive && ParentStep(s, c).Some?
    requires s.place == WriteStart || s.place == WriteAppend || s.place == WriteCommit
    ensures var s' := ParentStep(s, c).value;
            && s' == s.(place := s'.place, stdin := s.stdin + [Commands(c)[Written(s.place)]], stdinOpen := s'.stdinOpen, result := s'.result)
            && (s'.stdinOpen ==> s.stdinOpen)
  {
    hide Commands;
  }

  lemma FailedWriteKeeps(s: State, c: Config)
    requires Invariant(s, c)
    requires s.place == WriteStart || s.place == WriteAppend || s.place == WriteCommit
    requires s.helper != Alive
    ensures Invariant(ParentStep(s, c).value, c)
  {
    hide HelperFollows, Commands, Counters;
    var s' := ParentStep(s, c).value;
    SameHelperSide(s, s', c);
    if s.helper.Exited? {
      GoneAtCommit(s, c);
      assert s'.result == s.result.(finding := RUNTIME_FAILED);
      assert Counters([Ready], 1) == s.result.(finding := "") by {
        CountersTold("", 1);
      }
      assert Stopped(s', c, RUNTIME_FAILED);
    } else {
      KilledLate(s, c);
    }
  }

  lemma KilledLate(s: State, c: Config)
    requires HelperFollows(s, c) && s.helper == Killed
    ensures s.expired
  {
    hide Told, Commands;
  }

  lemma GoneAtCommit(s: State, c: Config)
    requires s.place == WriteStart || s.place == WriteAppend || s.place == WriteCommit
    requires HelperFollows(s, c) && ParentFollows(s) && s.helper.Exited?
    ensures s.place == WriteCommit && s.leaving.Some?
  {
    hide Told, Commands, ErrorCode, Counters;
    LeavingCloses(c, s.taken);
    ExitedSaidAll(s, c);
  }

  lemma CheckKeeps(s: State, c: Config)
    requires Invariant(s, c)
    requires s.place == CheckReady || s.place == CheckFinal
    ensures Invariant(ParentStep(s, c).value, c)
  {
    hide Told, Commands, Counters;
  }

  lemma EndOfOutputKeeps(s: State, c: Config)
    requires Invariant(s, c)
    requires s.place == ReadReady || s.place == ReadFinal
    requires s.stdout == [] && s.helper != Alive
    ensures Invariant(ParentStep(s, c).value, c)
  {
    hide HelperFollows, Commands, Counters;
    GoneUnheard(s, c);
    SameHelperSide(s, ParentStep(s, c).value, c);
  }

  // A helper that left by itself has said the closing event, which is still to be read.
  lemma GoneUnheard(s: State, c: Config)
    requires s.place == ReadReady || s.place == ReadFinal
    requires HelperFollows(s, c) && ParentFollows(s) && s.stdout == [] && s.helper != Alive
    ensures s.expired
  {
    hide Told, Commands, Counters;
    LeavingCloses(c, s.taken);
    if s.helper.Exited? {
      ExitedSaidAll(s, c);
    }
  }

  lemma ReadKeeps(s: State, c: Config)
    requires Invariant(s, c)
    requires s.place == ReadReady || s.place == ReadFinal
    requires s.stdout != []
    ensures Invariant(ParentStep(s, c).value, c)
  {
    hide Told, HelperFollows, ParentStep, Stopped, ErrorCode, Finding, Counters;
    ReadHelperSide(s, c);
    if s.place == ReadReady {
      FirstIsReadyOrError(s, c);
      FirstEvent(s, c, s.stdout[0]);
    } else {
      NextEvent(s, c, s.stdout[0]);
    }
  }

  lemma FirstIsReadyOrError(s: State, c: Config)
    requires HelperFollows(s, c) && s.received == [] && s.stdout != []
    ensures s.stdout[0] == Ready || s.stdout[0].Error?
  {
    hide Told, ErrorCode;
    LeavingCloses(c, s.taken);
    assert (s.received + s.stdout + s.pending)[0] == s.stdout[0];
  }

  lemma CountOne(received: seq<Event>, e: Event, frames: nat)
    ensures Counters(received + [e], frames) == Apply(Counters(received, frames), e)
  {
    assert (received + [e])[..|received|] == received;
  }

  // Counting no errors leaves no finding; the other counters count their events.
  lemma {:induction false} CountersOf(received: seq<Event>, frames: nat)
    requires NoneClosing(received)
    ensures var r := Counters(received, frames);
            r.finding == "" && r.final == 0 && r.frames == frames && r.ready + r.partial == |received|
  {
    if received != [] {
      CountersOf(received[..|received| - 1], frames);
    }
  }

  lemma ReadHelperSide(s: State, c: Config)
    requires HelperFollows(s, c) && s.stdout != []
    requires s.place == ReadReady || s.place == ReadFinal
    ensures HelperFollows(ParentStep(s, c).value, c)
    ensures |s.received| < |Told(c, s.taken).events| && Told(c, s.taken).events[|s.received|] == s.stdout[0]
  {
    var s' := ParentStep(s, c).value;
    ReadFields(s, c);
    hide Told, Commands, ParentStep;
    var e := s.stdout[0];
    assert s.stdout == [e] + s.stdout[1..];
    assert s'.received + s'.stdout == s.received + s.stdout by {
      assert s.received + ([e] + s.stdout[1..]) == (s.received + [e]) + s.stdout[1..];
    }
    assert (s.received + s.stdout + s.pending)[|s.received|] == e;
  }

  lemma ReadFields(s: State, c: Config)
    requires s.stdout != [] && (s.place == ReadReady || s.place == ReadFinal)
    ensures var s' := ParentStep(s, c).value;
            && s'.stdin == s.stdin && s'.stdout == s.stdout[1..] && s'.received == s.received + [s.stdout[0]]
            && s'.helper == s.helper && s'.session == s.session && s'.pending == s.pending
            && s'.leaving == s.leaving && s'.taken == s.taken && s'.expired == s.expired
            && (s'.stdinOpen ==> s.stdinOpen)
            && PlaceRank(s'.place) <= PlaceRank(s.place) + 1
  {
  }

  lemma FirstEvent(s: State, c: Config, e: Event)
    requires s.place == ReadReady && ParentFollows(s) && s.stdout != [] && e == s.stdout[0]
    requires e == Ready || e.Error?
    ensures var s' := ParentStep(s, c).value;
            if e == Ready then s'.place == WriteAppend && ParentFollows(s')
            else s'.place == Wait && !s'.stdinOpen && Stopped(s', c, s'.result.finding)
  {
    CountOne([], e, 0);
    assert [] + [e] == [e];
    hide Finding, Counters;
    var s' := ParentStep(s, c).value;
    assert s'.received == [e] && [e][..0] == [];
    assert s'.result == Apply(NO_RESULT, e).(finding := s'.result.finding);
  }

  lemma NextEvent(s: State, c: Config, e: Event)
    requires s.place == ReadFinal && ParentFollows(s) && s.stdout != [] && e == s.stdout[0]
    ensures var s' := ParentStep(s, c).value;
            && !s'.stdinOpen
            && if Closing(e) then s'.place == Wait && Stopped(s', c, s'.result.finding)
               else s'.place == CheckFinal && ParentFollows(s')
  {
    hide Finding, Counters;
    CountersOf(s.received, 1);
    CountOne(s.received, e, 1);
    assert (s.received + [e])[..|s.received|] == s.received;
  }

  lemma WaitKeeps(s: State, c: Config)
    requires Invariant(s, c) && s.place == Wait && s.helper != Alive
    ensures Invariant(ParentStep(s, c).value, c)
  {
    hide Told, Commands, Counters;
    var s' := ParentStep(s, c).value;
    assert Stopped(s', c, s.result.finding);
  }

  lemma {:induction false} EveryStateKeeps(s: State, moves: seq<Move>, c: Config)
    requires Reachable(s, moves, c)
    ensures Invariant(s, c)
    decreases |moves|
  {
    if moves == [] {
      Replies(c);
      assert Counters([], 0) == NO_RESULT;
    } else {
      var before := Play(INITIAL, moves[..|moves| - 1], c).value;
      EveryStateKeeps(before, moves[..|moves| - 1], c);
      StepKeeps(before, moves[|moves| - 1], c);
    }
  }

  lemma StepKeeps(s: State, m: Move, c: Config)
    requires Invariant(s, c) && Step(s, m, c).Some?
    ensures Invariant(Step(s, m, c).value, c)
  {
    hide Invariant, ParentStep, HelperStep;
    match m {
      case Parent => ParentKeeps(s, c);
      case Child => HelperKeeps(s, c);
      case Expire => ExpireKeeps(s, c);
      case Kill => KillKeeps(s, c);
    }
  }

  lemma ParentKeeps(s: State, c: Config)
    requires Invariant(s, c) && ParentStep(s, c).Some?
    ensures Invariant(ParentStep(s, c).value, c)
  {
    hide Invariant;
    if s.place == WriteStart || s.place == WriteAppend || s.place == WriteCommit {
      if s.helper == Alive {
        WriteKeeps(s, c);
      } else {
        FailedWriteKeeps(s, c);
      }
    } else if s.place == CheckReady || s.place == CheckFinal {
      CheckKeeps(s, c);
    } else if s.place == Wait {
      WaitKeeps(s, c);
    } else if s.stdout != [] {
      ReadKeeps(s, c);
    } else {
      EndOfOutputKeeps(s, c);
    }
  }

  lemma ExpireKeeps(s: State, c: Config)
    requires Invariant(s, c) && s.place != Done
    ensures Invariant(s.(expired := true), c)
  {
    hide HelperFollows, ParentFollows, Stopped;
    LaterHelper(s, c);
    LaterParent(s, c);
  }

  lemma KillKeeps(s: State, c: Config)
    requires Invariant(s, c) && s.expired && s.helper == Alive
    ensures Invariant(s.(helper := Killed), c)
  {
    hide HelperFollows, ParentFollows, Stopped;
    LaterHelper(s, c);
    LaterParent(s, c);
  }

  // Expiry and the kill change nothing the helper's side speaks of.
  lemma LaterHelper(s: State, c: Config)
    requires HelperFollows(s, c)
    ensures HelperFollows(s.(expired := true), c)
    ensures s.expired && s.helper == Alive ==> HelperFollows(s.(helper := Killed), c)
  {
    hide Told, Commands;
  }

  lemma LaterParent(s: State, c: Config)
    ensures s.place != Wait && s.place != Done && ParentFollows(s) ==> ParentFollows(s.(expired := true)) && ParentFollows(s.(helper := Killed))
    ensures Stopped(s, c, s.result.finding) ==> Stopped(s.(expired := true), c, s.result.finding)
    ensures Stopped(s, c, s.result.finding) && s.helper == Alive ==> Stopped(s.(helper := Killed), c, s.result.finding)
  {
    hide Counters, Finding;
  }

  // ---- theorems about every run ----

  lemma ParentDescends(s: State, c: Config)
    requires ParentStep(s, c).Some?
    ensures Measure(ParentStep(s, c).value) < Measure(s)
  {
    if s.stdout != [] && (s.place == ReadReady || s.place == ReadFinal) {
      ReadFields(s, c);
      hide ParentStep, PlaceRank;
    } else {
      OtherFields(s, c);
      hide ParentStep, PlaceRank;
    }
  }

  lemma OtherFields(s: State, c: Config)
    requires ParentStep(s, c).Some?
    requires s.stdout == [] || (s.place != ReadReady && s.place != ReadFinal)
    ensures var s' := ParentStep(s, c).value;
            && s' == s.(place := s'.place, stdin := s'.stdin, stdinOpen := s'.stdinOpen, result := s'.result)
            && PlaceRank(s'.place) < PlaceRank(s.place)
  {
    hide Commands, AfterEvent, FinalFinding, Finding;
    match s.place {
      case WriteStart =>
      case CheckReady =>
      case ReadReady =>
      case WriteAppend =>
      case WriteCommit =>
      case CheckFinal =>
      case ReadFinal =>
      case Wait =>
      case Done =>
    }
  }

  lemma HelperDescends(s: State, c: Config)
    requires s.taken + |s.stdin| <= 3 && |s.pending| <= 1 && HelperStep(s, c).Some?
    ensures Measure(HelperStep(s, c).value) < Measure(s)
  {
    hide Handle;
  }

  lemma StepDescends(s: State, m: Move, c: Config)
    requires HelperFollows(s, c) && Step(s, m, c).Some?
    ensures Measure(Step(s, m, c).value) < Measure(s)
  {
    match m {
      case Parent => ParentDescends(s, c);
      case Child => HelperDescends(s, c);
      case Expire =>
      case Kill =>
    }
    hide HelperFollows, ParentStep, HelperStep;
  }

  /** Every run ends: whatever the interleaving and whenever the context expires, at most 26 moves are
      possible. */
  lemma {:induction false} RunsEnd(s: State, moves: seq<Move>, c: Config)
    requires Reachable(s, moves, c)
    ensures |moves| + Measure(s) <= 26
    decreases |moves|
  {
    hide Measure, Step;
    if moves == [] {
      assert Measure(INITIAL) == 26 by { Initially(); }
    } else {
      var before := Play(INITIAL, moves[..|moves| - 1], c).value;
      RunsEnd(before, moves[..|moves| - 1], c);
      EveryStateKeeps(before, moves[..|moves| - 1], c);
      StepDescends(before, moves[|moves| - 1], c);
    }
  }

  lemma Initially()
    ensures Measure(INITIAL) == 26
  {
  }

  /** No run gets stuck: until the parent is done, one of the two processes can move, or the context has
      expired and the helper can be killed. This needs pipes that hold at least one message. */
  lemma NoDeadlock(s: State, moves: seq<Move>, c: Config)
    requires Reachable(s, moves, c) && s.place != Done && c.capacity >= 1
    ensures Step(s, Parent, c).Some? || Step(s, Child, c).Some? || Step(s, Kill, c).Some?
    ensures !s.expired ==> Step(s, Parent, c).Some? || Step(s, Child, c).Some?
  {
    hide Reachable, Invariant, HelperStep, ParentStep;
    EveryStateKeeps(s, moves, c);
    if s.helper != Alive {
      ParentGoesOn(s, c);
    } else if HelperStep(s, c).None? && !s.expired {
      if s.place == Wait {
        ClosedIsLast(s, c);
      } else {
        TalkingIsPossible(s, c);
      }
    }
  }

  lemma ParentGoesOn(s: State, c: Config)
    requires s.helper != Alive && s.place != Done
    ensures ParentStep(s, c).Some?
  {
    hide Commands;
  }

  // While the parent waits for an unexpired helper, everything has been read: the helper can leave.
  lemma ClosedIsLast(s: State, c: Config)
    requires Invariant(s, c) && s.place == Wait && s.helper == Alive && !s.expired
    ensures HelperStep(s, c).Some?
  {
    OutputShape(Commands(c)[..s.taken], false);
    hide Handle, Told, Commands, Finding, Counters;
    var n := |s.received|;
    var events := s.received + s.stdout + s.pending;
    assert events[n - 1] == s.received[n - 1];
    assert WellShaped(events);
    assert |events| == n;
  }

  lemma TalkingIsPossible(s: State, c: Config)
    requires Invariant(s, c) && s.place != Wait && s.place != Done && c.capacity >= 1
    requires s.helper == Alive && HelperStep(s, c).None?
    ensures ParentStep(s, c).Some?
  {
    hide Handle, Commands, Finding, Counters, HelperStep;
    HelperStuck(s, c);
    if s.pending != [] {
      MuchSaid(s, c);
    } else {
      NothingToSay(s, c);
    }
  }

  // Why a living helper cannot move: its output is full, or it waits for a command.
  lemma HelperStuck(s: State, c: Config)
    requires s.helper == Alive && HelperStep(s, c).None?
    ensures if s.pending != [] then |s.stdout| >= c.capacity else s.leaving.None? && s.stdin == [] && s.stdinOpen
  {
    hide Handle;
  }

  // With an event waiting behind another, the parent is reading.
  lemma MuchSaid(s: State, c: Config)
    requires s.place != Wait && s.place != Done
    requires HelperFollows(s, c) && ParentFollows(s) && s.pending != [] && s.stdout != []
    ensures s.place != WriteStart && s.place != WriteAppend && s.place != WriteCommit
  {
    hide Told, Commands, Counters;
    LeavingCloses(c, s.taken);
    var events := s.received + s.stdout + s.pending;
    assert |events| == |s.received| + |s.stdout| + |s.pending|;
  }

  // While the helper waits for a command, the parent has nothing to wait for.
  lemma NothingToSay(s: State, c: Config)
    requires s.place != Wait && s.place != Done
    requires HelperFollows(s, c) && ParentFollows(s) && s.pending == [] && s.stdin == [] && s.stdinOpen
    ensures s.place == ReadReady ==> s.stdout != []
    ensures s.place != ReadFinal
  {
    hide Told, Commands, Counters;
    Replies(c);
    assert s.received + s.stdout + [] == s.received + s.stdout;
  }

  predicate NothingRaised(c: Config)
  {
    c.start.Returns? && c.append.Returns? && c.commit.Returns?
  }

  // The seven codes both sides agree on.
  predicate Agreed(code: string)
  {
    || code == "invalid_pcm" || code == "session_not_started" || code == "unknown_command"
    || code == "sherpa_onnx_unavailable" || code == "unsupported_streaming_family"
    || code == "model_dir_missing" || code == "model_files_missing"
  }

  // What should become of an exception message by way of both tables.
  function Arrives(message: string): (finding: string)
  {
    if Agreed(message) then message else "helper_runtime_failed"
  }

  lemma TablesAgree(message: string)
    ensures Finding(ErrorCode(message)) == Arrives(message)
  {
    hide STABLE, CODES, Agreed;
    BothTables(message);
    BothTables(HELPER_FAILED);
    NotAgreed();
  }

  lemma BothTables(code: string)
    ensures code in STABLE <==> Agreed(code)
    ensures code in CODES <==> Agreed(code)
  {
  }

  lemma NotAgreed()
    ensures !Agreed(HELPER_FAILED)
  {
  }

  /** The finding and the counters of a run whose context never expired, from what the recogniser did: a
      stable code from start or commit arrives unchanged; one from append arrives unchanged if the commit was
      written, and as a runtime failure if writing it failed; without a raise nothing is found. */
  predicate Outcome(c: Config, r: Result, committed: bool)
  {
    match c.start
    case Raises(m) => r == NO_RESULT.(finding := Arrives(m))
    case Returns(_) =>
      match c.append
      case Raises(m) => r == Result(1, 1, 0, 0, 0, if committed then Arrives(m) else RUNTIME_FAILED)
      case Returns(text) =>
        match c.commit
        case Raises(m) => r == Result(1, 1, |PartialOf(text)|, 0, 0, Arrives(m))
        case Returns(final) => r == Result(1, 1, |PartialOf(text)|, 1, |final|, "")
  }

  // When the last event read closes the exchange, all the helper said has been read.
  lemma ReadItAll(s: State, c: Config)
    requires HelperFollows(s, c)
    requires s.received != [] && Closing(s.received[|s.received| - 1])
    ensures s.received == Told(c, s.taken).events && Told(c, s.taken).exit.Some?
  {
    OutputShape(Commands(c)[..s.taken], false);
    hide Handle, Told, Commands;
    var events := s.received + s.stdout + s.pending;
    var n := |s.received|;
    assert events[n - 1] == s.received[n - 1];
    assert events == Told(c, s.taken).events;
    assert |events| == n;
    assert events == s.received;
  }

  // The counters of the three lists of events that can precede a closing one.
  lemma CountersTold(text: string, frames: nat)
    ensures Counters([], frames) == Result(frames, 0, 0, 0, 0, "")
    ensures Counters([Ready], frames) == Result(frames, 1, 0, 0, 0, "")
    ensures Counters([Ready] + PartialOf(text), frames) == Result(frames, 1, |PartialOf(text)|, 0, 0, "")
  {
    CountOne([], Ready, frames);
    assert [] + [Ready] == [Ready];
    if text == "" {
      assert [Ready] + PartialOf(text) == [Ready];
    } else {
      CountOne([Ready], Partial(text), frames);
    }
  }

  lemma AnsweredOutcome(s: State, c: Config)
    requires HelperFollows(s, c)
    requires s.received != [] && s.received[|s.received| - 1].Final?
    requires s.result.(finding := "") == Counters(s.received, 1)
    ensures c.start.Returns? && c.append.Returns? && c.commit.Returns?
    ensures s.helper.Exited? ==> s.helper == Exited(0)
    ensures s.result.(finding := "") == Result(1, 1, |PartialOf(c.append.text)|, 1, |c.commit.text|, "")
    ensures s.result.finding == "" ==> Outcome(c, s.result, CommitWritten(s))
  {
    ReadItAll(s, c);
    FinalTold(c, s.taken);
    hide HelperFollows, Told, Counters, Arrives;
    CountersTold(c.append.text, 1);
    CountOne([Ready] + PartialOf(c.append.text), Final(c.commit.text), 1);
  }

  lemma FinalTold(c: Config, k: nat)
    requires k <= 3
    requires var e := Told(c, k).events; e != [] && e[|e| - 1].Final?
    ensures NothingRaised(c) && Told(c, k).exit == Some(0)
    ensures Told(c, k).events == [Ready] + PartialOf(c.append.text) + [Final(c.commit.text)]
  {
    hide Told, ErrorCode;
    Replies(c);
    assert k == 0 || k == 1 || k == 2 || k == 3;
  }

  lemma ErrorOutcome(s: State, c: Config)
    requires HelperFollows(s, c)
    requires var n := |s.received|;
             && n > 0 && s.received[n - 1].Error?
             && s.result.finding == Finding(s.received[n - 1].code)
             && s.result.(finding := "") == Counters(s.received[..n - 1], if n == 1 then 0 else 1)
             && (n > 1 ==> CommitWritten(s))
    ensures Outcome(c, s.result, CommitWritten(s))
  {
    ReadItAll(s, c);
    ErrorTold(c, s.taken);
    hide HelperFollows, Told, ErrorCode, Counters, Finding, Arrives;
    var n := |s.received|;
    if c.start.Raises? {
      TablesAgree(c.start.message);
      CountersTold("", 0);
    } else if c.append.Raises? {
      TablesAgree(c.append.message);
      CountersTold("", 1);
    } else {
      TablesAgree(c.commit.message);
      CountersTold(c.append.text, 1);
    }
  }

  lemma ErrorTold(c: Config, k: nat)
    requires k <= 3
    requires var e := Told(c, k).events; e != [] && e[|e| - 1].Error?
    ensures !NothingRaised(c)
    ensures var e := Told(c, k).events;
            var n := |e| - 1;
            if c.start.Raises? then n == 0 && e[..n] == [] && e[n].code == ErrorCode(c.start.message)
            else if c.append.Raises? then n == 1 && e[..n] == [Ready] && e[n].code == ErrorCode(c.append.message)
            else n > 0 && e[..n] == [Ready] + PartialOf(c.append.text) && e[n].code == ErrorCode(c.commit.message)
  {
    hide Told, ErrorCode;
    Replies(c);
    assert k == 0 || k == 1 || k == 2 || k == 3;
  }

  // The helper left after one ready although only append had followed it: append raised.
  lemma GoneOutcome(s: State, c: Config)
    requires HelperFollows(s, c) && s.helper.Exited?
    requires s.received == [Ready] && s.taken + |s.stdin| == 2 && s.leaving.Some?
    requires s.result == Counters([Ready], 1).(finding := RUNTIME_FAILED)
    ensures Outcome(c, s.result, CommitWritten(s))
  {
    hide Told, ErrorCode, Counters, Finding;
    Replies(c);
    CountersTold("", 1);
    assert s.taken == 0 || s.taken == 1 || s.taken == 2;
    assert (s.received + s.stdout + s.pending)[0] == Ready;
  }

  lemma RunOutcome(s: State, moves: seq<Move>, c: Config)
    requires Reachable(s, moves, c) && s.place == Done && !s.expired
    ensures Outcome(c, s.result, CommitWritten(s))
  {
    hide Reachable, Finished, HelperFollows, Outcome;
    EveryStateKeeps(s, moves, c);
    DoneOutcome(s, c);
  }

  /** Of an append error, exactly: its code reaches the finding if and only if the commit was written, or the
      code stands for a runtime failure anyway. */
  lemma AppendErrorArrives(s: State, moves: seq<Move>, c: Config)
    requires Reachable(s, moves, c) && s.place == Done && !s.expired
    requires c.start.Returns? && c.append.Raises?
    ensures s.result.finding == Arrives(c.append.message) <==> CommitWritten(s) || Arrives(c.append.message) == RUNTIME_FAILED
  {
    hide Reachable, Arrives;
    RunOutcome(s, moves, c);
  }

  lemma DoneOutcome(s: State, c: Config)
    requires HelperFollows(s, c) && Finished(s, c) && !s.expired
    ensures Outcome(c, s.result, CommitWritten(s))
  {
    hide HelperFollows, Counters, ErrorCode, Finding, Outcome, CommitWritten, Told, Commands;
    var f :| Stopped(s, c, f) && s.result.finding == FinalFinding(s, f);
    var n := |s.received|;
    if s.helper == Killed {
      KilledLate(s, c);
    }
    if f == "" {
      AnsweredOutcome(s, c);
      assert s.result.finding == "";
    } else if n > 0 && s.received[n - 1].Error? {
      ErrorOutcome(s, c);
    } else {
      GoneOutcome(s, c);
    }
  }

  /** A code the recogniser raises on start or commit ends as the finding if it is one of the seven, and as a
      runtime failure if it is not. */
  lemma RaisedArrives(s: State, moves: seq<Move>, c: Config, message: string)
    requires Reachable(s, moves, c) && s.place == Done && !s.expired
    requires c.start == Raises(message) || (c.start.Returns? && c.append.Returns? && c.commit == Raises(message))
    ensures s.result.finding == if Agreed(message) then message else "helper_runtime_failed"
  {
    RunOutcome(s, moves, c);
    hide Reachable, Agreed;
  }

  // ---- the two ends an append error can have ----

  lemma PlayOne(moves: seq<Move>, s: State, m: Move, c: Config) returns (s': State)
    requires Reachable(s, moves, c) && Step(s, m, c).Some?
    ensures Reachable(s', moves + [m], c) && Step(s, m, c) == Some(s')
  {
    s' := Step(s, m, c).value;
    assert (moves + [m])[..|moves|] == moves;
  }

  lemma Beginning(c: Config)
    ensures Reachable(INITIAL, [], c)
  {
  }

  // Start is written, read and answered.
  lemma StartAnswered(c: Config) returns (s: State, moves: seq<Move>)
    requires c.start.Returns? && c.capacity >= 1
    ensures Reachable(s, moves, c)
    ensures s == INITIAL.(place := CheckReady, session := Zipformer(""), stdout := [Ready], taken := 1)
  {
    hide ErrorCode, Finding, Reachable, Play;
    Beginning(c);
    s := PlayOne([], INITIAL, Parent, c);
    s := PlayOne([] + [Parent], s, Child, c);
    s := PlayOne([] + [Parent] + [Child], s, Child, c);
    moves := [] + [Parent] + [Child] + [Child];
    assert s.stdout == [Ready] && s.stdin == [];
  }

  // The ready event is read.
  lemma ReadyRead(c: Config) returns (s: State, moves: seq<Move>)
    requires c.start.Returns? && c.capacity >= 1
    ensures Reachable(s, moves, c)
    ensures s == INITIAL.(place := WriteAppend, result := Result(0, 1, 0, 0, 0, ""), session := Zipformer(""), taken := 1, received := [Ready])
  {
    hide ErrorCode, Finding, Reachable, Play;
    var first;
    s, first := StartAnswered(c);
    s := PlayOne(first, s, Parent, c);
    s := PlayOne(first + [Parent], s, Parent, c);
    moves := first + [Parent] + [Parent];
    assert s.received == [Ready] && s.stdout == [];
  }

  // Append is written and read: the helper is about to report the error.
  lemma AppendTaken(c: Config) returns (s: State, moves: seq<Move>)
    requires c.start.Returns? && c.append.Raises? && c.capacity >= 1
    ensures Reachable(s, moves, c)
    ensures s == INITIAL.(place := WriteCommit, result := Result(1, 1, 0, 0, 0, ""), session := Zipformer(""),
                          pending := [Error(ErrorCode(c.append.message))], leaving := Some(1), taken := 2, received := [Ready])
  {
    hide ErrorCode, Finding, Reachable, Play;
    var first;
    s, first := ReadyRead(c);
    s := PlayOne(first, s, Parent, c);
    assert s.stdin == [Commands(c)[1]];
    s := PlayOne(first + [Parent], s, Child, c);
    moves := first + [Parent] + [Child];
    assert s.stdin == [];
  }

  /** Whatever the append error and the pipes, one run reports it and in another the commit write fails and
      the code is lost. */
  lemma BothAppendEndsOccur(c: Config) returns (late: seq<Move>, read: State, early: seq<Move>, cut: State)
    requires c.start.Returns? && c.append.Raises? && c.capacity >= 1
    ensures Reachable(read, late, c) && read.place == Done && !read.expired
    ensures CommitWritten(read) && read.result.finding == Arrives(c.append.message)
    ensures Reachable(cut, early, c) && cut.place == Done && !cut.expired
    ensures !CommitWritten(cut) && cut.result.finding == RUNTIME_FAILED
  {
    hide ErrorCode, Finding, Reachable, Play;
    TablesAgree(c.append.message);
    var s, moves := AppendTaken(c);
    read := PlayOne(moves, s, Parent, c);
    read := PlayOne(moves + [Parent], read, Child, c);
    late := moves + [Parent] + [Child];
    read := PlayOne(late, read, Parent, c);
    read := PlayOne(late + [Parent], read, Parent, c);
    assert read.place == Wait;
    read := PlayOne(late + [Parent] + [Parent], read, Child, c);
    read := PlayOne(late + [Parent] + [Parent] + [Child], read, Parent, c);
    late := late + [Parent] + [Parent] + [Child] + [Parent];
    cut := PlayOne(moves, s, Child, c);
    cut := PlayOne(moves + [Child], cut, Child, c);
    early := moves + [Child] + [Child];
    cut := PlayOne(early, cut, Parent, c);
    cut := PlayOne(early + [Parent], cut, Parent, c);
    early := early + [Parent] + [Parent];
  }

  // ---- the report ----

  // The checks made before the helper is started.
  datatype Preflight = Preflight(helperFound: bool, modelDirFound: bool, family: string, modelFilesFound: bool, fakeSwitch: bool)

  datatype Report = Report(status: string, findings: seq<string>)

  const BLOCKERS: set<string> := {
    "model_dir_missing", "model_files_missing", "sherpa_onnx_unavailable", "streaming_helper_missing", "unsupported_streaming_family" }

  function PreflightFinding(p: Preflight): (finding: string)
  {
    if !p.helperFound then "streaming_helper_missing"
    else if !p.modelDirFound then "model_dir_missing"
    else if p.family != "streaming_zipformer" then "unsupported_streaming_family"
    else if !p.modelFilesFound then "model_files_missing"
    else if p.fakeSwitch then "helper_fake_unit_not_real_model"
    else ""
  }

  function ReportOf(p: Preflight, r: Result): (report: Report)
  {
    var early := PreflightFinding(p);
    if early != "" then Report("blocked", [early])
    else if r.finding != "" then Report(if r.finding in BLOCKERS then "blocked" else "failed", [r.finding])
    else if r.final == 0 then Report("failed", ["helper_final_event_missing"])
    else Report("passed", [])
  }

  predicate Blocks(finding: string)
  {
    || finding == "streaming_helper_missing" || finding == "model_dir_missing" || finding == "model_files_missing"
    || finding == "sherpa_onnx_unavailable" || finding == "unsupported_streaming_family"
  }

  /** The report's status: blocked for a failed check and for the five findings that name a missing part, failed
      for every other finding and for a missing final, passed otherwise; its one finding is the check's or the
      run's. */
  lemma StatusMeans(p: Preflight, r: Result)
    ensures var report := ReportOf(p, r);
            && (report.status == "blocked" <==> !Clean(p) || Blocks(r.finding))
            && (report.status == "failed" <==> Clean(p) && !Blocks(r.finding) && (r.finding != "" || r.final == 0))
            && (report.status == "passed" <==> Clean(p) && r.finding == "" && r.final > 0)
            && (report.findings == [] <==> report.status == "passed")
    ensures Clean(p) && r.finding != "" ==> ReportOf(p, r).findings == [r.finding]
  {
  }

  // Helper and model are there, of the one family there is, and no switch fakes the recogniser.
  predicate Clean(p: Preflight)
  {
    p.helperFound && p.modelDirFound && p.family == "streaming_zipformer" && p.modelFilesFound && !p.fakeSwitch
  }

  /** The whole report of a finished, unexpired run after clean checks, by what the recogniser raised: each of the
      four codes that name a missing part blocks it, every other message fails it. */
  lemma ReportedMessage(s: State, moves: seq<Move>, c: Config, p: Preflight, message: string)
    requires Reachable(s, moves, c) && s.place == Done && !s.expired && Clean(p)
    requires || c.start == Raises(message)
             || (c.start.Returns? && c.append == Raises(message) && CommitWritten(s))
             || (c.start.Returns? && c.append.Returns? && c.commit == Raises(message))
    ensures ReportOf(p, s.result) ==
      if message == "sherpa_onnx_unavailable" || message == "unsupported_streaming_family"
         || message == "model_dir_missing" || message == "model_files_missing" then Report("blocked", [message])
      else if message == "invalid_pcm" || message == "session_not_started" || message == "unknown_command" then Report("failed", [message])
      else Report("failed", ["helper_runtime_failed"])
  {
    RunOutcome(s, moves, c);
    hide Reachable, CommitWritten;
    StatusMeans(p, s.result);
  }

  /** A report passes exactly when the checks did and nothing raised; it then counts one frame, one ready,
      one final and at most one partial. */
  lemma PassedMeans(s: State, moves: seq<Move>, c: Config, p: Preflight)
    requires Reachable(s, moves, c) && s.place == Done && !s.expired
    ensures ReportOf(p, s.result).status == "passed" <==> PreflightFinding(p) == "" && NothingRaised(c)
    ensures NothingRaised(c) ==>
      s.result.frames == s.result.ready == s.result.final == 1 && s.result.partial <= 1
  {
    hide Reachable, ErrorCode, Finding;
    RunOutcome(s, moves, c);
  }

  /** Even when the context expires and the helper is killed, a run without a finding is a run in which
      nothing raised and everything was counted: the missing-final check never fires. */
  lemma NoFindingNoDoubt(s: State, moves: seq<Move>, c: Config)
    requires Reachable(s, moves, c) && s.place == Done && s.result.finding == ""
    ensures NothingRaised(c) && Outcome(c, s.result, CommitWritten(s)) && s.result.final == 1
  {
    hide HelperFollows, Reachable, Counters, ErrorCode, Finding;
    EveryStateKeeps(s, moves, c);
    var f :| Stopped(s, c, f) && s.result.finding == FinalFinding(s, f);
    AnsweredOutcome(s, c);
  }
}
