/** The streaming-ASR helper: one command per input line, at most one event per command.
    The recogniser library is the line's `heard` field: what it returns or raises for that line. */
module AsrHelper {
  import opened Wrappers

  // What the library call behind a command does: return text (empty when there is none) or raise str(exc).
  datatype Heard = Returns(text: string) | Raises(message: string)

  // The payload of an append after base64 decoding, by length in bytes.
  datatype Audio = NotBase64(message: string) | Pcm(bytes: nat)

  // An input line, its type field already stripped and lowered by the helper.
  datatype Line =
    | Malformed(message: string)
    | Start(heard: Heard)
    | Append(audio: Audio, heard: Heard)
    | Commit(heard: Heard)
    | Cancel
    | UnknownType

  datatype Event = Ready | Partial(text: string) | Final(text: string) | Error(code: string)

  datatype Session = NoSession | Fake(appends: nat) | Zipformer(lastPartial: string)

  const STABLE: set<string> := {
    "invalid_pcm", "model_dir_missing", "model_files_missing", "session_not_started",
    "sherpa_onnx_unavailable", "unsupported_streaming_family", "unknown_command" }

  const HELPER_FAILED := "sherpa_streaming_helper_failed"

  // The except clause; the empty message is not in the table either.
  function ErrorCode(message: string): (code: string)
    ensures code in STABLE || code == HELPER_FAILED
  {
    if message in STABLE then message else HELPER_FAILED
  }

  datatype Reply = Reply(events: seq<Event>, session: Session, exit: Option<int>)

  function Failed(session: Session, code: string): (r: Reply)
  {
    Reply([Error(code)], session, Some(1))
  }

  // pcm16le_to_float_samples raises before the recogniser sees anything.
  function AppendHeard(audio: Audio, heard: Heard): (h: Heard)
  {
    match audio
    case NotBase64(message) => Raises(message)
    case Pcm(bytes) => if bytes == 0 || bytes % 2 != 0 then Raises("invalid_pcm") else heard
  }

  // One command, in a helper process whose fake switch is set or not.
  function Handle(session: Session, line: Line, fake: bool): (r: Reply)
    ensures |r.events| <= 1
  {
    match line
    case Malformed(message) => Failed(session, ErrorCode(message))
    case Start(heard) =>
      if fake then Reply([Ready], Fake(0), None)
      else (match heard
            case Raises(message) => Failed(session, ErrorCode(message))
            case Returns(_) => Reply([Ready], Zipformer(""), None))
    case Append(audio, heard) =>
      (match session
       case NoSession => Failed(session, "session_not_started")
       case Fake(n) => Reply([Partial("partial")], Fake(n + 1), None)
       case Zipformer(last) =>
         match AppendHeard(audio, heard)
         case Raises(message) => Failed(session, ErrorCode(message))
         case Returns(text) =>
           if text != "" && text != last then Reply([Partial(text)], Zipformer(text), None)
           else Reply([], session, None))
    case Commit(heard) =>
      (match session
       case NoSession => Failed(session, "session_not_started")
       case Fake(_) => Reply([Final("final")], session, Some(0))
       case Zipformer(_) =>
         match heard
         case Raises(message) => Failed(session, ErrorCode(message))
         case Returns(text) => Reply([Final(text)], session, Some(0)))
    case Cancel => Reply([], session, Some(0))
    case UnknownType => Failed(session, "unknown_command")
  }

  // The helper after the first lines of its input; lines after an exit are not read.
  function After(lines: seq<Line>, fake: bool): (r: Reply)
  {
    if lines == [] then Reply([], NoSession, None)
    else
      var before := After(lines[..|lines| - 1], fake);
      if before.exit.Some? then before
      else
        var now := Handle(before.session, lines[|lines| - 1], fake);
        now.(events := before.events + now.events)
  }

  predicate Closing(e: Event)
  {
    e.Final? || e.Error?
  }

  // (ready partial*)* (final | error)?, where a final needs a ready before it.
  predicate WellShaped(events: seq<Event>)
  {
    && (forall i :: 0 <= i < |events| - 1 ==> !Closing(events[i]))
    && (events != [] ==> events[0].Ready? || events[0].Error?)
  }

  predicate PartialsDiffer(events: seq<Event>)
  {
    forall i :: 0 <= i < |events| - 1 && events[i].Partial? && events[i + 1].Partial? ==> events[i].text != events[i + 1].text
  }

  // What the session remembers is the last event emitted.
  predicate Remembers(r: Reply, fake: bool)
  {
    match r.session
    case NoSession => forall i :: 0 <= i < |r.events| ==> r.events[i].Error?
    case Fake(_) => fake && r.events != [] && r.events[0].Ready?
    case Zipformer(last) =>
      && !fake && r.events != [] && r.events[0].Ready?
      && (r.exit.None? ==> r.events[|r.events| - 1] == if last == "" then Ready else Partial(last))
  }

  // Everything OutputShape says about what has been printed so far.
  ghost predicate Shaped(r: Reply, fake: bool)
  {
    && WellShaped(r.events)
    && Remembers(r, fake)
    && (!fake ==> PartialsDiffer(r.events))
    && (r.exit.None? ==> forall i :: 0 <= i < |r.events| ==> !Closing(r.events[i]))
    && (r.exit == Some(1) <==> r.events != [] && r.events[|r.events| - 1].Error?)
    && (forall i :: 0 <= i < |r.events| && r.events[i].Error? ==>
          r.events[i].code in STABLE || r.events[i].code == HELPER_FAILED)
  }

  /** For every input, what the helper prints: nothing follows a final or an error, no partial or final
      comes before a ready, consecutive partials of a real session differ, and the exit code is 1 exactly
      when an error was printed last. */
  lemma {:induction false} OutputShape(lines: seq<Line>, fake: bool)
    ensures Shaped(After(lines, fake), fake)
  {
    hide Handle, Shaped;
    if lines == [] {
      NothingPrinted(fake);
    } else {
      OutputShape(lines[..|lines| - 1], fake);
      var before := After(lines[..|lines| - 1], fake);
      if before.exit.None? {
        OneMoreLine(before, lines[|lines| - 1], fake);
      }
    }
  }

  lemma NothingPrinted(fake: bool)
    ensures Shaped(Reply([], NoSession, None), fake)
  {
  }

  lemma OneMoreLine(before: Reply, line: Line, fake: bool)
    requires Shaped(before, fake) && before.exit.None?
    ensures var now := Handle(before.session, line, fake);
            Shaped(now.(events := before.events + now.events), fake)
  {
    hide ErrorCode;
    var now := Handle(before.session, line, fake);
    if now.events == [] {
      assert before.events + now.events == before.events;
    } else {
      var events := before.events + now.events;
      assert now.events == [now.events[0]] && events[|before.events|] == now.events[0];
      assert before.session.NoSession? ==> before.events == [] || Closing(before.events[0]);
      assert forall i :: 0 <= i < |events| - 1 ==> events[i] == before.events[i];
    }
  }

  // ---- the program ----

  class Helper {
    var session: Session
    var output: seq<Event>
    const fake: bool

    constructor (fake: bool)
      ensures session == NoSession && output == [] && this.fake == fake
    {
      session, output, this.fake := NoSession, [], fake;
    }

    method Emit(e: Event)
      modifies this`output
      ensures output == old(output) + [e]
    {
      output := output + [e];
    }

    method Append(audio: Audio, heard: Heard) returns (raised: Option<string>)
      requires !session.NoSession?
      modifies this
      ensures var r := Handle(old(session), Line.Append(audio, heard), fake);
              if raised.Some? then r == Failed(session, ErrorCode(raised.value)) && session == old(session) && output == old(output)
              else r == Reply(r.events, session, None) && output == old(output) + r.events
    {
      raised := None;
      if session.Fake? {
        session := Fake(session.appends + 1);
        Emit(Partial("partial"));
        return;
      }
      if audio.NotBase64? {
        return Some(audio.message);
      }
      if audio.bytes == 0 || audio.bytes % 2 != 0 {
        return Some("invalid_pcm");
      }
      if heard.Raises? {
        return Some(heard.message);
      }
      if heard.text != "" && heard.text != session.lastPartial {
        session := Zipformer(heard.text);
        Emit(Partial(heard.text));
      }
    }

    // One round of the loop: the try body and its except clause.
    method Execute(line: Line) returns (exit: Option<int>)
      modifies this
      ensures var r := Handle(old(session), line, fake);
              session == r.session && exit == r.exit && output == old(output) + r.events
    {
      hide ErrorCode;
      var raised: Option<string> := None;
      match line {
        case Malformed(message) =>
          raised := Some(message);
        case Start(heard) =>
          if fake {
            session := Fake(0);
            Emit(Ready);
          } else if heard.Raises? {
            raised := Some(heard.message);
          } else {
            session := Zipformer("");
            Emit(Ready);
          }
        case Append(audio, heard) =>
          if session.NoSession? {
            Emit(Error("session_not_started"));
            return Some(1);
          }
          raised := Append(audio, heard);
        case Commit(heard) =>
          if session.NoSession? {
            Emit(Error("session_not_started"));
            return Some(1);
          }
          if session.Zipformer? && heard.Raises? {
            raised := Some(heard.message);
          } else {
            Emit(Final(if session.Fake? then "final" else heard.text));
            return Some(0);
          }
        case Cancel =>
          return Some(0);
        case UnknownType =>
          Emit(Error("unknown_command"));
          return Some(1);
      }
      if raised.Some? {
        Emit(Error(ErrorCode(raised.value)));
        return Some(1);
      }
      return None;
    }

    /** The command loop: it prints what `After` prescribes, and returns the exit status. */
    method Run(lines: seq<Line>) returns (code: int)
      requires session == NoSession && output == []
      modifies this
      ensures var r := After(lines, fake);
              output == r.events && session == r.session && code == if r.exit.Some? then r.exit.value else 0
    {
      hide Handle;
      for i := 0 to |lines|
        invariant After(lines[..i], fake) == Reply(output, session, None)
      {
        assert lines[..i + 1][..i] == lines[..i];
        var exit := Execute(lines[i]);
        if exit.Some? {
          StopsHere(lines, i + 1, fake);
          return exit.value;
        }
      }
      assert lines[..|lines|] == lines;
      return 0;
    }
  }

  lemma {:induction false} StopsHere(lines: seq<Line>, n: nat, fake: bool)
    requires n <= |lines|
    ensures After(lines[..n], fake).exit.Some? ==> After(lines, fake) == After(lines[..n], fake)
  {
    if n < |lines| {
      var init := lines[..|lines| - 1];
      StopsHere(init, n, fake);
      assert init[..n] == lines[..n];
    } else {
      assert lines[..n] == lines;
    }
  }
}
