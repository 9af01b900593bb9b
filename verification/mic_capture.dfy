/** Capturing microphone evidence: how many frames are asked for, when a reply is enough, and what the
    evidence holds. */
module MicCapture {

  // A frame of the gateway's reply; `payload` is the decoded base64 text, if there is one.
  datatype Payload = Missing | NotBase64 | Bytes(data: seq<int>)

  datatype Frame = Frame(sampleRateHz: int, channels: int, durationMs: int, payload: Payload, rms: real)

  datatype Evidence = Evidence(frameCount: nat, audioBytes: nat, durationMs: int, rmsMax: real, pcm: seq<int>)

  datatype Error = UnsupportedFormat | NoPayload | BadPayload | WrongSize | NoEvidence | NoFrames | Incomplete | FetchFailed | Cancelled

  datatype Result<T> = Ok(value: T) | Err(error: Error)

  function FrameLimit(windowMs: int, minFrames: int): (limit: nat)
    ensures 64 <= limit <= 512
  {
    var windowMs := if windowMs <= 0 then 1200 else windowMs;
    var minFrames := if minFrames <= 0 then 1 else minFrames;
    var limit := windowMs / 20 + 16;
    var limit := if limit < minFrames * 4 then minFrames * 4 else limit;
    var limit := if limit < 64 then 64 else limit;
    if limit > 512 then 512 else limit
  }

  function MinimumDuration(windowMs: int, minFrames: int): (ms: int)
    ensures ms > 0
  {
    var windowMs := if windowMs <= 0 then 1200 else windowMs;
    var minFrames := if minFrames <= 0 then 1 else minFrames;
    var ms := minFrames * 20;
    var ms := if ms < 400 then 400 else ms;
    if ms > windowMs then windowMs else ms
  }

  // The window asked for, or 1200 ms.
  function Window(windowMs: int): (ms: int)
  {
    if windowMs <= 0 then 1200 else windowMs
  }

  // Audio that fills the window, or lasts at least 400 ms and the time of the frames demanded.
  predicate LongEnough(ms: int, windowMs: int, minFrames: int)
  {
    ms >= Window(windowMs) || (ms >= 400 && ms >= 20 * minFrames)
  }

  lemma DurationMeans(ms: int, windowMs: int, minFrames: int)
    ensures ms >= MinimumDuration(windowMs, minFrames) <==> LongEnough(ms, windowMs, minFrames)
  {
  }

  /** How many frames are asked for: never more than 512, and up to that 64, four times the demand or the window
      and sixteen more, whichever is most. */
  lemma LimitMeans(windowMs: int, minFrames: int, n: nat)
    ensures n <= FrameLimit(windowMs, minFrames) <==>
      n <= 512 && (n <= 64 || n <= 4 * minFrames || 20 * (n - 16) <= Window(windowMs))
  {
  }

  predicate Enough(e: Evidence, windowMs: int, minFrames: int)
  {
    e.frameCount >= minFrames && e.durationMs >= MinimumDuration(windowMs, minFrames)
  }

  /** Some number of 20 ms frames within the requested limit is enough if and only if at most 512 frames are
      demanded: a larger demand can never be met, whatever the device records. */
  lemma CaptureFeasible(windowMs: int, minFrames: int)
    ensures (exists n: nat :: n <= FrameLimit(windowMs, minFrames) && n >= minFrames && LongEnough(20 * n, windowMs, minFrames))
      <==> minFrames <= 512
  {
    if minFrames <= 512 {
      var n := FrameLimit(windowMs, minFrames);
      assert n >= minFrames && LongEnough(20 * n, windowMs, minFrames);
    }
  }

  // The audio of one frame, or why it cannot be used.
  function FrameAudio(f: Frame): (e: Result<seq<int>>)
    ensures e.Ok? <==> Usable(f)
    ensures e.Ok? ==> f.payload == Bytes(e.value) && |e.value| == 640 && f.durationMs == 20
  {
    if f.sampleRateHz != 16000 || f.channels != 1 || f.durationMs != 20 then Err(UnsupportedFormat)
    else match f.payload
         case Missing => Err(NoPayload)
         case NotBase64 => Err(BadPayload)
         case Bytes(data) => if |data| != 640 then Err(WrongSize) else Ok(data)
  }

  // Why a frame is refused: its format first, then what is wrong with its payload.
  lemma FrameRefused(f: Frame)
    ensures FrameAudio(f) == Err(UnsupportedFormat) <==> !(f.sampleRateHz == 16000 && f.channels == 1 && f.durationMs == 20)
    ensures FrameAudio(f) == Err(NoPayload) ==> f.payload == Missing
    ensures FrameAudio(f) == Err(BadPayload) ==> f.payload == NotBase64
  {
  }

  predicate Usable(f: Frame)
  {
    f.sampleRateHz == 16000 && f.channels == 1 && f.durationMs == 20 && f.payload.Bytes? && |f.payload.data| == 640
  }

  function Joined(frames: seq<Frame>): (pcm: seq<int>)
    requires forall i :: 0 <= i < |frames| ==> Usable(frames[i])
  {
    if frames == [] then []
    else
      assert Usable(frames[|frames| - 1]);
      Joined(frames[..|frames| - 1]) + frames[|frames| - 1].payload.data
  }

  predicate LoudestOf(frames: seq<Frame>, rms: real)
  {
    && rms >= 0.0
    && (forall i :: 0 <= i < |frames| ==> frames[i].rms <= rms)
    && (rms == 0.0 || exists i :: 0 <= i < |frames| && frames[i].rms == rms)
  }

  /** The reply turned into evidence: only when every frame is usable, and then 640 bytes and 20 ms for each,
      the audio in the order of the frames; otherwise the error of the first unusable frame. */
  method ToEvidence(frames: seq<Frame>) returns (r: Result<Evidence>)
    ensures r.Ok? <==> frames != [] && forall i :: 0 <= i < |frames| ==> Usable(frames[i])
    ensures r.Ok? ==>
      var e := r.value;
      && e.frameCount == |frames| && e.audioBytes == |e.pcm| == 640 * e.frameCount && e.durationMs == 20 * e.frameCount
      && e.pcm == Joined(frames) && LoudestOf(frames, e.rmsMax)
    ensures r.Err? && frames != [] ==>
      exists i :: 0 <= i < |frames| && FrameAudio(frames[i]) == Err(r.error) && forall j :: 0 <= j < i ==> Usable(frames[j])
    ensures frames == [] ==> r == Err(NoEvidence)
  {
    hide FrameAudio, LoudestOf, Usable;
    NothingLouder();
    var e := Evidence(0, 0, 0, 0.0, []);
    for i := 0 to |frames|
      invariant forall j :: 0 <= j < i ==> Usable(frames[j])
      invariant e.frameCount == i && e.audioBytes == |e.pcm| == 640 * i && e.durationMs == 20 * i
      invariant e.pcm == Joined(frames[..i]) && LoudestOf(frames[..i], e.rmsMax)
    {
      var f := frames[i];
      var data := FrameAudio(f);
      if data.Err? {
        return Err(data.error);
      }
      assert frames[..i + 1][..i] == frames[..i];
      ghost var before := e.rmsMax;
      e := Evidence(e.frameCount + 1, e.audioBytes + |data.value|, e.durationMs + f.durationMs,
                    if f.rms > e.rmsMax then f.rms else e.rmsMax, e.pcm + data.value);
      LouderWith(frames[..i], f, before);
      assert frames[..i + 1] == frames[..i] + [f];
    }
    assert frames[..|frames|] == frames;
    if e.frameCount == 0 {
      return Err(NoEvidence);
    }
    return Ok(e);
  }

  lemma NothingLouder()
    ensures LoudestOf([], 0.0)
  {
  }

  lemma LouderWith(frames: seq<Frame>, f: Frame, rms: real)
    requires LoudestOf(frames, rms)
    ensures LoudestOf(frames + [f], if f.rms > rms then f.rms else rms)
  {
    var all := frames + [f];
    assert all[|frames|] == f;
    if f.rms <= rms && rms != 0.0 {
      var i :| 0 <= i < |frames| && frames[i].rms == rms;
      assert all[i].rms == rms;
    }
  }

  // One round of polling: what the gateway answered, and how the select after it came out.
  datatype Wake = Tick | Deadline | ContextDone

  datatype Round = Round(reply: Result<seq<Frame>>, wake: Wake)

  // The verdict on one reply.
  predicate Accepts(frames: seq<Frame>, windowMs: int, minFrames: int)
  {
    && frames != [] && (forall i :: 0 <= i < |frames| ==> Usable(frames[i]))
    && |frames| >= minFrames && LongEnough(20 * |frames|, windowMs, minFrames)
  }

  predicate RoundAccepts(r: Round, windowMs: int, minFrames: int)
  {
    r.reply.Ok? && Accepts(r.reply.value, windowMs, minFrames)
  }

  /** The polling loop over any replies: it returns the evidence of the first reply that is enough, if the
      deadline or the caller has not ended it before; otherwise an error, after every earlier reply fell
      short. */
  method WaitForEvidence(rounds: seq<Round>, windowMs: int, minFrames: int) returns (r: Result<Evidence>, k: nat)
    requires rounds != [] && rounds[|rounds| - 1].wake != Tick
    ensures k < |rounds| && forall j :: 0 <= j < k ==> rounds[j].wake == Tick && !RoundAccepts(rounds[j], windowMs, minFrames)
    ensures r.Ok? <==> RoundAccepts(rounds[k], windowMs, minFrames)
    ensures r.Ok? ==>
      && Enough(r.value, windowMs, minFrames)
      && r.value.frameCount == |rounds[k].reply.value| && r.value.pcm == Joined(rounds[k].reply.value)
    ensures r.Err? ==> rounds[k].wake != Tick && (rounds[k].wake == ContextDone <==> r.error == Cancelled)
  {
    k := 0;
    var lastError := NoEvidence;
    while true
      invariant k < |rounds| && lastError != Cancelled
      invariant forall j :: 0 <= j < k ==> rounds[j].wake == Tick && !RoundAccepts(rounds[j], windowMs, minFrames)
      decreases |rounds| - k
    {
      var round := rounds[k];
      match round.reply {
        case Err(_) =>
          lastError := FetchFailed;
        case Ok(frames) =>
          if frames == [] {
            lastError := NoFrames;
          } else {
            var evidence := ToEvidence(frames);
            match evidence {
              case Err(error) =>
                lastError := error;
              case Ok(e) =>
                if Enough(e, windowMs, minFrames) {
                  return Ok(e), k;
                }
                lastError := Incomplete;
            }
          }
      }
      match round.wake {
        case ContextDone =>
          return Err(Cancelled), k;
        case Deadline =>
          return Err(lastError), k;
        case Tick =>
          k := k + 1;
      }
    }
  }

  /** With a gateway that keeps to the limit it was asked for, a demand for more than 512 frames is never
      met. */
  lemma HopelessCapture(round: Round, windowMs: int, minFrames: int)
    requires minFrames > 512
    requires round.reply.Ok? ==> |round.reply.value| <= FrameLimit(windowMs, minFrames)
    ensures !RoundAccepts(round, windowMs, minFrames)
  {
    CaptureFeasible(windowMs, minFrames);
  }
}
