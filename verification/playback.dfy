/** Paced playback: a list of 20 ms chunks goes to the device in full batches with a sleep after each. */
module Playback {

  // A chunk as read from the file, and as posted; audio data is the bytes under the base64 text.
  datatype PcmChunk = PcmChunk(sampleRateHz: int, channels: int, durationMs: int, data: seq<int>)

  datatype Posted = Posted(streamId: string, sampleRateHz: int, channels: int, durationMs: int, data: seq<int>)

  const CHUNK_MS := 20
  const BATCH := 8
  const PREROLL := 8
  const PREBUFFER := 1

  function ToPosted(stream: string, c: PcmChunk): (p: Posted)
  {
    Posted(stream, c.sampleRateHz, c.channels, c.durationMs, c.data)
  }

  function ToPostedAll(stream: string, chunks: seq<PcmChunk>): (r: seq<Posted>)
    ensures |r| == |chunks|
  {
    seq(|chunks|, i requires 0 <= i < |chunks| => ToPosted(stream, chunks[i]))
  }

  function SilenceBytes(sampleRateHz: int, durationMs: int): (n: nat)
  {
    if sampleRateHz <= 0 || durationMs <= 0 then 0 else sampleRateHz * durationMs * 2 / 1000
  }

  // The silent chunk that imitates the format of another.
  function SilenceLike(p: Posted): (s: Posted)
  {
    p.(data := seq(SilenceBytes(p.sampleRateHz, p.durationMs), _ => 0))
  }

  function BatchSize(offset: nat, total: nat): (n: nat)
    requires offset < total
  {
    if offset == 0 && total > BATCH then (if total < PREROLL then total else PREROLL)
    else if total - offset < BATCH then total - offset
    else BATCH
  }

  // The sleep after a batch, for any number of batches sent ahead; the program's is PREBUFFER.
  function Delay(offset: nat, next: nat, total: nat, transported: nat, prebuffer: int): (ms: nat)
  {
    if transported <= 0 then 0
    else if next < total && offset / BATCH < prebuffer - 1 then 0
    else transported * CHUNK_MS
  }

  // ---- what should reach the device ----

  function BatchCount(n: nat): (k: nat)
  {
    (n + BATCH - 1) / BATCH
  }

  // Batch i of the posted chunks, filled up with silence like its last chunk.
  function Batch(posted: seq<Posted>, i: nat): (b: seq<Posted>)
    requires i < BatchCount(|posted|)
    ensures |b| == BATCH
  {
    var from := BATCH * i;
    var to := if from + BATCH < |posted| then from + BATCH else |posted|;
    posted[from..to] + seq(BATCH - (to - from), _ => SilenceLike(posted[to - 1]))
  }

  function Batches(posted: seq<Posted>): (r: seq<seq<Posted>>)
    ensures |r| == BatchCount(|posted|)
    ensures forall i :: 0 <= i < |r| ==> r[i] == Batch(posted, i)
  {
    seq(BatchCount(|posted|), i requires 0 <= i < BatchCount(|posted|) => Batch(posted, i))
  }

  function Delays(n: nat, prebuffer: int): (r: seq<nat>)
    ensures |r| == BatchCount(n)
  {
    seq(BatchCount(n), i requires 0 <= i < BatchCount(n) =>
      if i + 1 < BatchCount(n) && i < prebuffer - 1 then 0 else BATCH * CHUNK_MS)
  }

  function Concat(batches: seq<seq<Posted>>): (r: seq<Posted>)
  {
    if batches == [] then [] else Concat(batches[..|batches| - 1]) + batches[|batches| - 1]
  }

  lemma {:induction false} ConcatFirst(posted: seq<Posted>, k: nat)
    requires k < BatchCount(|posted|) || BATCH * k == |posted|
    requires k <= BatchCount(|posted|)
    ensures Concat(Batches(posted)[..k]) == posted[..BATCH * k]
  {
    hide Batch;
    if k > 0 {
      ConcatFirst(posted, k - 1);
      assert Batches(posted)[..k][..k - 1] == Batches(posted)[..k - 1];
      FullBatch(posted, k - 1);
      TwoParts(posted, BATCH * (k - 1), BATCH * k);
    }
  }

  lemma FullBatch(posted: seq<Posted>, i: nat)
    requires BATCH * (i + 1) <= |posted|
    ensures i < BatchCount(|posted|) && Batch(posted, i) == posted[BATCH * i..BATCH * (i + 1)]
  {
    assert posted[BATCH * i..BATCH * (i + 1)] + [] == posted[BATCH * i..BATCH * (i + 1)];
  }

  lemma TwoParts(posted: seq<Posted>, a: nat, b: nat)
    requires a <= b <= |posted|
    ensures posted[..a] + posted[a..b] == posted[..b]
  {
  }

  /** Conservation: the batches in order are the chunks in order, followed by fewer than eight silent chunks
      in the format of the last one. So every batch but the last holds eight chunks of the file, and cutting
      the padding off gives the file back. */
  lemma Conservation(posted: seq<Posted>)
    ensures var n := |posted|;
            var padding := BATCH * BatchCount(n) - n;
            && 0 <= padding < BATCH
            && Concat(Batches(posted)) == posted + Padding(posted, padding)
            && Concat(Batches(posted))[..n] == posted
            && forall i :: 0 <= i < BatchCount(n) ==> |Batches(posted)[i]| == BATCH
  {
    var k := BatchCount(|posted|);
    if k == 0 {
      assert Batches(posted) == [];
      assert posted == [];
    } else {
      ConcatAll(posted);
      LastBatch(posted);
      hide Batches, Batch, Concat, Padding;
      var padding := Padding(posted, BATCH * k - |posted|);
      SplitAndPadded(posted, BATCH * (k - 1), padding);
    }
  }

  lemma SplitAndPadded(posted: seq<Posted>, at: nat, padding: seq<Posted>)
    requires at <= |posted|
    ensures posted[..at] + (posted[at..] + padding) == posted + padding
    ensures (posted + padding)[..|posted|] == posted
  {
  }

  function Padding(posted: seq<Posted>, n: nat): (r: seq<Posted>)
    requires n > 0 ==> posted != []
    ensures |r| == n
  {
    seq(n, _ requires n > 0 => SilenceLike(posted[|posted| - 1]))
  }

  lemma LastBatch(posted: seq<Posted>)
    requires posted != []
    ensures var k := BatchCount(|posted|);
            Batch(posted, k - 1) == posted[BATCH * (k - 1)..] + Padding(posted, BATCH * k - |posted|)
  {
  }

  lemma ConcatAll(posted: seq<Posted>)
    requires posted != []
    ensures var k := BatchCount(|posted|);
            Concat(Batches(posted)) == posted[..BATCH * (k - 1)] + Batch(posted, k - 1)
  {
    hide Batch;
    var k := BatchCount(|posted|);
    ConcatFirst(posted, k - 1);
    assert Batches(posted)[..|Batches(posted)| - 1] == Batches(posted)[..k - 1];
  }

  // ---- what is in a batch ----

  // A chunk of the file under the stream's name.
  predicate Carries(p: Posted, stream: string, c: PcmChunk)
  {
    && p.streamId == stream && p.data == c.data
    && p.sampleRateHz == c.sampleRateHz && p.channels == c.channels && p.durationMs == c.durationMs
  }

  // As long as that chunk and in its format, two zero bytes a sample.
  predicate Silent(p: Posted, stream: string, c: PcmChunk)
  {
    && p.streamId == stream
    && p.sampleRateHz == c.sampleRateHz && p.channels == c.channels && p.durationMs == c.durationMs
    && (forall i :: 0 <= i < |p.data| ==> p.data[i] == 0)
    && |p.data| == if c.sampleRateHz > 0 && c.durationMs > 0 then c.sampleRateHz * c.durationMs * 2 / 1000 else 0
  }

  // Batch k holds the chunks from 8k on, and silence like the last chunk after the end of the file.
  predicate PlaysBatch(batch: seq<Posted>, k: nat, stream: string, chunks: seq<PcmChunk>)
  {
    && |batch| == 8
    && forall j :: 0 <= j < 8 ==>
         if 8 * k + j < |chunks| then Carries(batch[j], stream, chunks[8 * k + j])
         else chunks != [] && Silent(batch[j], stream, chunks[|chunks| - 1])
  }

  predicate Plays(batches: seq<seq<Posted>>, stream: string, chunks: seq<PcmChunk>)
  {
    forall k :: 0 <= k < |batches| ==> PlaysBatch(batches[k], k, stream, chunks)
  }

  lemma BatchPlays(stream: string, chunks: seq<PcmChunk>, k: nat)
    requires k < BatchCount(|chunks|)
    ensures PlaysBatch(Batch(ToPostedAll(stream, chunks), k), k, stream, chunks)
  {
    hide SilenceLike, Silent;
    SilenceIs(stream, chunks[|chunks| - 1]);
  }

  lemma SilenceIs(stream: string, c: PcmChunk)
    ensures Silent(SilenceLike(ToPosted(stream, c)), stream, c)
  {
  }

  lemma BatchesPlay(stream: string, chunks: seq<PcmChunk>, batches: seq<seq<Posted>>)
    requires batches <= Batches(ToPostedAll(stream, chunks))
    ensures Plays(batches, stream, chunks)
  {
    hide Batch, PlaysBatch, ToPostedAll;
    forall k | 0 <= k < |batches|
      ensures PlaysBatch(batches[k], k, stream, chunks)
    {
      BatchPlays(stream, chunks, k);
    }
  }

  // Such batches, each with a sleep of 160 ms after it; the IDLE ends them.
  predicate ActsPlay(acts: seq<Act>, stream: string, chunks: seq<PcmChunk>)
  {
    forall i :: 0 <= i < |acts| ==> ActPlays(acts[i], i, stream, chunks)
  }

  predicate ActPlays(act: Act, i: nat, stream: string, chunks: seq<PcmChunk>)
  {
    match act
    case Post(batch) => i % 2 == 0 && PlaysBatch(batch, i / 2, stream, chunks)
    case Sleep(ms) => i % 2 == 1 && ms == 160
    case Idle => i == 2 * ((|chunks| + 7) / 8)
  }

  lemma {:induction false} ActsOf(stream: string, chunks: seq<PcmChunk>, k: nat)
    requires k <= BatchCount(|chunks|)
    ensures var acts := Acts(ToPostedAll(stream, chunks), PREBUFFER, k);
            |acts| == 2 * k && ActsPlay(acts, stream, chunks) && (k == BatchCount(|chunks|) ==> ActsPlay(acts + [Idle], stream, chunks))
  {
    hide Batch, PlaysBatch, ToPostedAll;
    if k > 0 {
      ActsOf(stream, chunks, k - 1);
      BatchPlays(stream, chunks, k - 1);
    }
  }

  predicate SentPlays(batches: seq<seq<Posted>>, sleeps: seq<nat>, stream: string, chunks: seq<PcmChunk>)
  {
    Plays(batches, stream, chunks) && forall i :: 0 <= i < |sleeps| ==> sleeps[i] == 160
  }

  lemma SentOf(stream: string, chunks: seq<PcmChunk>, sent: Sent)
    requires SentSoFar(ToPostedAll(stream, chunks), sent)
    ensures SentPlays(sent.batches, sent.sleeps, stream, chunks)
  {
    hide Batches, PlaysBatch, ToPostedAll;
    SentPrefix(ToPostedAll(stream, chunks), sent);
    BatchesPlay(stream, chunks, sent.batches);
  }

  // ---- the two loops ----

  method PadBatch(batch: seq<Posted>) returns (r: seq<Posted>)
    ensures batch == [] || |batch| >= BATCH ==> r == batch
    ensures 0 < |batch| < BATCH ==> r == batch + seq(BATCH - |batch|, _ => SilenceLike(batch[|batch| - 1]))
  {
    if |batch| == 0 || |batch| >= BATCH {
      return batch;
    }
    var silence := SilenceLike(batch[|batch| - 1]);
    r := batch;
    while |r| < BATCH
      invariant |batch| <= |r| <= BATCH
      invariant r == batch + seq(|r| - |batch|, _ => silence)
    {
      r := r + [silence];
    }
  }

  // What the network and the caller's context do around batch i.
  datatype Net = Delivered | PostFails | Cancelled

  datatype Sent = Sent(batches: seq<seq<Posted>>, sleeps: seq<nat>, ok: bool)

  // Where the loop stands before batch k.
  predicate AtBatch(total: nat, offset: nat, k: nat)
  {
    k <= BatchCount(total) && offset == if k == BatchCount(total) then total else BATCH * k
  }

  function Min(a: nat, b: nat): (m: nat)
  {
    if a < b then a else b
  }

  // From one batch to the next, whichever way the end is cut off.
  lemma BatchAt(posted: seq<Posted>, offset: nat, end: nat, k: nat)
    requires AtBatch(|posted|, offset, k) && offset < |posted|
    requires end == Min(offset + BatchSize(offset, |posted|), |posted|)
    ensures offset < end <= |posted| && end - offset <= BATCH && AtBatch(|posted|, end, k + 1)
    ensures Batch(posted, k) == posted[offset..end] + seq(BATCH - (end - offset), _ => SilenceLike(posted[offset..end][end - offset - 1]))
    ensures Delay(offset, end, |posted|, BATCH, PREBUFFER) == Delays(|posted|, PREBUFFER)[k]
  {
    assert posted[offset..end][end - offset - 1] == posted[end - 1];
  }

  // Padding what was cut out gives the batch.
  lemma Padded(posted: seq<Posted>, offset: nat, end: nat, k: nat, batch: seq<Posted>)
    requires AtBatch(|posted|, offset, k) && offset < |posted|
    requires end == Min(offset + BatchSize(offset, |posted|), |posted|)
    requires offset < end && |posted[offset..end]| <= BATCH
    requires |posted[offset..end]| == BATCH ==> batch == posted[offset..end]
    requires |posted[offset..end]| < BATCH ==>
      batch == posted[offset..end] + seq(BATCH - (end - offset), _ => SilenceLike(posted[offset..end][end - offset - 1]))
    ensures batch == Batch(posted, k)
  {
    hide Batch, BatchSize, Delays, Delay;
    BatchAt(posted, offset, end, k);
    if end - offset == BATCH {
      assert posted[offset..end] + [] == posted[offset..end];
    }
  }

  /** The companion turn's loop, which stops early when a post fails or the context is cancelled. What it
      has delivered then is a prefix of what the file asks for. */
  method Deliver(stream: string, chunks: seq<PcmChunk>, net: nat -> Net) returns (sent: Sent)
    ensures sent.ok <==> forall i :: 0 <= i < BatchCount(|chunks|) ==> net(i) == Delivered
    ensures sent.batches <= Batches(ToPostedAll(stream, chunks))
    ensures sent.sleeps <= Delays(|chunks|, PREBUFFER)
    ensures sent.ok ==>
      sent.batches == Batches(ToPostedAll(stream, chunks)) && sent.sleeps == Delays(|chunks|, PREBUFFER)
    ensures !sent.ok ==>
      var i := |sent.sleeps|;
      && i < BatchCount(|chunks|) && net(i) != Delivered && (forall j :: 0 <= j < i ==> net(j) == Delivered)
      && |sent.batches| == if net(i) == Cancelled then i + 1 else i
    ensures SentPlays(sent.batches, sent.sleeps, stream, chunks)
  {
    hide Batch, Batches, Delays, Delay, BatchSize, SilenceLike, SentSoFar, Plays, SentPlays;
    ghost var posted := ToPostedAll(stream, chunks);
    sent := Sent([], [], true);
    var offset := 0;
    SentPrefix(posted, sent);
    while offset < |chunks|
      invariant sent.ok && AtBatch(|chunks|, offset, |sent.batches|) && |sent.sleeps| == |sent.batches|
      invariant SentSoFar(posted, sent)
      invariant forall i :: 0 <= i < |sent.batches| ==> net(i) == Delivered
    {
      ghost var k := |sent.batches|;
      var end := Min(offset + BatchSize(offset, |chunks|), |chunks|);
      BatchAt(posted, offset, end, k);
      var cut := CutOut(stream, chunks, offset, end);
      var batch := PadBatch(cut);
      Padded(posted, offset, end, k, batch);
      var now := net(|sent.batches|);
      SentPrefix(posted, sent);
      SentOf(stream, chunks, sent);
      if now == PostFails {
        return sent.(ok := false);
      }
      SentMore(posted, sent);
      sent := sent.(batches := sent.batches + [batch]);
      SentPrefix(posted, sent);
      SentOf(stream, chunks, sent);
      if now == Cancelled {
        return sent.(ok := false);
      }
      sent := sent.(sleeps := sent.sleeps + [Delay(offset, end, |chunks|, |batch|, PREBUFFER)]);
      offset := end;
    }
    SentPrefix(posted, sent);
    SentOf(stream, chunks, sent);
  }

  ghost predicate SentSoFar(posted: seq<Posted>, sent: Sent)
  {
    && |sent.sleeps| <= |sent.batches| <= BatchCount(|posted|)
    && sent.batches == Batches(posted)[..|sent.batches|] && sent.sleeps == Delays(|posted|, PREBUFFER)[..|sent.sleeps|]
  }

  lemma SentPrefix(posted: seq<Posted>, sent: Sent)
    ensures sent.batches == [] && sent.sleeps == [] ==> SentSoFar(posted, sent)
    ensures SentSoFar(posted, sent) ==> sent.batches <= Batches(posted) && sent.sleeps <= Delays(|posted|, PREBUFFER)
    ensures SentSoFar(posted, sent) && |sent.batches| == BatchCount(|posted|) ==> sent.batches == Batches(posted)
    ensures SentSoFar(posted, sent) && |sent.sleeps| == BatchCount(|posted|) ==> sent.sleeps == Delays(|posted|, PREBUFFER)
  {
    hide Batch;
  }

  lemma SentMore(posted: seq<Posted>, sent: Sent)
    requires SentSoFar(posted, sent) && |sent.sleeps| == |sent.batches| < BatchCount(|posted|)
    ensures var k := |sent.batches|;
            var more := sent.(batches := sent.batches + [Batch(posted, k)]);
            && SentSoFar(posted, more)
            && SentSoFar(posted, more.(sleeps := sent.sleeps + [Delays(|posted|, PREBUFFER)[k]]))
  {
    hide Batch, Batches, Delays;
    OneMoreBatch(posted, |sent.batches|);
  }

  lemma OneMoreBatch(posted: seq<Posted>, k: nat)
    requires k < BatchCount(|posted|)
    ensures Batches(posted)[..k + 1] == Batches(posted)[..k] + [Batch(posted, k)]
    ensures var delays := Delays(|posted|, PREBUFFER);
            delays[..k + 1] == delays[..k] + [delays[k]]
  {
    hide Batch;
  }

  // The inner loop of either command.
  method CutOut(stream: string, chunks: seq<PcmChunk>, offset: nat, end: nat) returns (batch: seq<Posted>)
    requires offset <= end <= |chunks|
    ensures batch == ToPostedAll(stream, chunks)[offset..end]
  {
    batch := [];
    for i := offset to end
      invariant batch == ToPostedAll(stream, chunks)[offset..i]
    {
      batch := batch + [ToPosted(stream, chunks[i])];
    }
  }

  // What the speech command does to the device.
  datatype Act = Post(batch: seq<Posted>) | Sleep(ms: nat) | Idle

  // The first k batches, each with the sleep after it.
  function Acts(posted: seq<Posted>, prebuffer: int, k: nat): (r: seq<Act>)
    requires k <= BatchCount(|posted|)
  {
    if k == 0 then [] else Acts(posted, prebuffer, k - 1) + [Post(Batch(posted, k - 1)), Sleep(Delays(|posted|, prebuffer)[k - 1])]
  }

  ghost predicate FailsFirstAt(net: nat -> bool, i: nat)
  {
    !net(i) && forall j :: 0 <= j < i ==> net(j)
  }

  /** The speech command's loop, and the IDLE after it: the same batches and sleeps, up to the first post that
      fails; IDLE is posted after the last sleep. */
  method PlayFile(stream: string, chunks: seq<PcmChunk>, net: nat -> bool) returns (acts: seq<Act>, ok: bool)
    ensures ok <==> forall i :: 0 <= i <= BatchCount(|chunks|) ==> net(i)
    ensures ok ==> acts == Acts(ToPostedAll(stream, chunks), PREBUFFER, BatchCount(|chunks|)) + [Idle]
    ensures !ok ==> exists i: nat ::
      i <= BatchCount(|chunks|) && FailsFirstAt(net, i) && acts == Acts(ToPostedAll(stream, chunks), PREBUFFER, i)
    ensures ActsPlay(acts, stream, chunks)
  {
    hide Batch, Delays, Delay, BatchSize, SilenceLike, ActsPlay;
    ghost var posted := ToPostedAll(stream, chunks);
    acts, ok := [], false;
    var offset, batches := 0, 0;
    while offset < |chunks|
      invariant AtBatch(|chunks|, offset, batches)
      invariant acts == Acts(posted, PREBUFFER, batches)
      invariant forall i :: 0 <= i < batches ==> net(i)
      decreases |chunks| - offset
    {
      var batchChunks := BatchSize(offset, |chunks|);
      var end := offset + batchChunks;
      if end > |chunks| {
        end := |chunks|;
      }
      BatchAt(posted, offset, end, batches);
      var cut := CutOut(stream, chunks, offset, end);
      var batch := PadBatch(cut);
      Padded(posted, offset, end, batches, batch);
      ActsOf(stream, chunks, batches);
      if !net(batches) {
        assert FailsFirstAt(net, batches);
        return;
      }
      acts := acts + [Post(batch)];
      acts := acts + [Sleep(Delay(offset, end, |chunks|, |batch|, PREBUFFER))];
      OneMoreAct(posted, batches, batch, acts);
      batches := batches + 1;
      offset := end;
    }
    ActsOf(stream, chunks, batches);
    if !net(batches) {
      assert FailsFirstAt(net, batches);
      return;
    }
    acts, ok := acts + [Idle], true;
  }

  lemma OneMoreAct(posted: seq<Posted>, k: nat, batch: seq<Posted>, acts: seq<Act>)
    requires k < BatchCount(|posted|) && batch == Batch(posted, k)
    requires acts == Acts(posted, PREBUFFER, k) + [Post(batch)] + [Sleep(Delays(|posted|, PREBUFFER)[k])]
    ensures acts == Acts(posted, PREBUFFER, k + 1)
  {
    hide Batch, Delays;
    assert [Post(batch)] + [Sleep(Delays(|posted|, PREBUFFER)[k])] == [Post(batch), Sleep(Delays(|posted|, PREBUFFER)[k])];
  }

  // ---- pacing against the device ----

  function Sum(s: seq<nat>): (n: nat)
  {
    if s == [] then 0 else Sum(s[..|s| - 1]) + s[|s| - 1]
  }

  lemma {:induction false} SumOfDelays(n: nat, prebuffer: int, k: nat)
    requires k <= BatchCount(n) && prebuffer >= 1
    ensures var ahead := if prebuffer - 1 < k then prebuffer - 1 else k;
            k < BatchCount(n) ==> Sum(Delays(n, prebuffer)[..k]) == BATCH * CHUNK_MS * (k - ahead)
  {
    if 0 < k < BatchCount(n) {
      SumOfDelays(n, prebuffer, k - 1);
      assert Delays(n, prebuffer)[..k][..k - 1] == Delays(n, prebuffer)[..k - 1];
    }
  }

  // The sleep of a whole run.
  function TotalSleep(n: nat, prebuffer: int): (ms: nat)
  {
    Sum(Delays(n, prebuffer))
  }

  /** The loop sleeps for the whole padded playing time, and so returns no earlier than the audio ends,
      exactly when nothing is sent ahead (or there is only one batch): then 160 ms a batch. */
  lemma SleepCoversAudio(n: nat, prebuffer: int)
    requires prebuffer >= 1
    ensures TotalSleep(n, prebuffer) >= n * CHUNK_MS <==> prebuffer == 1 || BatchCount(n) <= 1
    ensures prebuffer == 1 || BatchCount(n) <= 1 ==> TotalSleep(n, prebuffer) == 160 * BatchCount(n)
  {
    var k := BatchCount(n);
    if k > 0 {
      SumOfDelays(n, prebuffer, k - 1);
      assert Delays(n, prebuffer)[..|Delays(n, prebuffer)| - 1] == Delays(n, prebuffer)[..k - 1];
    }
  }

  function Positive(x: int): (n: nat)
  {
    if x > 0 then x else 0
  }

  function Posts(acts: seq<Act>): (n: nat)
  {
    if acts == [] then 0 else Posts(acts[..|acts| - 1]) + if acts[|acts| - 1].Post? then 1 else 0
  }

  // Milliseconds of audio the device holds after these acts; it plays one millisecond per millisecond while it
  // has audio. `lag(i)` is what the network adds to the time between the arrivals of message i - 1 and i.
  function Held(acts: seq<Act>, lag: nat -> int): (ms: nat)
  {
    if acts == [] then 0
    else
      var before := Held(acts[..|acts| - 1], lag);
      match acts[|acts| - 1]
      case Post(batch) => before + |batch| * CHUNK_MS
      case Sleep(ms) => Positive(before - Positive(ms + lag(Posts(acts))))
      case Idle => before
  }

  // The same for the acts of a whole file, just after batch i has arrived.
  function Buffered(n: nat, prebuffer: int, lag: nat -> int, i: nat): (ms: nat)
    requires i < BatchCount(n)
  {
    if i == 0 then BATCH * CHUNK_MS
    else Positive(Buffered(n, prebuffer, lag, i - 1) - Positive(Delays(n, prebuffer)[i - 1] + lag(i))) + BATCH * CHUNK_MS
  }

  // What is still unplayed when the message after the last batch arrives: IDLE.
  function LeftAtIdle(n: nat, prebuffer: int, lag: nat -> int): (ms: nat)
    requires n > 0
  {
    var last := BatchCount(n) - 1;
    Positive(Buffered(n, prebuffer, lag, last) - Positive(Delays(n, prebuffer)[last] + lag(last + 1)))
  }

  lemma {:induction false} PostsOfActs(posted: seq<Posted>, prebuffer: int, k: nat)
    requires k <= BatchCount(|posted|)
    ensures Posts(Acts(posted, prebuffer, k)) == k
  {
    hide Batch, Delays;
    if k > 0 {
      PostsOfActs(posted, prebuffer, k - 1);
      TwoMore(Acts(posted, prebuffer, k - 1), Post(Batch(posted, k - 1)), Sleep(Delays(|posted|, prebuffer)[k - 1]), _ => 0);
    }
  }

  lemma TwoMore(acts: seq<Act>, post: Act, sleep: Act, lag: nat -> int)
    requires post.Post? && sleep.Sleep?
    ensures Posts(acts + [post, sleep]) == Posts(acts) + 1
    ensures Held(acts + [post], lag) == Held(acts, lag) + |post.batch| * CHUNK_MS
    ensures Held(acts + [post, sleep], lag) == Positive(Held(acts + [post], lag) - Positive(sleep.ms + lag(Posts(acts) + 1)))
  {
    var one, two := acts + [post], acts + [post, sleep];
    assert one[..|one| - 1] == acts && two[..|two| - 1] == one;
  }

  lemma NothingHeld(posted: seq<Posted>, prebuffer: int, lag: nat -> int)
    ensures Held([], lag) == 0 && Acts(posted, prebuffer, 0) == []
  {
  }

  lemma ActsStep(posted: seq<Posted>, prebuffer: int, k: nat)
    requires 0 < k <= BatchCount(|posted|)
    ensures Acts(posted, prebuffer, k)
         == Acts(posted, prebuffer, k - 1) + [Post(Batch(posted, k - 1)), Sleep(Delays(|posted|, prebuffer)[k - 1])]
    ensures Posts(Acts(posted, prebuffer, k - 1)) == k - 1
  {
    hide Batch, Delays;
    PostsOfActs(posted, prebuffer, k - 1);
  }

  lemma NextHeld(acts: seq<Act>, post: Act, sleep: Act, next: Act, lag: nat -> int)
    requires post.Post? && sleep.Sleep? && next.Post?
    ensures Held(acts + [post, sleep] + [next], lag) ==
      Positive(Held(acts + [post], lag) - Positive(sleep.ms + lag(Posts(acts) + 1))) + |next.batch| * CHUNK_MS
  {
    hide Held, Posts, Positive;
    TwoMore(acts, post, sleep, lag);
    TwoMore(acts + [post, sleep], next, sleep, lag);
  }

  lemma {:induction false} HeldAtPost(posted: seq<Posted>, prebuffer: int, lag: nat -> int, k: nat)
    requires k < BatchCount(|posted|)
    ensures Held(Acts(posted, prebuffer, k) + [Post(Batch(posted, k))], lag) == Buffered(|posted|, prebuffer, lag, k)
  {
    hide Held, Acts, Batch, Delays, Positive, Posts, BatchCount;
    if k == 0 {
      NothingHeld(posted, prebuffer, lag);
      TwoMore([], Post(Batch(posted, 0)), Sleep(0), lag);
    } else {
      HeldAtPost(posted, prebuffer, lag, k - 1);
      ActsStep(posted, prebuffer, k);
      NextHeld(Acts(posted, prebuffer, k - 1), Post(Batch(posted, k - 1)), Sleep(Delays(|posted|, prebuffer)[k - 1]),
               Post(Batch(posted, k)), lag);
    }
  }

  /** The device's side of the command's acts: LeftAtIdle is what it still holds when IDLE arrives. */
  lemma HeldAtIdle(posted: seq<Posted>, prebuffer: int, lag: nat -> int)
    requires posted != []
    ensures Held(Acts(posted, prebuffer, BatchCount(|posted|)) + [Idle], lag) == LeftAtIdle(|posted|, prebuffer, lag)
  {
    hide Batch, Delays, Positive, Posts;
    var k := BatchCount(|posted|) - 1;
    HeldAtPost(posted, prebuffer, lag, k);
    PostsOfActs(posted, prebuffer, k);
    TwoMore(Acts(posted, prebuffer, k), Post(Batch(posted, k)), Sleep(Delays(|posted|, prebuffer)[k]), lag);
    var acts := Acts(posted, prebuffer, k + 1);
    assert (acts + [Idle])[..|acts|] == acts;
  }

  // Message i spends up to `most` in transit, `jitter(i)`, and is sent no earlier than paced.
  ghost predicate Steady(lag: nat -> int, jitter: nat -> nat, most: nat)
  {
    forall i: nat :: jitter(i) <= most && (i > 0 ==> lag(i) >= jitter(i) - jitter(i - 1))
  }

  /** However late messages are sent, and however their times in transit differ up to `most`, the device never
      holds more than the batches sent ahead and what plays in that time. On time it holds exactly the batches
      sent ahead once they are out, and is never left without audio before the next one. */
  lemma {:induction false} BufferBound(n: nat, prebuffer: int, lag: nat -> int, jitter: nat -> nat, most: nat, i: nat)
    requires i < BatchCount(n) && prebuffer >= 1 && Steady(lag, jitter, most)
    ensures BATCH * CHUNK_MS <= Buffered(n, prebuffer, lag, i) <= BATCH * CHUNK_MS * prebuffer + most - jitter(i)
    ensures Buffered(n, prebuffer, lag, i) <= BATCH * CHUNK_MS * (i + 1)
    ensures (forall j :: lag(j) == 0) ==>
      Buffered(n, prebuffer, lag, i) == BATCH * CHUNK_MS * (if i + 1 < prebuffer then i + 1 else prebuffer)
  {
    assert jitter(i) <= most;
    if i > 0 {
      BufferBound(n, prebuffer, lag, jitter, most, i - 1);
      assert lag(i) >= jitter(i) - jitter(i - 1);
    }
  }

  // The batches sent ahead are held up in transit, and the next one is not.
  function HeldUp(prebuffer: int, most: nat, i: nat): (ms: nat)
  {
    if i < prebuffer then most else 0
  }

  function CatchingUp(prebuffer: int, most: nat, i: nat): (lag: int)
  {
    if i == 0 then 0 else HeldUp(prebuffer, most, i) - HeldUp(prebuffer, most, i - 1)
  }

  /** The bound is reached: for any time in transit up to a batch's own, some network fills the device that far. */
  lemma BoundReached(n: nat, prebuffer: int, most: nat) returns (lag: nat -> int, jitter: nat -> nat)
    requires prebuffer >= 1 && BatchCount(n) > prebuffer && most <= BATCH * CHUNK_MS
    ensures Steady(lag, jitter, most)
    ensures Buffered(n, prebuffer, lag, prebuffer) == BATCH * CHUNK_MS * prebuffer + most - jitter(prebuffer)
  {
    lag, jitter := (i: nat) => CatchingUp(prebuffer, most, i), (i: nat) => HeldUp(prebuffer, most, i);
    FilledAhead(n, prebuffer, lag, prebuffer - 1);
  }

  lemma {:induction false} FilledAhead(n: nat, prebuffer: int, lag: nat -> int, i: nat)
    requires i < prebuffer && i < BatchCount(n) && forall j :: 0 < j <= i ==> lag(j) == 0
    ensures Buffered(n, prebuffer, lag, i) == BATCH * CHUNK_MS * (i + 1)
  {
    if i > 0 {
      FilledAhead(n, prebuffer, lag, i - 1);
    }
  }

  /** IDLE cuts off at most what was sent ahead and what plays in the longest time in transit. */
  lemma IdleCutsLittle(n: nat, prebuffer: int, lag: nat -> int, jitter: nat -> nat, most: nat)
    requires n > 0 && prebuffer >= 1 && Steady(lag, jitter, most)
    ensures LeftAtIdle(n, prebuffer, lag) <= BATCH * CHUNK_MS * (prebuffer - 1) + most - jitter(BatchCount(n))
  {
    var last := BatchCount(n) - 1;
    BufferBound(n, prebuffer, lag, jitter, most, last);
    assert jitter(last + 1) <= most && lag(last + 1) >= jitter(last + 1) - jitter(last);
  }

  /** IDLE never cuts audio off, however late messages are sent, exactly when nothing is sent ahead or there is
      only one batch. */
  lemma IdleAfterAudio(n: nat, prebuffer: int)
    requires n > 0 && prebuffer >= 1
    ensures (forall lag: nat -> int :: (forall i :: lag(i) >= 0) ==> LeftAtIdle(n, prebuffer, lag) == 0)
      <==> prebuffer == 1 || BatchCount(n) == 1
  {
    hide LeftAtIdle;
    if prebuffer == 1 || BatchCount(n) == 1 {
      forall lag: nat -> int | forall i :: lag(i) >= 0
        ensures LeftAtIdle(n, prebuffer, lag) == 0
      {
        NothingLeft(n, prebuffer, lag);
      }
    } else {
      SomethingLeft(n, prebuffer, _ => 0);
    }
  }

  lemma NothingLeft(n: nat, prebuffer: int, lag: nat -> int)
    requires n > 0 && prebuffer >= 1 && (prebuffer == 1 || BatchCount(n) == 1) && forall i :: lag(i) >= 0
    ensures LeftAtIdle(n, prebuffer, lag) == 0
  {
    BufferBound(n, prebuffer, lag, _ => 0, 0, BatchCount(n) - 1);
    hide Buffered;
  }

  lemma SomethingLeft(n: nat, prebuffer: int, onTime: nat -> int)
    requires n > 0 && prebuffer > 1 && BatchCount(n) > 1 && forall i :: onTime(i) == 0
    ensures LeftAtIdle(n, prebuffer, onTime) > 0
  {
    BufferBound(n, prebuffer, onTime, _ => 0, 0, BatchCount(n) - 1);
    hide Buffered;
  }
}
