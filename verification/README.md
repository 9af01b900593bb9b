# A21 verification model

Dafny models of the self-contained cores of the A21 host tools, with proofs of what they promise over every
input, every run or every reachable state.

| file | what it models |
|---|---|
| `websocket_codec.dfy` | the frame printer and parser of the virtual Xiaozhi client (RFC 6455, sections 5.2 and 5.3), on single frames and on byte streams |
| `websocket_client.dfy` | the client object over a socket that delivers any pieces or times out, and its message pump (RFC 6455, sections 5.5.2 and 5.5.3) |
| `virtual_harness.dfy` | one harness run: handshake messages, timed event loop, abort, report, exit code |
| `nearest_rank.dfy` | nearest-rank percentiles, jitter, and the gate over repeated runs |
| `asr_helper.dfy`, `asr_protocol.dfy` | the Python helper of the streaming-ASR smoke, and the composition of the Go parent, the helper and two bounded pipes as one state machine |
| `playback.dfy` | the two paced playback loops, their batches, padding and sleeps |
| `mic_capture.dfy` | frame limits, evidence conversion and polling of the microphone capture |
| `pcm_quality.dfy` | the one-pass PCM statistics and the findings drawn from them |
| `wrappers.dfy` | the optional value the components share |
| `text.dfy` | trimming, splitting, joining and the order of strings, shared by the files below |
| `legacy_identity.dfy` | the scan of a path for a legacy project name |
| `gateway_env.dfy`, `gateway_defaults.dfy` | the environment overlay, which filters its argument in place, and the product-chain defaults |
| `evidence_bundle.dfy` | packaging provider reports into a bundle and importing a bundle into a directory |
| `device_recovery.dfy` | choosing one device record in the product recovery report |
| `agent_planner.dfy` | routing one agent request and what an external agent is told |

Methods follow the program's loops and field updates and are proved against specification functions; the
lemmas are about those functions, so they hold of the methods.

What the proofs show that the code does not say:

- A default is defeated by a blank first entry for its key. It is then appended again on every pass, unseen, so
  the environment grows by the number of such defaults (`GatewayDefaults.GrowsForever`,
  `GatewayDefaults.BlankEntryDefeats`, `GatewayDefaults.DefaultTakesEffect`).
- Where a blank entry hides the text-stream key and both cloud keys are set, both text defaults are appended
  (`GatewayDefaults.DefaultsAppend`).
- A file listed under a padded name is packaged with the bytes of another file, the one of the trimmed name
  (`EvidenceBundle.KeptExactly`, `EvidenceBundle.OwnBytesDropped`).
- Importing into a file that can be written but not read leaves a report that cannot be read back
  (`EvidenceBundle.WritesAll`, `EvidenceBundle.UnreadableStays`).
- A microphone demand for more than 512 frames can never be met, because the requested limit is capped there
  (`MicCapture.CaptureFeasible`).
- The playback loop would return, and post IDLE, before the audio has ended if the prebuffer constant were
  above one (`Playback.SleepCoversAudio`, `Playback.IdleAfterAudio`).
- An append error of the ASR helper reaches the finding exactly if the commit was written, and both cases occur
  (`AsrProtocol.AppendErrorArrives`, `AsrProtocol.BothAppendEndsOccur`).
- The preference between device records is always a strict partial order, but a strict weak one only among
  records with at most one age that is not positive; otherwise ties are not transitive and the order of the
  registry shows in the result (`DeviceRecovery.WeakOrderExactly`, `DeviceRecovery.OrderHiddenExactly`).
- P95 minus P50 can exceed the jitter, by the microsecond lost in rounding and by no more, unless shorter
  durations never lose more than longer ones (`NearestRank.SpreadWithinJitter`, `NearestRank.SpreadStaysExactly`).
- A binary frame that arrives in place of the hello or the listen reply is consumed and not counted, so a run
  that expects audio can fail although audio came (`VirtualHarness.AllAudioCounted`, `VirtualHarness.AudioLost`).

## Model

| member | source | states |
|---|---|---|
| WebSocketCodec.BigEndianInverse | tools/a21_virtual_xiaozhi.py:154-163 | a length packed big-endian into a field wide enough for it unpacks to itself |
| WebSocketCodec.FromBigEndianInverse | tools/a21_virtual_xiaozhi.py:172-177 | every length field is the packing of the length read from it |
| WebSocketCodec.HeaderBits | tools/a21_virtual_xiaozhi.py:154-180 | the bit operations on header bytes agree, on bit vectors, with the arithmetic used in the model |
| WebSocketCodec.XorBits | tools/a21_virtual_xiaozhi.py:164-184 | the exclusive or of the model, one bit at a time, is that of the bytes' bits |
| WebSocketCodec.MaskTwice | tools/a21_virtual_xiaozhi.py:164-184 | masking with the same key twice restores any payload |
| WebSocketCodec.DecodeEncode | tools/a21_virtual_xiaozhi.py:151-185 | a written frame followed by any bytes reads back as its payload and its opcode modulo 16, leaving those bytes; it is the same frame if and only if the opcode fits four bits |
| WebSocketCodec.DecodeExtends | tools/a21_virtual_xiaozhi.py:168-185 | a frame that can be read is read the same whatever bytes arrive behind it |
| WebSocketCodec.TruncatedFrame | tools/a21_virtual_xiaozhi.py:168-194 | every proper prefix of a written frame is reported as a closed connection, never as another frame |
| WebSocketCodec.ClientFramesAreCanonical | tools/a21_virtual_xiaozhi.py:151-166 | a byte string is a frame the client writes if and only if it reads as exactly one frame under the shortest masked header: the length field is minimal and the printer is onto such strings |
| WebSocketCodec.StreamRoundTrip | tools/a21_virtual_xiaozhi.py:151-194 | any list of sendable frames under any masks, concatenated and followed by an incomplete frame, reads back as that list in order, with the incomplete bytes left |
| WebSocketCodec.TruncatedStream | tools/a21_virtual_xiaozhi.py:168-194 | a stream cut at any byte yields exactly the frames that lie wholly before the cut |
| WebSocketCodec.DecodeAllAppend | tools/a21_virtual_xiaozhi.py:151-166 | writing one more frame behind a cleanly readable stream adds that frame at the end of what is read |
| WebSocketCodec.UnmaskedFrame | tools/a21_virtual_xiaozhi.py:168-185 | a frame as a server sends it: any first byte, a length byte below 126, or 126 and two bytes, or 127 and eight, most significant first, then the payload, reads back as the opcode and payload, leaving any tail |
| WebSocketCodec.MaskedFrame | tools/a21_virtual_xiaozhi.py:168-185 | the same with the mask bit set: four key bytes follow the length field and are applied to the payload |
| WebSocketCodec.EncodeSpelled | tools/a21_virtual_xiaozhi.py:151-166 | the bytes of a written frame one by one: which length field is taken at which size, its digits, the mask bit, key and masked payload |
| WebSocketCodec.UnmaskedStream | tools/a21_virtual_xiaozhi.py:168-194 | any list of such unmasked frames, whichever form each length takes, reads back in order in front of any tail |
| WebSocketCodec.UnmaskedTruncated | tools/a21_virtual_xiaozhi.py:168-194 | every proper prefix of an unmasked frame reads as a closed connection |
| WebSocketClient.Socket.Recv | tools/a21_virtual_xiaozhi.py:187-194 | the socket gives any non-empty front piece of what is coming, nothing at its end, or times out, keeps everything and remembers it |
| WebSocketClient.StdlibWebSocket.SendFrame | tools/a21_virtual_xiaozhi.py:151-166 | sending adds exactly this frame to the frames the peer reads; an unconnected client or an oversized payload sends nothing |
| WebSocketClient.StdlibWebSocket.RecvExact | tools/a21_virtual_xiaozhi.py:187-194 | reading a size consumes exactly that many front bytes, or reports a close only when fewer were left |
| WebSocketClient.StdlibWebSocket.RecvFrame | tools/a21_virtual_xiaozhi.py:168-185 | the pieces read one after another amount to decoding the whole stream, however it was cut |
| WebSocketClient.WireMeans | tools/a21_virtual_xiaozhi.py:133-149 | from the bytes of an unmasked frame to the result of one call: opcode 1 is parsed, 2 gives its length, 8 a close, 9 is answered with opcode 10 and the same payload and passed over, all others are passed over |
| WebSocketClient.PumpDeliversFrames | tools/a21_virtual_xiaozhi.py:133-149 | repeated reading returns exactly the text and binary frames up to the first close, or text that is not UTF-8, in order, and sends exactly one pong for each ping before it, same payload, same order; the same for a reader that goes on past a close |
| WebSocketClient.RestDelivers | tools/a21_virtual_xiaozhi.py:133-149 | the bytes left after any number of calls that returned an event deliver exactly what had not been delivered |
| WebSocketClient.StdlibWebSocket.Recv | tools/a21_virtual_xiaozhi.py:133-149 | one call terminates, never returns nothing, and unless the network times out its result, its pongs and the bytes left are settled by the stream alone |
| VirtualHarness.Report.MarkJsonEvent | tools/a21_virtual_xiaozhi.py:392-404 | the report's flags after a JSON object |
| VirtualHarness.LoopDescribed | tools/a21_virtual_xiaozhi.py:547-575 | over every event run: the binary count, first-audio time if and only if there was audio, one abort if and only if abort mode and audio, abort stop time exactly at the first JSON object after audio by which a stop was heard, and the event at which reading ends |
| VirtualHarness.HandleEvent | tools/a21_virtual_xiaozhi.py:558-575 | one event's effect on report and connection; the abort message, with its payload, goes out exactly when the abort flag is newly set, and nothing else but pongs does |
| VirtualHarness.RunLoop | tools/a21_virtual_xiaozhi.py:547-575 | the loop consumes what the stream delivers up to a timeout, and unless a read timed out the bytes left are those behind the last event: nothing more is read after the one that ends it; it keeps the described report, and says nothing but the abort message, exactly when it reports one |
| VirtualHarness.ReadReply | tools/a21_virtual_xiaozhi.py:537-543 | a reply is the next outcome of the stream; the report is marked with it exactly if it is a JSON object, and the run goes on unless it is a timeout, an error or another JSON value |
| VirtualHarness.Converse | tools/a21_virtual_xiaozhi.py:527-575 | the replies and loop events are what the connection delivers and, timeouts aside, exactly what was taken from it; the report is that of marking the replies and folding the events; said were hello, listen start, audio if any, listen stop and the abort, each with its payload, as far as the run got |
| VirtualHarness.RunHarness | tools/a21_virtual_xiaozhi.py:509-587 | the same for a whole run from a blank report, over any pieces and timeouts: exit code and report are those of the outcomes consumed, no more than those is taken from the socket, a timeout is claimed only if the socket had one, the stream sent is wholly readable and its last own frame is the close |
| VirtualHarness.ReportedRun | tools/a21_virtual_xiaozhi.py:547-587 | for every run: the report is described by the loop's events; a first-audio time is reported if and only if audio was counted, exit code 0 with audio expected implies it, and an abort stop time implies an abort, a stop and the end of reading |
| VirtualHarness.FlagsMean | tools/a21_virtual_xiaozhi.py:392-404 | for every run and each of the flags hello, listen, metrics and stop: it is set if and only if the run consumed, as a reply or in the loop, an object of the right type with the right fields; metrics takes a tts object with either block |
| VirtualHarness.CodeMeans | tools/a21_virtual_xiaozhi.py:537-587 | the exit code of every run from the outcomes consumed: 1 for a late or broken reply or a loop ending on a broken outcome, else 2 if audio was expected and the loop read none or metrics were required and no tts object with either block came, else 0 |
| VirtualHarness.AllAudioCounted | tools/a21_virtual_xiaozhi.py:537-543 | every binary frame consumed is counted if and only if none was consumed in place of the hello or listen reply; in a run that reaches the loop these are the first two outcomes of the session |
| VirtualHarness.AudioLost | tools/a21_virtual_xiaozhi.py:537-587 | a server stream of one audio frame and two closes: whatever the clock and the timeouts, every run that reaches the loop consumes the frame, counts none, ends without an error and, expecting audio, exits with 2 |
| VirtualHarness.AudioIsLost | tools/a21_virtual_xiaozhi.py:537-575 | for every clock there is such a run, without any timeout |
| NearestRank.SortKeeps | internal/app/app.go:853-856 | sorting keeps the samples with their multiplicities |
| NearestRank.PercentileCounts | internal/app/app.go:849-865 | the percentile is a sample; it is at most t exactly when rank many samples are, and at least t exactly when enough samples are at least t |
| NearestRank.PercentileIgnoresOrder | internal/app/app.go:849-865 | permuting the samples changes no percentile |
| NearestRank.PercentileGrowsWithQuantile | internal/app/app.go:857-864 | a larger quantile never gives a smaller percentile |
| NearestRank.JitterUS | internal/app/app.go:871-886 | the loop returns the microseconds between the largest and the smallest sample |
| NearestRank.SpreadWithinJitter | internal/app/app.go:849-886 | the difference of two reported percentiles exceeds the reported jitter by at most one microsecond |
| NearestRank.SpreadStaysExactly | internal/app/app.go:849-886 | for samples drawn from given durations, P95 minus P50 never exceeds the jitter if and only if no shorter duration loses more below a microsecond than a longer one; whole microseconds never do |
| NearestRank.PairExceeds | internal/app/app.go:849-886 | any two durations of which the shorter loses more are samples that show the excess |
| RepeatedRuns.RankOf95 | tools/a21_virtual_xiaozhi.py:317-322 | the rank of P95 is 19n/20 rounded up, and n itself below twenty samples |
| RepeatedRuns.HostCandidateMeans | tools/a21_virtual_xiaozhi.py:351-389 | a report is a host candidate if and only if there are at least three runs, none failed, every run has the figures asked for, and of the runs at least 95 in 100 are under 1500 ms to audio and, in abort mode, under 300 ms to stop |
| RepeatedRuns.FewRunsAllBelow | tools/a21_virtual_xiaozhi.py:317-389 | with fewer than twenty runs the gate demands every run below the limit |
| RepeatedRuns.OverallExitCode | tools/a21_virtual_xiaozhi.py:612-617 | the exit code is 0 if and only if every run's is, and otherwise the first that is not |
| AsrHelper.OutputShape | scripts/a21_sherpa_onnx_streaming_asr_session.py:53-151 | for every command sequence the output is groups of one ready and its partials, with at most one final or error, which is last; consecutive partials of a Zipformer session differ; the exit status tells whether an error was printed last |
| AsrHelper.Helper.Append | scripts/a21_sherpa_onnx_streaming_asr_session.py:83-93 | an append prints its partial and remembers it, or raises and leaves session and output alone |
| AsrHelper.Helper.Execute | scripts/a21_sherpa_onnx_streaming_asr_session.py:119-150 | one command, exceptions included, has the specified session, output and exit |
| AsrHelper.Helper.Run | scripts/a21_sherpa_onnx_streaming_asr_session.py:115-151 | the command loop stops at the first exit and prints exactly the specified events |
| AsrProtocol.EveryStateKeeps | internal/app/local_asr_streaming_smoke.go:266-399 | in every state reachable by any interleaving, expiry and kill included, what is in the pipes plus what was read is what the helper said, and the parent's counters are those of the events read |
| AsrProtocol.RunsEnd | internal/app/local_asr_streaming_smoke.go:266-399 | every run ends: no interleaving has more than 26 moves |
| AsrProtocol.NoDeadlock | internal/app/local_asr_streaming_smoke.go:266-399 | until the parent is done, parent or helper can move, with pipes that hold one message; after expiry the kill can |
| AsrProtocol.TablesAgree | scripts/a21_sherpa_onnx_streaming_asr_session.py:139-149 | the helper's table and the parent's, two tables, let the same seven codes through, named one by one; every other message becomes a runtime failure |
| AsrProtocol.RunOutcome | internal/app/local_asr_streaming_smoke.go:266-446 | the finding and all counters of a finished, unexpired run are determined by what the recogniser did and whether the commit was written: start and commit errors arrive unchanged, append errors unchanged if it was and as `helper_runtime_failed` if writing it failed |
| AsrProtocol.RaisedArrives | internal/app/local_asr_streaming_smoke.go:266-437 | a message raised on start or commit ends as the finding if it is one of the seven codes and as `helper_runtime_failed` if it is not |
| AsrProtocol.StatusMeans | internal/app/local_asr_streaming_smoke.go:205-255 | a report is blocked if and only if a check failed or the finding is one of the five that name a missing part, failed for every other finding and a missing final, passed otherwise |
| AsrProtocol.ReportedMessage | internal/app/local_asr_streaming_smoke.go:205-446 | the whole report of a finished run after clean checks, from the message the recogniser raised: four named codes block it, every other message fails it |
| AsrProtocol.AppendErrorArrives | internal/app/local_asr_streaming_smoke.go:323-330 | an append error's code reaches the finding if and only if the commit was written or the code stands for a runtime failure anyway |
| AsrProtocol.BothAppendEndsOccur | internal/app/local_asr_streaming_smoke.go:301-330 | for every start that returns, every append error and every pipe capacity, one run writes the commit and reports the error, and in another the write fails and the code is lost |
| AsrProtocol.PassedMeans | internal/app/local_asr_streaming_smoke.go:205-255 | a report passes if and only if the preflight checks did and nothing raised; it then has one frame, one ready, one final and at most one partial |
| AsrProtocol.NoFindingNoDoubt | internal/app/local_asr_streaming_smoke.go:239-254 | even with timeouts and kills, a run without a finding is one in which nothing raised and the final was counted, so the missing-final branch is dead |
| Playback.Conservation | internal/app/fast_companion_turn.go:698-784 | the batches are full, there are n/8 of them rounded up, and their concatenation is the file followed by fewer than eight silence chunks |
| Playback.PadBatch | internal/app/fast_companion_turn.go:765-784 | a short batch is filled with silence in the format of its last chunk; empty and full ones are kept |
| Playback.BatchAt | internal/app/fast_companion_turn.go:706-763 | from any batch boundary, cutting off at the chosen size gives the specified batch but for its padding and the specified sleep, and leads to the next boundary |
| Playback.Deliver | internal/app/fast_companion_turn.go:698-736 | all batches and sleeps in order if and only if every post succeeds and nothing is cancelled; otherwise the prefix before the first failure; place j of batch k carries chunk 8k + j with its data and format under the stream's name, or silence like the last chunk, and every sleep is 160 ms |
| Playback.PlayFile | internal/app/app_stackchan_playback.go:278-309 | the second loop, written in its own way, posts the same batches with the same sleeps and then IDLE if and only if every post succeeds; otherwise it has done exactly what comes before the first failing post; what each post carries and each sleep lasts is stated as for Deliver |
| Playback.SleepCoversAudio | internal/app/fast_companion_turn.go:752-763 | the sleeps cover the audio if and only if nothing is sent ahead or there is one batch; they are then 160 ms a batch |
| Playback.BufferBound | internal/app/app_stackchan_playback.go:16-22 | however late messages are sent and however their times in transit differ up to a bound, a device playing a chunk in 20 ms never holds more than eight chunks for each prebuffer batch and what plays in that bound; on time it holds exactly the prebuffer |
| Playback.BoundReached | internal/app/app_stackchan_playback.go:16-22 | for every bound on the time in transit up to a batch's own playing time, some network fills the device exactly that far |
| Playback.HeldAtIdle | internal/app/app_stackchan_playback.go:278-307 | what the device holds when IDLE arrives, computed from the command's own acts, is the figure the two rows below speak of |
| Playback.IdleCutsLittle | internal/app/app_stackchan_playback.go:299-307 | IDLE cuts off at most what was sent ahead and what plays in the longest time in transit |
| Playback.IdleAfterAudio | internal/app/app_stackchan_playback.go:299-307 | IDLE never cuts audio off, however late messages are sent, if and only if nothing is sent ahead or there is one batch |
| MicCapture.CaptureFeasible | internal/app/fast_companion_turn.go:512-555 | some reply within the requested frame limit has the frames demanded and lasts long enough if and only if at most 512 frames are demanded |
| MicCapture.ToEvidence | internal/app/fast_companion_turn.go:557-585 | evidence if and only if there is a frame and every one is 16 kHz, mono, 20 ms with 640 bytes: then 640 bytes and 20 ms for each, audio in order, the loudest RMS; otherwise the first unusable frame's error |
| MicCapture.WaitForEvidence | internal/app/fast_companion_turn.go:474-555 | polling ends at the first round whose reply is accepted, or with an error at the first deadline or cancellation before that; accepted are usable frames in the number demanded that fill the window, 1200 ms if none is given, or last at least 400 ms and 20 ms for each frame demanded |
| MicCapture.HopelessCapture | internal/app/fast_companion_turn.go:474-555 | with a gateway that keeps the limit, no round accepts a demand above 512 frames |
| PcmQuality.Analyze | internal/audio/quality.go:43-119 | refused exactly for a wrong codec, format or payload; otherwise sums, peak and counts are those of the decoded samples and the status tells whether there are findings |
| PcmQuality.Accumulate | internal/audio/quality.go:74-92 | the single pass describes the whole buffer: sum, sum of squares, a peak that some sample attains, clipped and silent counts |
| PcmQuality.SampleValue | internal/audio/quality.go:78 | a sample from its two bytes, the lower first, the upper with its sign; reducing the sample modulo 256 gives the bytes back |
| PcmQuality.FoundInSamples | internal/audio/quality.go:74-112 | the findings from the samples themselves: clipped from 32760 on, low headroom above 29490, offset from a twentieth of full scale on, near silence by the mean square; the counts are the numbers of samples from 32760 on and up to 32 |
| PcmQuality.SumSquaredBound | internal/audio/quality.go:89-91 | Cauchy and Schwarz: the square of the sum is at most n times the sum of squares |
| PcmQuality.FiguresOrdered | internal/audio/quality.go:94-99 | squared: DC offset is at most RMS, RMS at most peak, peak at most full scale |
| PcmQuality.FindingsRelate | internal/audio/quality.go:101-112 | near silence and DC offset never occur together, clipping implies low headroom, and an all-silent buffer is near silent |
| PcmQuality.ExactUpTo | internal/audio/quality.go:74-92 | accumulating in float64, additions rounded in any way, gives the exact sums of all buffers of n samples if and only if n is at most 2^23; beyond it, 2^23 full-scale samples and a 1 have a sum of squares no float64 holds |
| PcmQuality.SomeRounding | internal/audio/quality.go:90-91 | there are ways to round: keeping what fits and always giving something that fits |
| LegacyIdentity.IndexFrom | internal/app/app.go:480-481 | the first occurrence from a position, or proof that there is none |
| LegacyIdentity.ContainsToken | internal/app/app.go:476-494 | the index-and-advance loop finds a delimited identity if and only if one exists |
| LegacyIdentity.TokenMeans | internal/app/app.go:476-498 | what an identity is, character by character: x or v, then 21, with no lower-case letter or digit on either side |
| LegacyIdentity.ContainsPathToken | internal/app/app.go:466-474 | the loop over components answers as one scan of the whole path |
| LegacyIdentity.ComponentsDecide | internal/app/app.go:466-494 | a path has a delimited identity if and only if one of its components has |
| GatewayEnv.FilterInPlace | internal/app/app.go:1006-1012 | writing into the array being read leaves exactly the entries without the key, in order |
| GatewayEnv.SetIfNotEmptyInPlace | internal/app/app.go:1001-1014 | the in-place overlay returns the specified list, in the caller's array or a new one; a blank value leaves the array alone |
| GatewayEnv.WithCLIOptions | internal/app/app.go:990-999 | the six-option wrapper returns the overlay in a new array and changes nothing of the caller's |
| GatewayEnv.SetThenLookup | internal/app/app.go:1001-1014 | after an overlay the key reads back as the trimmed value, from its only entry, the last one |
| GatewayEnv.SetKeepsOthers | internal/app/app.go:1001-1014 | another key reads as before, for all environments and values, if and only if no entry can begin with both keys; two different keys without an equals sign never share one |
| GatewayEnv.OptionsLookup | internal/app/app.go:990-999 | each of the six options, under its key by name, reads back trimmed or, where blank, as the caller's, and every other key as the caller's |
| GatewayDefaults.ApplyFastAckDefaults | internal/app/app.go:1135-1144 | the sequence of appends is one pass of the acknowledgement rules |
| GatewayDefaults.ApplyHostLocalDefaults | internal/app/app.go:1068-1090 | the nested conditions for the local chain are one pass of its rules, the alternatives excluding each other |
| GatewayDefaults.ApplyCloudEdgeDefaults | internal/app/app.go:1092-1133 | the same for the cloud chain |
| GatewayDefaults.ApplyProductChainDefaults | internal/app/app.go:1060-1090 | the mode selects the rules |
| GatewayDefaults.DefaultsAppend | internal/app/app.go:1060-1148 | which of eight names gives which chain, and what each chain appends, entry by entry with its condition: although every append reads what the ones before it made, all conditions can be read off the caller's environment |
| GatewayDefaults.RulesSeparated | internal/app/app.go:1060-1144 | beyond the test that its own key is unset, no rule of a mode consults a key that a rule of that mode sets |
| GatewayDefaults.ModeKept | internal/app/app.go:1146-1148 | defaulting never changes the mode |
| GatewayDefaults.TwiceIsOnce | internal/app/app.go:1020-1021 | a present key keeps its lookup, and a second application changes no lookup of any key |
| GatewayDefaults.TwiceIsOnceAsList | internal/app/app.go:1060-1144 | a second application leaves the list alone if and only if no wanted default has a blank first entry for its key |
| GatewayDefaults.SecondDefaults | internal/app/app.go:1060-1144 | a second application appends exactly the entries of the defeated defaults, in rule order, and defeats the same ones again |
| GatewayDefaults.GrowsForever | internal/app/app.go:1060-1144 | every application after the first lengthens the list by the number of defeated defaults, while what any key reads as stays the same |
| GatewayDefaults.BlankEntryDefeats | internal/app/app.go:1135-1144 | an environment with one blank acknowledgement entry defeats exactly that default |
| GatewayDefaults.DefaultTakesEffect | internal/app/app.go:1060-1144 | a wanted default makes its key read as something if and only if it has no blank first entry |
| EvidenceBundle.NameFixed | internal/app/provider_evidence_import.go:257-286 | a name that passed the name filter and the whitelist passes the name filter again unchanged |
| EvidenceBundle.CleanWalks | internal/app/provider_evidence_import.go:262 | cleaning a relative path leads to the same place from every directory |
| EvidenceBundle.EntryNameMeans | internal/app/provider_evidence_import.go:257-271 | a name passes the filter as a given file name, parent directories apart, if and only if it is relative and leads, from every directory, to that file right in it |
| EvidenceBundle.AllowedMeans | internal/app/provider_evidence_import.go:273-286 | the whitelist is the five families of reports, each its prefix, any text without a slash, and ".json" |
| EvidenceBundle.DirFindings | internal/app/provider_evidence_package.go:132-190 | every bad file leaves one finding, in the order of the listing, that gives the first reason it is bad for |
| EvidenceBundle.BundleFindings | internal/app/provider_evidence_import.go:168-243 | the same for the records of a bundle, a second record of a taken name included |
| EvidenceBundle.GatheredFit | internal/app/provider_evidence_package.go:132-190 | everything the packager gathers is acceptable to the importer: name, size and redaction |
| EvidenceBundle.DirClean | internal/app/provider_evidence_package.go:132-190 | a directory is gathered without findings if and only if each file has a safe whitelisted name, is regular, readable under it, within size and passes redaction |
| EvidenceBundle.BundleClean | internal/app/provider_evidence_import.go:168-243 | a bundle is gathered without findings if and only if all its records are good and no two have one name; nothing unfit is gathered from any bundle |
| EvidenceBundle.ReadPackageEntries | internal/app/provider_evidence_package.go:132-190 | the directory loop, check by check, gathers what the specification folds, findings in order |
| EvidenceBundle.ReadBundleEntries | internal/app/provider_evidence_import.go:150-245 | the record loop, check by check, gathers what the specification folds, findings in order; an unreadable bundle and one that is broken at any point are refused with one finding, whatever was gathered |
| EvidenceBundle.SortEntries | internal/app/provider_evidence_import.go:246-254 | however the map is walked, the sorted list is the same |
| EvidenceBundle.ListsUnique | internal/app/provider_evidence_import.go:246-254 | a map has one ascending listing |
| EvidenceBundle.ChoiceMeans | internal/app/provider_evidence_import.go:301-348 | the choice in the fields of readiness and report: without staging there is none; else the last smoke report that is valid, executed and streaming and, where a provider other than mock is selected, routable and of the text-stream family, is route-eligible and of that provider and family; without one the last executed report that is not is blamed, or none |
| EvidenceBundle.GradedMeans | internal/app/product_demo.go:1183-1199 | what counts for and against the selection is exactly that condition on the fields of both |
| EvidenceBundle.SelectSmoke | internal/app/provider_evidence_import.go:301-348 | the downward scan, which remembers the first mismatch, makes that choice and names the right report when it fails |
| EvidenceBundle.Store.WriteEntries | internal/app/provider_evidence_import.go:350-378 | the directory afterwards and the finding are those of writing entry by entry up to the first obstacle; a file that cannot be read takes the bytes and still cannot |
| EvidenceBundle.NeverOverwrites | internal/app/provider_evidence_import.go:357-376 | no write changes a readable file or makes an unreadable one readable, and what changes holds an entry's bytes |
| EvidenceBundle.WritesAll | internal/app/provider_evidence_import.go:357-377 | writing succeeds if and only if no file stands in the way; every entry is then on disk, and all can be read back if and only if none went into a file that could not be read before |
| EvidenceBundle.UnreadableStays | internal/app/provider_evidence_import.go:357-376 | for any entry, a directory in which writing it succeeds and it cannot be read back |
| EvidenceBundle.PackageReports | internal/app/provider_evidence_package.go:63-122 | the packaging command gives the specified report and the records of the sorted entries |
| EvidenceBundle.ImportBundle | internal/app/provider_evidence_import.go:100-144 | the import command gives the specified report and directory |
| EvidenceBundle.BundleReadsBack | internal/app/provider_evidence_package.go:205-277 | the records written for acceptable entries gather to the same names and bytes, without findings |
| EvidenceBundle.PackageAccepts | internal/app/provider_evidence_package.go:63-122 | a directory is packaged if and only if its files are all good, one is eligible by the fields above, staging works and the bundle can be written; the report names every entry and the last eligible one |
| EvidenceBundle.ImportAccepts | internal/app/provider_evidence_import.go:100-144 | a bundle is imported if and only if its name has the prefix and ".tgz", it is sound, its records are good and of different names, one is eligible by the fields above, staging works, the output directory is there and no file stands in the way; the report names every entry and the last eligible one |
| EvidenceBundle.RoundTrip | internal/app/provider_evidence_import.go:100-144 | a bundle the packager accepted is accepted by the importer, with the same reports and smoke report and every byte on disk, if and only if staging works, the output directory is there and no file stands in the way; all reports can be read back if and only if none went into a file that could not be read |
| EvidenceBundle.NothingDropped | internal/app/provider_evidence_package.go:124-203 | every file listed in an accepted directory has a safe name, and the file of that name is packaged under it |
| EvidenceBundle.KeptExactly | internal/app/provider_evidence_package.go:132-190 | of the file names that can be packaged, exactly those without white space at an end keep their own bytes in every directory listing that is accepted, in any setup that accepts some report |
| EvidenceBundle.OwnBytesDropped | internal/app/provider_evidence_package.go:132-190 | for any other name and any contents, a directory of plain files, all listed in order, that is accepted and in whose package the file's own bytes are nowhere |
| EvidenceBundle.PaddedName | internal/app/provider_evidence_import.go:257-271 | such names exist: a whitelisted name behind a blank is filtered to the plain one |
| EvidenceBundle.NothingAdded | internal/app/provider_evidence_package.go:124-203 | every packaged entry holds the bytes of the file of its name |
| EvidenceBundle.SecondImport | internal/app/provider_evidence_import.go:350-378 | importing an accepted bundle again changes no file; it reports the same, even where nothing can be written, if and only if no report is in a file that can be neither read nor written |
| EvidenceBundle.RejectedImport | internal/app/provider_evidence_import.go:350-378 | a rejected import left the directory alone, or wrote the entries before the obstructing one and no other |
| EvidenceBundle.OnlyFitWritten | internal/app/provider_evidence_import.go:100-144 | whatever the bundle, a file that an import adds or changes has a whitelisted name, a permitted size and passed redaction |
| EvidenceBundle.ReadableKept | internal/app/provider_evidence_import.go:100-144 | no import of any bundle, accepted or not, changes a readable file |
| DeviceRecovery.Report.Select | internal/app/app_stackchan_product_recovery.go:386-398 | the loop leaves the folded record, and reports online if and only if some matching record is |
| DeviceRecovery.PreferredTransitive | internal/app/app_stackchan_product_recovery.go:415-427 | preference is transitive whatever the ages |
| DeviceRecovery.PreferredAsymmetric | internal/app/app_stackchan_product_recovery.go:415-427 | no two records are each preferred to the other |
| DeviceRecovery.SelectedIsMaximal | internal/app/app_stackchan_product_recovery.go:386-398 | the fold returns a matching record if there is one, and no matching record is preferred to it |
| DeviceRecovery.SelectedIsBest | internal/app/app_stackchan_product_recovery.go:386-427 | no matching record is better than the selected one: online first, then last seen, then least positive age, then least id |
| DeviceRecovery.OnlineIfAny | internal/app/app_stackchan_product_recovery.go:386-398 | the selected record is online if and only if some matching record is |
| DeviceRecovery.TiesAgree | internal/app/app_stackchan_product_recovery.go:415-427 | among given ages, tied records agree on all that is compared if and only if at most one age is not positive |
| DeviceRecovery.WeakOrderExactly | internal/app/app_stackchan_product_recovery.go:415-427 | among given ages, the preference is a strict weak order if and only if at most one age is not positive |
| DeviceRecovery.BrokenTie | internal/app/app_stackchan_product_recovery.go:415-427 | three records that show ties are not transitive |
| DeviceRecovery.OrderOnlyBreaksTies | internal/app/app_stackchan_product_recovery.go:386-398 | lists of the same records select tied ones |
| DeviceRecovery.OrderHiddenExactly | internal/app/app_stackchan_product_recovery.go:386-427 | the order of the list never shows in the compared fields of the selection if and only if at most one age is not positive |
| DeviceRecovery.SelectedIsFirst | internal/app/app_stackchan_product_recovery.go:386-398 | where ties are harmless, the selected record is preferred to every matching record before it |
| AgentPlanner.OneLineMeans | internal/agentplan/planner.go:383-385 | folding to one line keeps the words, is idempotent, and is empty only for blank text |
| AgentPlanner.AllowedMemory | internal/agentplan/planner.go:251-264 | the loop returns what the memory channel shows of the items |
| AgentPlanner.AllowedPreferences | internal/agentplan/planner.go:266-281 | the loop returns what the preference channel shows |
| AgentPlanner.CompactStrings | internal/agentplan/planner.go:364-372 | the loop returns the non-blank constraints, each on one line |
| AgentPlanner.SnippetFrom | internal/agentplan/planner.go:251-281 | every snippet stands for an item that is not sensitive and whose source is the task window, or for preferences one of the three preference sources; it has its identity and the first 180 code points of its line, and is not empty |
| AgentPlanner.ItemShown | internal/agentplan/planner.go:251-281 | conversely every item that is not sensitive, comes from such a source and is not blank is shown |
| AgentPlanner.ShownExactly | internal/agentplan/planner.go:251-281 | the snippets are exactly those of such items, one each, in the order given |
| AgentPlanner.BuildMessage | internal/agentplan/planner.go:220-249 | the message told to an agent is the specified one |
| AgentPlanner.MessageMeans | internal/agentplan/planner.go:220-249 | all an agent is told, from the request: which text sums it up and where it comes from, what is asked for, the constraints that say something, and the memory and preferences that may be shown |
| AgentPlanner.BuildPlan | internal/agentplan/planner.go:131-194 | the step-by-step construction with its early returns gives the plan specified field by field |
| AgentPlanner.RoutingMeans | internal/agentplan/planner.go:131-218 | an agent is told if and only if the mode is co-creation or roleplay, the privacy given is neither private nor professional-only and the binding is complete; V21 is allowed if and only if the mode is professional and the privacy given is not private; never both, and path, flags, marker and findings agree |
| AgentPlanner.FindingsMean | internal/agentplan/planner.go:131-194 | when each of the six findings is left, from the request alone; at most two are, never the same |
| AgentPlanner.PolicyMeans | internal/agentplan/planner.go:283-315 | candidate memory if and only if some preference may be shown and the request is neither private nor professional; likewise the other policies, the private persona and the local-only screen |
| AgentPlanner.Independence | internal/agentplan/planner.go:131-296 | requests whose lists agree once items that are sensitive, blank or of another source are dropped get equal plans, message included |
| AgentPlanner.SilentIndependence | internal/agentplan/planner.go:131-296 | without an agent message, two requests routed alike get equal plans if and only if they agree on having an allowed preference, or are private or professional |
| AgentPlanner.TranscriptIndependence | internal/agentplan/planner.go:241-249 | the transcript does not matter where there is a summary, and past its first 240 code points nowhere |

## Left out

- The HTTP upgrade of the WebSocket, its key and its accept header. The model begins with a connected socket.
- Fragmented messages: the reader ignores the FIN bit and does not reassemble, and so does the model.
- Failing sends and partially written frames. The socket accepts whatever is sent; only reads may time out.
- The timeout set on the socket before each read: any read may time out, which covers every setting.
- UTF-8 decoding and JSON parsing of text frames: which payloads decode, parse and hold an object is a parameter; the outcomes of each case are the code's.
- Rounding of floating-point products: quantiles and times are exact reals. The rank of P95 is 19n/20 rounded up exactly.
- The clock: its readings are parameters, as reals, rounded to milliseconds with halves to even.
- AsrProtocol.NoDeadlock: pipes hold whole messages, at least one; partial lines and byte capacities are not modelled, nor output of the recogniser library that is not an event.
- AsrProtocol.TablesAgree: the parent trims a code before it looks it up; no code the helper sends changes by that, and the model does not trim.
- AsrProtocol.RunOutcome: expiry and kill are moves of the machine, but the outcome is stated for runs that did not expire; what holds with expiry is NoFindingNoDoubt.
- Decoding base64 audio into samples in the helper; whether it raises is part of what the recogniser does.
- The integer width of counters and durations: integers are unbounded.
- Reading WAV files and encoding base64 in the playback loops: chunks are given, and silence is described by format and byte count.
- Playback.BufferBound: the device is the one the pacing assumes, playing a chunk in 20 ms once it arrives; messages arrive in the order they are sent.
- The device's RMS values and the transport of capture frames: frames are parameters.
- Square root and logarithm in the PCM figures: RMS is kept squared, and -60 dB after rounding to a thousandth is a threshold between 0.001 and 0.0011.
- Float rounding of the PCM figures that are computed from the sums; the exponent range of a float64, which no sum of this kind leaves.
- Cleaning and lowering a path before the identity scan: the scan starts from the cleaned, lowered path.
- Lowering a chain mode outside the letters that can become ASCII ones: no mode named in the program has others.
- Tar and gzip encoding: a bundle is the list of records a reader yields and whether the stream is sound to its end.
- JSON parsing of reports: whether a report is unsafe and what its smoke evidence says are functions of its bytes, the same on both sides.
- Validation of input and output directory paths, and the report file the import command writes afterwards.
- EvidenceBundle.Store.WriteEntries: a failed write is taken to leave the file as it was, a new file to be readable, and an old one to keep its permissions.
- What a read that times out has taken of the frame it was waiting for; nothing is read after it.
- VirtualHarness.RunHarness: the pongs among the frames sent are stated call by call, by the Recv and PumpDeliversFrames rows, and not again for the whole run.
- EvidenceBundle.RoundTrip: both sides are run with the same provider readiness and the same parsers.
- Case folding in the match of a device id: the match is a parameter, and the theorems hold for every match.
- The classification of a recovery, its serial and flash checks, each settled by reading one branch.
- The fixed constraints and the boundary text of every agent message, and the schema version of a plan: constants.
- AgentPlanner.BuildPlan: fields of the plan are local variables put together at the end; the upper-cased mode name on the native screen is represented by the mode.
- Invalid UTF-8: texts are code points.
- Command-line parsing, JSON output, HTTP transport, serial and firmware commands, and the gateway, provider and runtime-guard packages.
