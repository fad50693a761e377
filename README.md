# VoipRecord in Dafny

VoipRecord is an Android call recorder with two Python monitoring servers.
This project models the core of each part and proves properties about it:

- **Android client.** It records both sides of a VoIP call to local WAV
  files. It streams the raw PCM to a monitoring server over TCP, after a
  length-prefixed username frame. It sends JPEG screenshots with the same
  framing. It reports to an HTTP API, sometimes through a retrying OkHttp
  interceptor.
- **Cleanup.** A background thread keeps the recordings folder under a size
  ceiling by deleting the oldest recordings.
- **History screen.** It turns recording file names into records.
- **Overlay.** A floating overlay shows the recording state and can be
  dragged around the screen.
- **Monitoring servers** (`voip_server_4.py` and the older
  `voip_server2.py`). They read the username frame and then the audio
  packets. Each audio stream has a 2000-sample waveform window and a
  20-packet playback queue. A key press picks which stream is played.
  `voip_server_4.py` also reads screenshot frames.

Modules, one file each:

| file | module | models |
|---|---|---|
| `wrappers.dfy` | `Wrappers` | `Option` and `Result` |
| `bytes.dfy` | `Bytes` | bytes, 32/64-bit Java integers, little- and big-endian encodings |
| `text.dfy` | `Text` | Java's `String.split`, `Integer.parseInt`/`Long.parseLong` on ASCII digits, `toLowerCase` on ASCII, decimal formatting with ASCII digits |
| `voip_util.dfy` | `VoipUtil` | the WAV header writer |
| `framing.dfy` | `Framing` | the length-prefixed username and screenshot frames, on both the client side and the server side |
| `stream_buffers.dfy` | `StreamBuffers` | each server stream's waveform window and playback queue |
| `voip_server4.dfy` | `VoipServer4` | the audio handler, playback and key handling of `voip_server_4.py` |
| `voip_server2.dfy` | `VoipServer2` | the same for `voip_server2.py`, which stops a stream at an odd-length packet |
| `retry_interceptor.dfy` | `Rpc` | `RetryInterceptor` |
| `api_client.dfy` | `Api` | the requests `ApiClient` builds and how it judges each response |
| `history_record_util.dfy` | `HistoryRecordUtil` | the cleanup sweep and the history scan |
| `voip_record_service.dfy` | `RecordService` | the service's start/stop state machine and its capture loop |
| `floating_control.dfy` | `FloatingControl` | the overlay's state, label and position |
| `record_adapter.dfy` | `Adapter` | the history list adapter |

The two kinds of source code are modelled differently:

- **State-changing objects become Dafny classes.** These are the service,
  the overlay, the interceptor, the adapter and the servers. Each has
  `modifies` clauses, and each method's new state is stated through a pure
  function, for example `State() == Deliver(old(State()), i)`. The lemmas
  are proved about that function.
- **Loops become methods with loop invariants.** These are the cleanup
  sweep, the history scan, `recordAudio`, the retry loop, the image
  assembly and the servers' audio loops.

Everything outside the model's reach is a parameter: Android's answers, the
file system, what each `recv` or `proceed` call returns, and whether a
delete or network write succeeds.

Behaviour of the code worth knowing before reading the model:

- **Non-2xx responses are retried.** `RetryInterceptor.intercept` retries
  every response outside 200-299, not only IOExceptions
  (RetryInterceptor.java:32-47). When the budget runs out, it throws the
  last `IOException` or a fresh one. It never returns a non-2xx response.
- **Screenshot size check.** `handle_screenshot_client` unpacks the 4-byte
  size before testing for an empty read. An empty or short size read
  therefore closes the connection. It is not skipped.
- **The history scan needs six parts.** It checks for at least five
  `=`-separated parts but reads part 5. A five-part name therefore throws
  inside the `try` and is skipped, like a shorter one.

## Model

Source paths are relative to the repository root.

| member | source | states |
|---|---|---|
| VoipUtil.CreateWavHeader | app/src/main/java/com/example/voiprecord/utils/VoipUtil.java:13-37 | the header is always exactly 44 bytes |
| VoipUtil.ParseWavHeader | app/src/main/java/com/example/voiprecord/utils/VoipUtil.java:22-33 | a header is read only from at least 44 bytes with the RIFF, WAVE, "fmt " and "data" tags at offsets 0, 8, 12 and 36 |
| VoipUtil.HeaderLayout | app/src/main/java/com/example/voiprecord/utils/VoipUtil.java:22-34 | each field sits at its offset: the tags, LE32(size+36), 16, PCM format 1, 1 channel, 16000 Hz, 32000 bytes/s, block align 2, 16 bits, LE32(size) |
| VoipUtil.ParseCreateWavHeader | app/src/main/java/com/example/voiprecord/utils/VoipUtil.java:13-34 | reading the written header back gives the constant PCM fields and both sizes modulo 2^32 (the `(int)` casts) |
| VoipUtil.HeaderConsistent | app/src/main/java/com/example/voiprecord/utils/VoipUtil.java:14-31 | the header is self-consistent: byte rate = rate × channels × width, block align = channels × width, RIFF size = data size + 36 (mod 2^32) |
| VoipUtil.WrittenFieldsConsistent | app/src/main/java/com/example/voiprecord/utils/VoipUtil.java:14-31 | the field values the writer uses (16 kHz, mono, 16 bit) satisfy the header's consistency rules for every data size |
| VoipUtil.SizesRoundTrip | app/src/main/java/com/example/voiprecord/utils/VoipUtil.java:14-34 | for every size below 2^31 − 36 both size fields give back the exact PCM size |
| VoipUtil.HeaderDeterminedByLow32 | app/src/main/java/com/example/voiprecord/utils/VoipUtil.java:23-34 | two sizes give the same header if and only if their low 32 bits agree |
| Framing.Frame | app/src/main/java/com/example/voiprecord/VoipRecordService.java:381-392 | a frame is 4 header bytes followed by exactly the payload |
| Framing.FrameHeader | app/src/main/java/com/example/voiprecord/VoipRecordService.java:386-388 | the 4 header bytes are the payload length, big-endian, and decode back to it |
| Framing.ParseFrame | voip_server_4.py:89-102 | a parsed frame's payload has the declared length and the stream is header + payload + rest |
| Framing.ParseFrameRoundTrip | app/src/main/java/com/example/voiprecord/VoipRecordService.java:352-356 | parsing a frame followed by anything gives back the payload and leaves the rest untouched |
| Framing.ParsedIsFrame | voip_server_4.py:92-104 | every stream that parses (with a payload below 2^31) is such a frame followed by the rest |
| Framing.ReadUsername | voip_server_4.py:188-200 | the handshake ends iff the length read or the name read is empty, breaks iff the length read is short, and otherwise adopts exactly the name bytes read |
| Framing.UsernameRoundTrip | app/src/main/java/com/example/voiprecord/VoipRecordService.java:381-392 | with full delivery the server adopts exactly the username the client framed |
| Framing.EmptyUsernameEndsHandler | voip_server_4.py:196-198 | a zero-length username frame ends the handler before any audio |
| Framing.AssembleImage | voip_server_4.py:97-102 | whatever the segmentation, the inner loop assembles the first min(size, available) bytes sent |
| Framing.ReceiveScreenshot | voip_server_4.py:89-106 | one frame read ends in a header error on a short size read, a discarded incomplete frame, or exactly `size` bytes |
| Framing.ScreenshotRoundTrip | app/src/main/java/com/example/voiprecord/VoipRecordService.java:352-356 | the server assembles exactly the JPEG bytes the client framed, whatever follows |
| Framing.ShortScreenshotDiscarded | voip_server_4.py:104-106 | a connection that delivers fewer bytes than announced never yields an image |
| StreamBuffers.Samples | voip_server_4.py:216 | an even packet gives half as many samples, sample k being the little-endian int16 of bytes 2k and 2k+1 |
| StreamBuffers.SamplesAppend | voip_server_4.py:216-220 | the samples of two packets in a row are the samples of each in turn |
| StreamBuffers.KeepLast | voip_server_4.py:33-34 | the window never exceeds maxlen and keeps everything until it is full |
| StreamBuffers.KeepLastIsSuffix | voip_server_4.py:33-34 | the window is always a suffix of everything appended |
| StreamBuffers.KeepLastTwice | voip_server_4.py:220-227 | extending twice equals extending once with both batches |
| StreamBuffers.Offer | voip_server_4.py:222-225 | put_nowait appends while the queue has room and drops the packet when it is full |
| StreamBuffers.AcceptBounded | voip_server_4.py:219-232 | accepting a packet keeps the window within 2000 and the queue within 20 |
| StreamBuffers.Delivered | voip_server_4.py:208-211 | the processed packets are the prefix before the first empty recv, all non-empty |
| StreamBuffers.DeliveredEven | voip_server2.py:127-133 | the older server processes the prefix before the first empty or odd-length packet |
| StreamBuffers.DeliveredPrefix | voip_server_4.py:208-211 | the loop that stops at position i processed exactly the packets before i |
| StreamBuffers.DeliveredEvenPrefix | voip_server2.py:127-133 | the same for the older server's stopping rule |
| StreamBuffers.AcceptWellFormed | voip_server_4.py:212-232 | accepting a non-empty even packet of at most CHUNK bytes keeps the buffers well formed |
| StreamBuffers.Evens | voip_server_4.py:212-214 | only even-length packets are kept, never more than were received |
| StreamBuffers.EvensOfEvens | voip_server_4.py:212-214 | a list of even packets loses nothing |
| StreamBuffers.AdmittedStep | voip_server_4.py:222-225 | offering one more packet extends the admitted packets by it while there is room |
| StreamBuffers.FoldAcceptContents | voip_server_4.py:208-232 | after a run of packets the window is the newest 2000 samples of all of them and the queue holds the earliest arrivals up to 20 |
| StreamBuffers.FoldAcceptWellFormed | voip_server_4.py:208-232 | a run of accepted packets keeps the buffers well formed |
| StreamBuffers.KeySelectProperties | voip_server_4.py:260-269 | only u/U/d/D change the source, each to its own side, and a second press changes nothing |
| VoipServer4.FoldIsAcceptOfEvens | voip_server_4.py:208-232 | skipping odd packets is the same as never receiving them |
| VoipServer4.FoldContents | voip_server_4.py:208-232 | a connection leaves the newest 2000 samples of its even packets in the window and those packets in the queue while it had room |
| VoipServer4.StepProperties | voip_server_4.py:212-232 | an odd packet changes nothing, a full queue stays as it is, otherwise the packet is queued |
| VoipServer4.FoldWellFormed | voip_server_4.py:208-232 | the audio loop keeps the stream's buffers well formed |
| VoipServer4.EvensAreChunks | voip_server_4.py:209-214 | kept packets are non-empty and at most CHUNK bytes |
| VoipServer4.AudioStreamServer.constructor | voip_server_4.py:23-34 | empty windows and queues, downlink playing, user "Unknown User" |
| VoipServer4.AudioStreamServer.HandleClient | voip_server_4.py:182-238 | a named handshake adopts the name and folds the delivered packets into that stream only; otherwise nothing changes |
| VoipServer4.AudioStreamServer.ReceivePackets | voip_server_4.py:207-232 | the audio loop folds exactly the packets before the first empty recv into that stream, skipping odd ones, and leaves the other stream, the play source and the name alone |
| VoipServer4.AudioStreamServer.Push | voip_server_4.py:216-232 | one even packet extends the stream's window and is offered to its queue; the other stream is untouched |
| VoipServer4.AudioStreamServer.PlayNext | voip_server_4.py:246-258 | playback takes the oldest packet of the selected queue, or nothing when it is empty, and touches nothing else |
| VoipServer4.AudioStreamServer.OnKeyPress | voip_server_4.py:260-269 | the play source becomes KeySelect of the key |
| VoipServer2.AgreesWithServer4 | voip_server2.py:127-149 | on the packets both servers process, the two handlers leave the same buffers |
| VoipServer2.SameDeliveryWithoutOddPackets | voip_server2.py:127-133 | without odd packets both servers read the same packets |
| VoipServer2.OddPacketEndsStream | voip_server2.py:128-133 | nothing after an odd-length packet is read |
| VoipServer2.FoldAcceptNext | voip_server2.py:127-149 | one more accepted packet extends the fold over the packets by exactly one Accept step |
| VoipServer2.AudioStreamServer.constructor | voip_server2.py:22-33 | empty windows and queues, downlink playing, user "Unknown User" |
| VoipServer2.AudioStreamServer.HandleClient | voip_server2.py:101-155 | a named handshake adopts the name and folds the packets before the first empty or odd one into that stream only |
| VoipServer2.AudioStreamServer.ReceivePackets | voip_server2.py:127-149 | the audio loop folds exactly the packets before the first empty or odd one into that stream and leaves the other stream, the play source and the name alone |
| VoipServer2.AudioStreamServer.Push | voip_server2.py:133-149 | one packet extends the stream's window and is offered to its queue; the other stream is untouched |
| VoipServer2.AudioStreamServer.PlayNext | voip_server2.py:157-175 | playback takes the oldest packet of the selected queue and touches nothing else |
| VoipServer2.AudioStreamServer.OnKeyPress | voip_server2.py:177-186 | the play source becomes KeySelect of the key |
| Rpc.Backoffs | app/src/main/java/com/example/voiprecord/rpc/RetryInterceptor.java:53-56 | the back-off delays of a call strictly increase |
| Rpc.LastIOFailureIsLatest | app/src/main/java/com/example/voiprecord/rpc/RetryInterceptor.java:37-39 | the remembered exception is the latest IOException of the attempts |
| Rpc.Loop | app/src/main/java/com/example/voiprecord/rpc/RetryInterceptor.java:29-73 | a call never makes more attempts than its remaining budget |
| Rpc.LoopNoAttempt | app/src/main/java/com/example/voiprecord/rpc/RetryInterceptor.java:29-73 | no attempt is made iff the budget is spent, and then the pending exception is thrown |
| Rpc.LoopEarlierFailed | app/src/main/java/com/example/voiprecord/rpc/RetryInterceptor.java:29-62 | every attempt but the last failed and its sleep completed |
| Rpc.LoopLastSucceeded | app/src/main/java/com/example/voiprecord/rpc/RetryInterceptor.java:32-36 | a 2xx last attempt is returned, the counter counts the failures before it, no sleep follows it |
| Rpc.LoopLastFailed | app/src/main/java/com/example/voiprecord/rpc/RetryInterceptor.java:50-61 | a failed last attempt ends on an interrupted sleep with budget left, or with the budget exactly spent |
| Rpc.LoopRethrows | app/src/main/java/com/example/voiprecord/rpc/RetryInterceptor.java:64-73 | unless interrupted, a throwing call throws its latest IOException or, without one, a fresh exception |
| Rpc.ReturnsFirstSuccess | app/src/main/java/com/example/voiprecord/rpc/RetryInterceptor.java:32-36 | a returned response is 2xx and is the first 2xx one; non-2xx responses are never returned |
| Rpc.SuccessWithinBudgetReturned | app/src/main/java/com/example/voiprecord/rpc/RetryInterceptor.java:29-36 | a 2xx response within the budget is reached unless an earlier sleep is interrupted |
| Rpc.Backoff | app/src/main/java/com/example/voiprecord/rpc/RetryInterceptor.java:50-61 | a sleep follows every failed attempt except the one that spends the budget, and only while budget remains |
| Rpc.ExhaustedAllFailed | app/src/main/java/com/example/voiprecord/rpc/RetryInterceptor.java:29-73 | a call that runs out of budget made only failed attempts |
| Rpc.ExhaustedThrows | app/src/main/java/com/example/voiprecord/rpc/RetryInterceptor.java:37-73 | running out of budget rethrows the latest IOException even after later non-2xx responses, or throws a fresh one |
| Rpc.InterruptedSleepThrows | app/src/main/java/com/example/voiprecord/rpc/RetryInterceptor.java:53-59 | a call ends on an interrupted sleep iff its last attempt failed with budget left and that sleep was interrupted |
| Rpc.CounterCountsFailures | app/src/main/java/com/example/voiprecord/rpc/RetryInterceptor.java:50 | the counter rises by one for every attempt except a final 2xx one |
| Rpc.SpentBudgetRefusesRequest | app/src/main/java/com/example/voiprecord/rpc/RetryInterceptor.java:15-29 | with the counter at maxRetries a call throws without calling proceed |
| Rpc.SharedCounterExample | app/src/main/java/com/example/voiprecord/rpc/RetryInterceptor.java:15-50 | three IOExceptions in one call make the next call fail although it would get 200 |
| Rpc.PerRequest | app/src/main/java/com/example/voiprecord/rpc/RetryInterceptor.java:23-29 | with a per-call counter a call makes an attempt iff maxRetries > 0 |
| Rpc.PerRequestServes | app/src/main/java/com/example/voiprecord/rpc/RetryInterceptor.java:23-36 | with a per-call counter a 2xx response among the first maxRetries attempts is returned unless a sleep is interrupted |
| Rpc.LoopStep | app/src/main/java/com/example/voiprecord/rpc/RetryInterceptor.java:29-61 | one iteration: a 2xx response returns, a failure ends on an interrupted sleep or continues with the counter one higher |
| Rpc.RetryInterceptor.constructor | app/src/main/java/com/example/voiprecord/rpc/RetryInterceptor.java:14-19 | the budget is maxRetries and the counter starts at 0 |
| Rpc.RetryInterceptor.Intercept | app/src/main/java/com/example/voiprecord/rpc/RetryInterceptor.java:23-74 | the outcome, the proceed calls, the delays 2000·k ms and the counter are those of the retry loop run from the counter earlier calls left; the counter never decreases, stays within max(0, maxRetries) over the interceptor's life, and once it reaches maxRetries a call throws without calling proceed |
| Rpc.SharedBudgetAcrossCalls | app/src/main/java/com/example/voiprecord/rpc/RetryInterceptor.java:15-50 | on one interceptor with maxRetries 3, three IOExceptions in a first call make a second call throw without calling proceed, although its first attempt would get 200 |
| Api.ChunkFilenameRoundTrip | app/src/main/java/com/example/voiprecord/utils/ApiClient.java:80 | every "%s_%d.wav" chunk name reads back as its channel and int index, even for a channel containing '_' |
| Api.SessionUrls | app/src/main/java/com/example/voiprecord/utils/ApiClient.java:102-157 | the session id is recovered from the audio and image URLs, and the two endpoints never share a URL |
| Api.MimeTypeByExtension | app/src/main/java/com/example/voiprecord/utils/ApiClient.java:138-143 | the MIME choice ignores case; any spelling of .png gives image/png, of .jpg/.jpeg image/jpeg |
| Api.MimeTypeCases | app/src/main/java/com/example/voiprecord/utils/ApiClient.java:138-143 | image/png iff the lower-cased name ends in .png; image/jpeg iff it does not but ends in .jpg or .jpeg; application/octet-stream iff it ends in none of the three |
| Api.AcceptanceRules | app/src/main/java/com/example/voiprecord/utils/ApiClient.java:51-269 | screenshot succeeds iff 2xx with a body, health iff 2xx, close iff 2xx with a body that is well-formed JSON, and it returns the decoded summary; a malformed 2xx body makes close and session creation fail; session creation succeeds iff the body (or "" for none) decodes to a non-null value; audio and session creation ignore the status |
| HistoryRecordUtil.Select | app/src/main/java/com/example/voiprecord/utils/HistoryRecordUtil.java:41-42 | listFiles(filter) returns only entries the filter accepts, never more than listed |
| HistoryRecordUtil.SelectMembers | app/src/main/java/com/example/voiprecord/utils/HistoryRecordUtil.java:105-109 | the selected entries are exactly the listed ones the filter accepts |
| HistoryRecordUtil.LeadingNumber | app/src/main/java/com/example/voiprecord/utils/HistoryRecordUtil.java:56-57 | a parsed leading number lies in the target integer range |
| HistoryRecordUtil.LeadingNumberIsPrefix | app/src/main/java/com/example/voiprecord/utils/HistoryRecordUtil.java:56-57 | the leading number is the parse of exactly the text before the first "=", whatever follows; a name without "=" is parsed whole |
| HistoryRecordUtil.LeadingNumberOfDecimal | app/src/main/java/com/example/voiprecord/utils/HistoryRecordUtil.java:56-57 | a name made of a number printed in decimal, "=" and anything has that number as its leading number, for every number in range |
| HistoryRecordUtil.AgeKeyOfDecimal | app/src/main/java/com/example/voiprecord/utils/HistoryRecordUtil.java:55-59 | the eviction sort key of a file named after an int timestamp is that timestamp, so the sort puts the oldest first |
| HistoryRecordUtil.TimeKeyOfRecordingName | app/src/main/java/com/example/voiprecord/utils/HistoryRecordUtil.java:118-122 | the history sort key of a recording name whose timestamp field is a long in decimal is that timestamp |
| HistoryRecordUtil.SortBySorted | app/src/main/java/com/example/voiprecord/utils/HistoryRecordUtil.java:55-59 | the sort yields a permutation of its input ordered by key |
| HistoryRecordUtil.DeletableMembers | app/src/main/java/com/example/voiprecord/utils/HistoryRecordUtil.java:64-66 | the files deleted are exactly the candidates whose delete succeeds |
| HistoryRecordUtil.DeletableSorted | app/src/main/java/com/example/voiprecord/utils/HistoryRecordUtil.java:61-69 | leaving out undeletable files keeps the age order |
| HistoryRecordUtil.DeletableAll | app/src/main/java/com/example/voiprecord/utils/HistoryRecordUtil.java:64-66 | when every delete succeeds every candidate is deleted |
| HistoryRecordUtil.Evict | app/src/main/java/com/example/voiprecord/utils/HistoryRecordUtil.java:61-70 | the corrected eviction loop ends, deletes the deletable files of the prefix it scanned, lowers the total by exactly their sizes, and stops below the ceiling or at the end of the list |
| HistoryRecordUtil.SweepDeletesOldestFirst | app/src/main/java/com/example/voiprecord/utils/HistoryRecordUtil.java:55-66 | files are deleted oldest first, and only listed files whose delete succeeds |
| HistoryRecordUtil.SweepBelowCeiling | app/src/main/java/com/example/voiprecord/utils/HistoryRecordUtil.java:54-61 | nothing is deleted while the total is below the ceiling |
| HistoryRecordUtil.SweepAllDeletable | app/src/main/java/com/example/voiprecord/utils/HistoryRecordUtil.java:61-70 | without failures the sweep deletes the shortest oldest-first prefix that brings the total below the ceiling, or everything |
| HistoryRecordUtil.AsWrittenStuck | app/src/main/java/com/example/voiprecord/utils/HistoryRecordUtil.java:61-70 | as written, an undeletable oldest file at or above the ceiling leaves the loop in the same state for ever |
| HistoryRecordUtil.CorrectedPassesLockedFile | app/src/main/java/com/example/voiprecord/utils/HistoryRecordUtil.java:61-70 | the corrected loop skips an undeletable oldest file and deletes the next one |
| HistoryRecordUtil.EvictAsWritten | app/src/main/java/com/example/voiprecord/utils/HistoryRecordUtil.java:61-70 | the loop as written deletes a prefix of the sorted files, lowers the total by their sizes, and either ends below the ceiling or at the end of the list, or is stuck on an undeletable head file, from which it never moves |
| HistoryRecordUtil.AsWrittenMatchesCorrectedWithoutLocks | app/src/main/java/com/example/voiprecord/utils/HistoryRecordUtil.java:61-70 | when every delete succeeds the loop as written never gets stuck and leaves what the corrected loop leaves |
| HistoryRecordUtil.CleanupPass | app/src/main/java/com/example/voiprecord/utils/HistoryRecordUtil.java:36-71 | one pass: returns on a missing folder or no .wav files, keeps everything below the ceiling, aborts on an unparsable name, otherwise runs the eviction loop as written over the age-sorted files and is Stuck exactly when it reaches an undeletable file above the ceiling |
| HistoryRecordUtil.RecordOf | app/src/main/java/com/example/voiprecord/utils/HistoryRecordUtil.java:129-150 | a name yields a record iff it has at least six "="-separated parts |
| HistoryRecordUtil.RecordsOf | app/src/main/java/com/example/voiprecord/utils/HistoryRecordUtil.java:125-154 | the scan never yields more records than names |
| HistoryRecordUtil.RecordOfRecordingName | app/src/main/java/com/example/voiprecord/utils/HistoryRecordUtil.java:128-144 | a name in the recording layout gives back the record it was made from |
| HistoryRecordUtil.RecordsOfRecordingNames | app/src/main/java/com/example/voiprecord/utils/HistoryRecordUtil.java:125-154 | scanning layout names gives back exactly their records, in order |
| HistoryRecordUtil.SortAsWritten | app/src/main/java/com/example/voiprecord/utils/HistoryRecordUtil.java:118-122 | the comparator as written never reorders the names |
| HistoryRecordUtil.AsWrittenKeepsListingOrder | app/src/main/java/com/example/voiprecord/utils/HistoryRecordUtil.java:118-123 | as written, an older recording listed first stays first |
| HistoryRecordUtil.NewestFirstSorted | app/src/main/java/com/example/voiprecord/utils/HistoryRecordUtil.java:118-122 | the corrected sort is a permutation ordered newest first |
| HistoryRecordUtil.NewestFirstReorders | app/src/main/java/com/example/voiprecord/utils/HistoryRecordUtil.java:118-122 | the corrected sort puts the newer of two recordings first |
| HistoryRecordUtil.GetAllFileRecords | app/src/main/java/com/example/voiprecord/utils/HistoryRecordUtil.java:91-158 | the history is empty for a missing folder; it is a crash iff a name after the first has no parsable leading number; otherwise it is the records of the first 50 names in listing order, since the sort as written keeps that order |
| HistoryRecordUtil.ScanRecords | app/src/main/java/com/example/voiprecord/utils/HistoryRecordUtil.java:125-154 | the scan yields the records of the names with at least six parts, in order |
| HistoryRecordUtil.Names | app/src/main/java/com/example/voiprecord/utils/HistoryRecordUtil.java:116 | the names are those of the files, in order |
| RecordService.StartedIffReady | app/src/main/java/com/example/voiprecord/VoipRecordService.java:222-272 | recording starts iff all four checks pass, and a failure names the first failed check |
| RecordService.DeliverProperties | app/src/main/java/com/example/voiprecord/VoipRecordService.java:120-136 | "stop" ends recording, "start" while recording only stores the server, "start" without a projection never starts, other commands change nothing, an intent without a command repeats the last one |
| RecordService.DeliverStarts | app/src/main/java/com/example/voiprecord/VoipRecordService.java:120-136 | after one intent the service records only if it did before or the intent could start it |
| RecordService.RecordingNeedsReadyStart | app/src/main/java/com/example/voiprecord/VoipRecordService.java:120-272 | an idle service records after a run only if some intent of the run was a start with projection and ready recorders |
| RecordService.DeliverDisplay | app/src/main/java/com/example/voiprecord/VoipRecordService.java:125-208 | after one intent the display exists only if it did before or the intent created it |
| RecordService.DisplayNeedsServer | app/src/main/java/com/example/voiprecord/VoipRecordService.java:125-208 | the screenshot display is created only by a start with a projection and a configured server |
| RecordService.VoipRecordService.constructor | app/src/main/java/com/example/voiprecord/VoipRecordService.java:54-65 | a new service is idle, with no command, no server and no display |
| RecordService.VoipRecordService.StartRecording | app/src/main/java/com/example/voiprecord/VoipRecordService.java:200-272 | the new state is Start of the old; the outcome is AlreadyRecording or the first failed check |
| RecordService.VoipRecordService.StopRecording | app/src/main/java/com/example/voiprecord/VoipRecordService.java:431-435 | recording ends; the result says whether it was running |
| RecordService.VoipRecordService.OnStartCommand | app/src/main/java/com/example/voiprecord/VoipRecordService.java:120-136 | the new state is Deliver of the old, and the answer is START_STICKY |
| RecordService.Chunk | app/src/main/java/com/example/voiprecord/VoipRecordService.java:402-407 | a read contributes `count` bytes when positive and none otherwise |
| RecordService.RecordAudio | app/src/main/java/com/example/voiprecord/VoipRecordService.java:396-423 | the file receives every positive read in order; the network receives those whose write succeeded, or nothing without a stream |
| RecordService.CapturedSkipsEmptyReads | app/src/main/java/com/example/voiprecord/VoipRecordService.java:402-403 | a read of zero or fewer bytes leaves no trace in the file |
| RecordService.SentAllIsCaptured | app/src/main/java/com/example/voiprecord/VoipRecordService.java:406-418 | when every network write succeeds the server gets exactly the file's bytes |
| RecordService.NetworkFailureKeepsFile | app/src/main/java/com/example/voiprecord/VoipRecordService.java:411-418 | a failed network write loses that chunk on the network only |
| RecordService.SentWithinCaptured | app/src/main/java/com/example/voiprecord/VoipRecordService.java:406-418 | the server never receives more than the file holds |
| FloatingControl.Refresh | app/src/main/java/com/example/voiprecord/FloatingControlService.java:263-278 | refreshing the label never changes the state |
| FloatingControl.StepTransitions | app/src/main/java/com/example/voiprecord/FloatingControlService.java:64-138 | broadcasts, audio modes and commands set the state they name and ignore anything else |
| FloatingControl.StaleLabelOnRecordingCommand | app/src/main/java/com/example/voiprecord/FloatingControlService.java:135-137 | as written, "录音中" from idle gives RECORDING with the idle label and no animation |
| FloatingControl.CorrectedKeepsLabelConsistent | app/src/main/java/com/example/voiprecord/FloatingControlService.java:64-138 | with the corrected command handler every run of events keeps the label consistent with the state |
| FloatingControl.ClampProperties | app/src/main/java/com/example/voiprecord/FloatingControlService.java:194-247 | the clamp lands in [0, max(0, hi)], fixes values already there, and is idempotent |
| FloatingControl.WrapInt32 | app/src/main/java/com/example/voiprecord/FloatingControlService.java:240-241 | int addition is exact in range and otherwise congruent modulo 2^32 |
| FloatingControl.FloatingControlService.constructor | app/src/main/java/com/example/voiprecord/FloatingControlService.java:217-218 | a new overlay is IDLE at (100, 300) with the layout's label, and the drag start (initialX, initialY) is (0, 0) |
| FloatingControl.FloatingControlService.UpdateRecordButtonUI | app/src/main/java/com/example/voiprecord/FloatingControlService.java:263-278 | the shown overlay becomes Refresh of the old one |
| FloatingControl.FloatingControlService.OnReceive | app/src/main/java/com/example/voiprecord/FloatingControlService.java:64-83 | the overlay follows the broadcast's Step and keeps a consistent label consistent |
| FloatingControl.FloatingControlService.OnModeChanged | app/src/main/java/com/example/voiprecord/FloatingControlService.java:85-98 | the overlay follows the mode's Step and keeps a consistent label consistent |
| FloatingControl.FloatingControlService.OnStartCommand | app/src/main/java/com/example/voiprecord/FloatingControlService.java:129-141 | the overlay follows the command's Step as written: "空闲中" sets IDLE then refreshes the label, "录音中" refreshes first and then sets RECORDING, anything else changes nothing; a consistent label stays consistent except when "录音中" reaches an overlay not already recording; the answer is START_STICKY |
| FloatingControl.StepConsistent | app/src/main/java/com/example/voiprecord/FloatingControlService.java:64-138 | every handler as written keeps a consistent label consistent, except the "录音中" command on an overlay that is not already recording |
| FloatingControl.FloatingControlService.EnsureWithinScreenBounds | app/src/main/java/com/example/voiprecord/FloatingControlService.java:179-198 | an unmeasured view is left alone; otherwise each coordinate is clamped onto the screen |
| FloatingControl.FloatingControlService.OnTouchDown | app/src/main/java/com/example/voiprecord/FloatingControlService.java:227-233 | the drag starts from the current position |
| FloatingControl.FloatingControlService.OnTouchMove | app/src/main/java/com/example/voiprecord/FloatingControlService.java:234-250 | the new position is the start plus the offset in int arithmetic, clamped on screen |
| FloatingControl.DragThenBoundsCheck | app/src/main/java/com/example/voiprecord/FloatingControlService.java:234-247 | a move inside the screen lands exactly where the finger went, and a later bounds check changes nothing |
| Adapter.BindShowsRecord | app/src/main/java/com/example/voiprecord/RecordAdapter.java:69-74 | a row shows every field of its record, so different records give different rows |
| Adapter.RecordAdapter.constructor | app/src/main/java/com/example/voiprecord/RecordAdapter.java:20 | the list starts empty |
| Adapter.RecordAdapter.SetData | app/src/main/java/com/example/voiprecord/RecordAdapter.java:23-29 | the list becomes the given records, or empty for null |
| Adapter.RecordAdapter.GetItemCount | app/src/main/java/com/example/voiprecord/RecordAdapter.java:48-50 | the count is the list's length |
| Adapter.RecordAdapter.OnBindViewHolder | app/src/main/java/com/example/voiprecord/RecordAdapter.java:40-45 | row `position` shows record `position` |
| Adapter.ShowRecords | app/src/main/java/com/example/voiprecord/RecordAdapter.java:23-50 | after setData the list shows exactly the records, in order, one row each |

## Left out

- Threads and concurrency: the servers' handler, playback and console threads, the client's capture and screenshot threads, and the cleanup thread's period. Each handler is modelled as running alone.
- Android, Python library and I/O calls are not modelled as objects: recorders, media projection, sockets, pyaudio, matplotlib, OpenCV, Gson, SharedPreferences and notifications. What they report is a parameter.
- UTF-8: usernames are handled as bytes. `username.decode('utf-8')` failing on invalid bytes is not modelled.
- The JPEG capture and compression pipeline and `cv2.imdecode`/`imshow`: screenshots are opaque byte strings.
- HttpUrl's percent-encoding of path segments, and OkHttp's request and multipart serialization.
- `saveFileToDownloads`, `formatTimestamp` (which nothing calls) and the date formatting of file names.
- The `MAX_FOLDER_SIZE_BYTES`, `CLEAN_MEMORY_FREQUENCY` and `ACTION_*` constants are defined outside the modelled files. The ceiling is a parameter and the actions are datatype constructors.
- HistoryRecordUtil.CleanupPass: the `long` size total is unbounded, so its overflow is not modelled. Each file's size is read once rather than re-read at delete time.
- Text.ParseJavaInteger: only the ASCII digits '0'-'9' are accepted. Java's `Integer.parseInt` and `Long.parseLong` also accept every other Unicode decimal digit (`Character.digit`). A file name whose leading number uses such digits is therefore unparsable here but parsable in Java, which changes which names abort a cleanup pass or crash the history scan.
- Text.IntToDecimal: always writes ASCII digits. `String.format("%d")` writes the default locale's digits, so the model assumes a locale with Latin digits.
- HistoryRecordUtil.SortBy: stability and TimSort's exact comparison sequence are not stated. Only the key order and the permutation are proved, plus the exact set of names whose parse can throw.
- RecordService.RecordAudio: a file `IOException` ending the loop is not modelled. Each network write either delivers the whole chunk or nothing.
- RecordService.VoipRecordService.StartRecording: the outer `catch` that calls `stopSelf()` is not modelled, and neither are the threads and sockets it starts.
- FloatingControl.FloatingControlService.OnTouchMove: touch coordinates are floats in the source. The model takes the already truncated integer offsets, and it requires display and view sizes to be non-negative, as Android reports them.
- FloatingControl.FloatingControlService.EnsureWithinScreenBounds: the screen size is required to be non-negative, as Android reports it.
- FloatingControl.FloatingControlService.OnStartCommand: a null intent (a sticky restart) would throw in the source and is not modelled.
- Null `recordingAnimation` (a drawable that is not animated) is not modelled: the model assumes the animation exists.
- Rpc.RetryInterceptor: the source never attaches the interceptor to `ApiClient`'s client. It is modelled on its own, and its response closing is not modelled.
- Api: `createNewCallSession`, `uploadAudioChunk`, `postHealthStatusSync` and `closeCallSessionSync` wrap failures in `RuntimeException`, while a `JsonSyntaxException` leaves `closeCallSessionSync` unwrapped. Each is modelled as a `Failure` value naming its cause; the exception classes are not distinguished.

## Findings

| source | as written | input that shows it | evidently intended | confidence | as-written member | corrected member |
|---|---|---|---|---|---|---|
| app/src/main/java/com/example/voiprecord/utils/HistoryRecordUtil.java:61-70 | a failed delete leaves the file at the head of the list and the total unchanged, so the loop retries the same file without end | an oldest .wav file that cannot be deleted while the folder is at or above the ceiling | skip the undeletable file and go on with the next oldest | not executed | HistoryRecordUtil.AsWrittenStuck | HistoryRecordUtil.Evict |
| app/src/main/java/com/example/voiprecord/utils/HistoryRecordUtil.java:118-122 | the comparator parses `a` twice, so every comparison answers 0 and the names keep their listing order | names "1=a" then "2=b": the newer "2=b" stays second | sort by the leading number, newest first | not executed | HistoryRecordUtil.AsWrittenKeepsListingOrder | HistoryRecordUtil.SortNewestFirst |
| app/src/main/java/com/example/voiprecord/rpc/RetryInterceptor.java:15-50 | `retryCount` is an instance field never reset, so the budget is shared by every request for the interceptor's whole life | maxRetries 3: a call with three IOExceptions, then a call whose first attempt gets 200, which throws without trying | a fresh budget for each request | not executed | Rpc.SharedCounterExample | Rpc.PerRequest |
| app/src/main/java/com/example/voiprecord/FloatingControlService.java:135-137 | the "录音中" command refreshes the label before setting RECORDING, so the overlay shows the old label | an idle overlay showing "空闲中" receives the command "录音中": the state is RECORDING, the label is "空闲中" and there is no animation | set the state, then refresh, as the "空闲中" branch does | not executed | FloatingControl.StaleLabelOnRecordingCommand | FloatingControl.CorrectedKeepsLabelConsistent |
