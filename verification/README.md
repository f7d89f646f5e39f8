# tyny — live transcription and translation rooms, modelled in Dafny

tyny streams microphone (or file) audio from a browser, detects speech with the Silero
voice-activity model, cuts the audio into utterances, transcribes them (in the browser
with Whisper or on the server), and fans translations out to the listeners of a room
over server-sent events. This project models the logic at the core of that pipeline and
proves properties about it:

- **Audio worklets** (`CarryOutlet`, `TruncatingOutlet`, `SampleChunker`, `Downsampler`):
  how each variant buffers render blocks into fixed-size chunks, what it posts, and
  what it loses. Each variant is stated against the audio it receives.
- **Voice-activity detection** (`Silero`, `QueuedWorker`, `DroppingWorker`, `Vad`): the
  two web workers, which queue chunks or drop them, and the in-process detector, which
  fails open. The neural model is an abstract scorer, i.e. a function from inputs to
  a run result.
- **Utterance segmentation** (`HysteresisSegmenter`, `WindowSegmenter`): the two
  segmenters. One cuts after a run of trailing silence and keeps that silence. The
  other cuts fixed windows.
- **Encodings** (`Wav`, `Sse`): the 44-byte WAV header with 16-bit PCM samples, which
  reads back field by field, and the server-sent-event frame, which a parser
  following the event-stream format of the WHATWG HTML Living Standard (section 9.2.5)
  reads back as the one event that was sent.
- **Server** (`Transcript`, `Rooms`, `Languages`): the prompt queue and the
  committed/uncommitted transcription buffer of the websocket endpoint. Also room
  creation, subscription, translation fan-out, and the deduplicated language list.
- **Client state** (`Streaming` and the five hook modules, `TokenStore`, `TextStore`,
  `RoomEvents`, `Subscription`, `TTEvents`, `Selections`, `Toolbar`,
  `LanguageCombobox`, `MultiSelect`):
  - start/stop/toggle of each transcription hook, modelled as a streaming
    interpreter over the steps of `startStreaming`, with a set of calls that throw;
  - the utterance stores;
  - the room subscribers;
  - the selection widgets.

Every `await` is treated as one atomic step. Messages between workers and the main
thread become events that a pure step function consumes. Runs over sequences of events
are folds, and the proofs relate a fold to an independent description of its result.

## Model

| member | source | states |
|---|---|---|
| HysteresisSegmenter.DefaultConfig | frontend/app/lib/utterance-segmenter.ts:13-21 | the default speech threshold is 0.8 and the default trailing-silence window is 0.7 s of audio at 16 kHz |
| HysteresisSegmenter.Process | frontend/app/lib/utterance-segmenter.ts:23-49 | an emitted utterance is exactly the old buffer plus the chunk and contains speech; the retained buffer is a suffix of the input at least one window long |
| HysteresisSegmenter.TriggerCharacterised | frontend/app/lib/utterance-segmenter.ts:34-47 | the segmenter fires iff the trailing silence reaches the window; it emits iff the buffer held speech; the retained buffer is exactly that trailing silence |
| HysteresisSegmenter.NoTriggerAppends | frontend/app/lib/utterance-segmenter.ts:25-37 | below the trigger the chunk is only appended |
| HysteresisSegmenter.RunSplit | frontend/app/lib/utterance-segmenter.ts:23-49 | running two sequences of chunks is running their concatenation |
| HysteresisSegmenter.SilenceNeverEmits | frontend/app/lib/utterance-segmenter.ts:29-47 | from any segmenter without pending speech, silent input never produces an utterance and leaves no pending speech; a buffer shorter than the window stays shorter |
| HysteresisSegmenter.SilenceAfterEmission | frontend/app/lib/utterance-segmenter.ts:40-47 | just after an emission at least a window of silence is kept with no pending speech, and further silence emits nothing |
| HysteresisSegmenter.BufferIsRecentInput | frontend/app/lib/utterance-segmenter.ts:25-47 | the buffer is always a suffix of everything fed so far |
| HysteresisSegmenter.SpeechRun | frontend/app/lib/utterance-segmenter.ts:25-32 | from a fresh segmenter, k speech chunks emit nothing; the buffer holds all 512k samples, marked as speech up to its end |
| HysteresisSegmenter.SilenceAfterSpeech | frontend/app/lib/utterance-segmenter.ts:34-44 | after speech, silence shorter than the window emits nothing; it is appended and the last speech position stays put |
| HysteresisSegmenter.ReferenceScenario | frontend/app/lib/utterance-segmenter.ts:13-49 | 20 speech chunks and 21 silent chunks of 512 emit nothing; the 22nd silent chunk emits one utterance of 21504 samples and keeps 11264 |
| WindowSegmenter.DefaultConfig | rrfe/app/lib/utterance-segmenter.ts:10-16 | the default speech threshold is 0.8 and the default window is 0.7 s of audio at 16 kHz |
| WindowSegmenter.Process | rrfe/app/lib/utterance-segmenter.ts:25-48 | the buffer never exceeds the window; the segmenter fires iff the window would be exceeded, hands out the whole buffer plus the chunk, and resets |
| WindowSegmenter.Partition | rrfe/app/lib/utterance-segmenter.ts:25-48 | the windows handed out, followed by what remains buffered, are exactly the audio fed in, in order |
| WindowSegmenter.WindowBounds | rrfe/app/lib/utterance-segmenter.ts:40-47 | every window handed out is longer than the window size, and the buffer never exceeds it |
| WindowSegmenter.UtterancesAreLong | rrfe/app/lib/utterance-segmenter.ts:40-45 | the utterances taken from windows longer than the window size are themselves longer than it |
| WindowSegmenter.StepTracks | rrfe/app/lib/utterance-segmenter.ts:36-45 | a chunk that fits is buffered with its score; a chunk that fires hands out the buffered audio plus the chunk, emitted exactly when some chunk in it scored at or above the threshold |
| WindowSegmenter.SilenceNeverEmits | rrfe/app/lib/utterance-segmenter.ts:36-45 | silent input is never emitted |
| CarryOutlet.Create | frontend/public/worklets/outlet.js:2-9 | defaults: chunks of 128, stride 3, downsampling off |
| CarryOutlet.DownsampleLength | frontend/public/worklets/outlet.js:59-65 | downsampling keeps floor(n/stride) samples |
| CarryOutlet.DownsamplePicks | frontend/public/worklets/outlet.js:59-65 | the j-th kept sample is input sample j·stride |
| CarryOutlet.Process | frontend/public/worklets/outlet.js:11-57 | every posted chunk has exactly the output size; channel 0 is passed through; input without channels, or a faulted worklet, changes nothing |
| CarryOutlet.Feed | frontend/public/worklets/outlet.js:18-53 | at most one chunk of exactly the output size is posted, and while the worklet runs the chunks followed by the new pending samples are the old pending samples plus the block |
| CarryOutlet.SmallBlocksNeverFault | frontend/public/worklets/outlet.js:26-35 | blocks no larger than the chunk never overflow the typed-array copy |
| CarryOutlet.Lossless | frontend/public/worklets/outlet.js:11-57 | for blocks no larger than a chunk, the posted chunks followed by the pending samples are exactly the audio received, in order |
| TruncatingOutlet.Collect | rrfe/public/worklets/outlet.js:18-38 | a buffer is posted iff the pending and incoming samples reach the size; it has exactly the size; what is posted or kept is the pending samples plus the part of the block that fitted |
| TruncatingOutlet.Process | rrfe/public/worklets/outlet.js:9-41 | channel 0 is passed through, a posted buffer has exactly the output size, and input without channels changes nothing |
| TruncatingOutlet.Truncation | rrfe/public/worklets/outlet.js:18-38 | the posted frames followed by the pending samples are exactly the part of each block that found room, in order |
| TruncatingOutlet.TakenArePrefixes | rrfe/public/worklets/outlet.js:18-26 | the part kept from each block is a prefix of that block, so only block tails are lost |
| TruncatingOutlet.FrameIsContiguous | rr-frontend/public/worklets/outlet.js:9-34 | a posted frame is one contiguous run of input samples |
| TruncatingOutlet.NoDropWhenAligned | rrfe/public/worklets/outlet.js:18-38 | when the block size divides the output size, nothing is dropped |
| TruncatingOutlet.AlignedLossless | rrfe/public/worklets/outlet.js:9-41 | with aligned blocks, the posted frames plus the pending samples are the input |
| SampleChunker.ChunkWorklet | rrfe/public/chunker.js:4 | the chunker's buffer holds 512 samples |
| SampleChunker.AudioProcessor | rrfe/public/audio-processor.js:5 | the processor's buffer holds a tenth of a second at the context rate |
| SampleChunker.Process | rrfe/public/chunker.js:9-28 | the chunks posted plus the buffer are the input; the number posted is (index + n) / size; input without channels changes nothing; the node stays alive |
| SampleChunker.ProcessAll | rrfe/public/audio-processor.js:10-31 | over many blocks, the chunks posted followed by the remainder are exactly the input; every chunk is full and the remainder is shorter than one |
| SampleChunker.PushLossless | rrfe/public/chunker.js:14-25 | pushing one sample keeps posted chunks plus buffer equal to the input |
| Downsampler.KeptLength | rrfe/public/worklets/downsampler.js:16-22 | a block of n samples keeps ceil(n/3) of them |
| Downsampler.KeptAt | rrfe/public/worklets/downsampler.js:16-22 | the j-th kept sample is block sample 3j |
| Downsampler.Process | rrfe/public/worklets/downsampler.js:9-32 | the block is passed through; a buffer is posted iff the index reaches the size, truncated to the size, and kept samples past it are lost |
| Silero.Feed | nuxt-fe/assets/workers/silero.js:52-62 | a chunk is fed as a [1, length] tensor with the current state and rate 16000 |
| Silero.ReadScore | nuxt-fe/assets/workers/silero.js:64-77 | a run is read iff it resolved with both outputs and a state of 256 values; the score is the first output value |
| QueuedWorker.Init | nuxt-fe/assets/workers/silero.js:5-12 | a fresh worker has a zero state, an empty queue and posts `ready` |
| QueuedWorker.Step | nuxt-fe/assets/workers/silero.js:42-141 | the worker with the reset fix of the findings table: a chunk sent during a run only joins the queue; a reset zeroes the state and touches nothing else; the scorer gets the job's chunk with the current state; only a reset or a run changes the state |
| QueuedWorker.StepValid | nuxt-fe/assets/workers/silero.js:42-93 | for the worker as written and for the corrected one, the flag is set exactly while a job is in flight, a job waits only while one is, every job is started and answered in enqueue order, and each answer carries its job's chunk and number |
| QueuedWorker.Fifo | nuxt-fe/assets/workers/silero.js:90-93 | in every run from a fresh worker, as written or corrected, the i-th result answers the i-th enqueued chunk with its chunk and sequence number |
| QueuedWorker.StallIsPermanent | nuxt-fe/assets/workers/silero.js:46-49 | as written or corrected, once getSession throws, the flag stays set, no further result is posted, and the queue only grows |
| QueuedWorker.AsWrittenDiffersOnlyInState | nuxt-fe/assets/workers/silero.js:64-68 | the worker as written and the corrected one take every step to the same queue, flag, phase, posted messages and job logs; they differ only in the model state and the reset marker |
| QueuedWorker.ResetSurvivesInFlightRun | nuxt-fe/assets/workers/silero.js:113-119 | with the correction, a reset during a run is not undone when the run settles |
| QueuedWorker.StepAsWritten | nuxt-fe/assets/workers/silero.js:64-68 | as written, a settling run installs its stateN whatever happened meanwhile |
| QueuedWorker.ResetUndoneAsWritten | nuxt-fe/assets/workers/silero.js:113-119 | as written, a reset sent while a chunk is scored is overwritten by the run's stateN |
| DroppingWorker.Accept | rrfe/app/workers/silero.js:44-52 | a chunk is accepted and `start` posted only when no run is in flight; otherwise it is dropped and nothing changes |
| DroppingWorker.Step | rrfe/app/workers/silero.js:44-145 | a reset zeroes the state only; the scorer gets the chunk with the current state; a failed getSession stalls the worker with the flag set |
| DroppingWorker.Ordered | rrfe/app/workers/silero.js:44-93 | there are no more results than `start` messages or accepted chunks, and the i-th completed result carries the i-th accepted chunk |
| DroppingWorker.StallIsPermanent | rrfe/app/workers/silero.js:49-52 | once getSession throws, the worker stays stalled and accepts and serves nothing more |
| Vad.Create | frontend/app/lib/vad.ts:17-60 | a detector starts with a defined all-zero state |
| Vad.ResetState | frontend/app/lib/vad.ts:62-64 | a reset installs the zero state |
| Vad.Process | frontend/app/lib/vad.ts:66-119 | the scorer gets the chunk as [1, length] with the state and rate 16000; a failed run answers 0 and changes nothing; a full run answers the first output and takes the new state; an undefined state rejects |
| Vad.FailOpen | frontend/app/lib/vad.ts:103-118 | a failed call answers 0, and the rest of the run is as if the chunk never came |
| Vad.FailingScorer | frontend/app/lib/vad.ts:103-118 | with a scorer that always fails, every answer is 0 and the detector never changes |
| Vad.StateStaysDefined | frontend/app/lib/vad.ts:89-102 | a scorer that always returns a state keeps every call answering |
| Wav.Float32ArrayToWav | frontend/utils/audio-utils.ts:2-51 | the file is 44 + 2n bytes |
| Wav.HeaderReadsBack | frontend/utils/audio-utils.ts:15-40 | the RIFF, fmt and data fields read back as mono 16-bit PCM at the given rate with sizes 36 + 2n and 2n |
| Wav.SamplesReadBack | frontend/utils/audio-utils.ts:43-48 | sample i reads back from bytes 44 + 2i as the clipped 16-bit value of input i |
| Wav.Le16RoundTrip | frontend/utils/audio-utils.ts:15-40 | a 16-bit little-endian field reads back |
| Wav.Le32RoundTrip | frontend/utils/audio-utils.ts:15-40 | a 32-bit little-endian field reads back |
| Wav.Int16RoundTrip | frontend/utils/audio-utils.ts:43-48 | a signed 16-bit sample reads back |
| Wav.PcmValueShape | frontend/utils/audio-utils.ts:43-48 | 1 maps to 32767, -1 to -32768 and 0 to 0, and the mapping is monotone |
| Wav.WriteString | frontend/utils/audio-utils.ts:53-57 | one byte per character, its code modulo 256 |
| Wav.ConcatenateArrays | frontend/utils/audio-utils.ts:59-74 | the result is the arrays laid end to end, with total length the sum of the lengths |
| Wav.Concatenate2 | rrfe/app/lib/audio-utils.ts:59-67 | two arrays laid end to end |
| Wav.ToInt16Accuracy | frontend/utils/audio-utils.ts:88-97 | within [-1, 1] the value is x·32767 rounded to within half a step; above 1 it is 32767 and below -1 at most -32767 |
| Wav.ConvertToInt16Array | frontend/utils/audio-utils.ts:88-97 | the converted array has the input's length, and each element is that sample's value |
| Transcript.Insert | backend/app/routers/websocket.py:20-27 | the queue holds the last 200 words inserted, and the prompt is their text |
| Transcript.PromptIsRecentText | backend/app/routers/websocket.py:20-27 | the prompt is a suffix of the old queue's text followed by the new words' text |
| Transcript.NewBuffer | backend/app/routers/websocket.py:33-36 | a new buffer has confirmed time 0, nothing committed and no hypothesis |
| Transcript.UncommittedText | backend/app/routers/websocket.py:42-44 | empty without a hypothesis, otherwise the text of its words |
| Transcript.CommittedTextGrows | backend/app/routers/websocket.py:38-40 | committing words only extends the committed text |
| Transcript.Fresh | backend/app/routers/websocket.py:52 | a word is kept iff it is among the input words and starts at or after the given time, and the result is no longer than the input |
| Transcript.FreshAppend | backend/app/routers/websocket.py:52 | filtering a concatenation is concatenating the filtered parts, so words keep their order and multiplicity |
| Transcript.FreshSingle | backend/app/routers/websocket.py:52 | a single word is kept exactly when it starts at or after the time |
| Transcript.FreshTwice | backend/app/routers/websocket.py:52 | filtering by the confirmed time twice is filtering once |
| Transcript.Update | backend/app/routers/websocket.py:46-73 | the first result is stored unfiltered; later ones commit the longest prefix that agrees with the previous result; the confirmed time never decreases; every uncommitted word starts at or after it |
| Rooms.NewRoom | backend/app/services/rooms.py:40-49 | a new room starts at utterance 0 with no subscribers |
| Rooms.Format4Injective | backend/app/services/rooms.py:56-64 | distinct draws give distinct four-digit room ids |
| Rooms.CreateRoom | backend/app/services/rooms.py:56-64 | it fails iff every draw is taken; otherwise the id is one of the draws, not yet in use, and only that room is added |
| Rooms.CreateRoomSucceeds | backend/app/services/rooms.py:56-64 | with a free id among the draws, creation succeeds |
| Rooms.Subscribe | backend/app/services/rooms.py:66-90 | an unknown room is NotFound; otherwise the queue joins the transcriptions unless asked not to, joins each listed language's translations, and other rooms are unchanged |
| Rooms.AddQueueAllEffect | backend/app/services/rooms.py:81-90 | after subscribing, the queue is listed under every requested language and other languages are unchanged |
| Rooms.SubscribedLanguageCodes | backend/app/services/rooms.py:92-94 | KeyError iff the room is unknown; otherwise the room's languages in first-subscription order, exactly those with queues |
| Rooms.PushTranslationMessages | backend/app/services/rooms.py:96-104 | KeyError iff the room is unknown; otherwise each message goes to every queue of its language |
| Rooms.FanOutPerQueue | backend/app/services/rooms.py:96-104 | each queue receives, in order, each message of its language once per subscription |
| Rooms.FanOutReceived | backend/app/services/rooms.py:100-104 | a queue listed k times receives the message k times |
| Sse.CreateSseResponse | backend/app/lib/sse.py:5-8 | the frame starts with the event field and ends with the blank line that dispatches it |
| Sse.FrameLines | backend/app/lib/sse.py:5-8 | split at line feeds, the frame is exactly the event line, the data line and two empty lines |
| Sse.RoundTrip | backend/app/lib/sse.py:5-8 | for a single-line payload, an event-stream parser reads the frame back as the one event with that type and payload |
| Languages.Convert | backend/app/services/translation.py:135 | the name is kept and the code is the lower-cased provider code, empty when absent |
| Languages.FirstIndexIsFirst | backend/app/services/translation.py:126-138 | the index found is the first occurrence of the name |
| Languages.SupportedLanguages | backend/app/services/translation.py:118-140 | the result keeps the first entry for each name in input order, drops empty names, and no name appears twice |
| Streaming.ExecTrace | frontend/app/hooks/useRemoteTranscription.ts:69-143 | the states recorded are exactly those set by the steps before the first throw |
| Streaming.StartSucceeds | frontend/app/hooks/useRemoteTranscription.ts:69-143 | when no call throws, the whole body runs and records all its states |
| Streaming.StartFails | frontend/app/hooks/useRemoteTranscription.ts:130-142 | when a call throws, the steps before it run, then the handler |
| Streaming.CatchReleases | frontend/app/hooks/useRemoteTranscription.ts:130-142 | the handler ends in error with the media released and the socket dropped |
| Streaming.StartOutcome | rrfe/app/hooks/useTranscription.ts:62-102 | without a throw the body's states are recorded; with one the start ends in error with the media released, after its first state |
| Streaming.OnVadResult | rrfe/app/hooks/useTranscription.ts:176-184 | speaking iff the probability reaches the threshold; the full buffer grows by the chunk; nothing else changes |
| SocketStreaming.StartStreaming | frontend/app/hooks/useRemoteTranscription.ts:69-143 | connecting, then streaming when nothing throws; on a throw, error with media and socket released; sequence numbers are kept |
| SocketStreaming.Stop | frontend/app/hooks/useRemoteTranscription.ts:145-179 | the socket is closed, the full buffer cleared and a reset sent; chunk numbering and outstanding chunks are kept |
| SocketStreaming.OnChunk | frontend/app/hooks/useRemoteTranscription.ts:111-125 | the chunk gets the next sequence number, becomes outstanding, and is sent for inference |
| SocketStreaming.OnVadMessage | frontend/app/hooks/useRemoteTranscription.ts:210-241 | the scored chunk is no longer outstanding, and an emitted utterance is sent only when the socket is open |
| SocketStreaming.OnSocketMessage | frontend/app/hooks/useRemoteTranscription.ts:76-88 | a transcription message appends one transcription; other messages change nothing |
| SocketStreaming.OnSocketError | frontend/app/hooks/useRemoteTranscription.ts:90-93 | a socket error records the error state |
| RemoteRoomStreaming.DefaultInit | rr-frontend/app/hooks/useRemoteTranscription.ts:44 | a fresh hook with the default speech threshold 0.5 |
| RemoteRoomStreaming.StartStreaming | rr-frontend/app/hooks/useRemoteTranscription.ts:93-138 | connecting, warming up, then streaming; on a throw, error with media released |
| RemoteRoomStreaming.MicOnlyWithDevice | rr-frontend/app/hooks/useRemoteTranscription.ts:93-138 | the microphone is requested only when a device id is given |
| RemoteRoomStreaming.Stop | rr-frontend/app/hooks/useRemoteTranscription.ts:140-153 | idle, media released, full buffer cleared, reset sent; the segmenter input is kept |
| RemoteRoomStreaming.FeedAppends | rr-frontend/app/hooks/useRemoteTranscription.ts:56-83 | the full buffer grows by exactly the scored chunks, in order, and the stream state is unchanged |
| PostAudioStreaming.DefaultInit | nuxt-fe/composables/usePostAudio.ts:41 | a fresh hook with the default speech threshold 0.5 |
| PostAudioStreaming.FileFirst | nuxt-fe/composables/usePostAudio.ts:105-123 | with a file the microphone is never requested |
| PostAudioStreaming.StartStreaming | nuxt-fe/composables/usePostAudio.ts:97-146 | connecting, starting up, then streaming; on a throw, error with media released |
| PostAudioStreaming.Stop | nuxt-fe/composables/usePostAudio.ts:148-163 | idle and not speaking, with media released and a reset sent |
| PostAudioStreaming.OnVadMessage | nuxt-fe/composables/usePostAudio.ts:60-87 | speaking iff the probability reaches the threshold; the chunk is appended and handed to the segmenter |
| LocalStreaming.MicOnlyWithDevice | frontend/app/hooks/useLocalTranscription.ts:177-216 | the microphone is requested only when a device id is given |
| LocalStreaming.DefaultConfig | frontend/app/hooks/useLocalTranscription.ts:72-73 | the hook hands the segmenter a threshold of 0.5, below the segmenter's own 0.8, and the segmenter's default 0.7 s window |
| LocalStreaming.StartStreaming | frontend/app/hooks/useLocalTranscription.ts:177-216 | streaming iff no step throws; error with media released otherwise |
| LocalStreaming.Stop | frontend/app/hooks/useLocalTranscription.ts:218-239 | idle, media released, reset sent |
| LocalStreaming.FeedSegments | frontend/app/hooks/useLocalTranscription.ts:271-282 | the recognition worker receives exactly the utterances the segmenter emits on the scored chunks |
| LocalStreaming.LoadingUntilBothReady | frontend/app/hooks/useLocalTranscription.ts:76 | models count as loading until both workers have reported ready, in either order |
| LocalStreaming.WhisperFeedReplays | frontend/app/hooks/useLocalTranscription.ts:90-120 | the store after the worker's messages is the token store replaying their tokens; with no target language nothing goes to the translator |
| LocalStreaming.OnTranslatorMessage | frontend/app/hooks/useLocalTranscription.ts:152-167 | a translation token is added to the token store; ready marks the translator loaded |
| WhisperStreaming.DefaultConfig | rrfe/app/hooks/useTranscription.ts:25-28 | the hook hands the segmenter a threshold of 0.5, below the segmenter's own 0.8, and the segmenter's default 0.7 s window |
| WhisperStreaming.AlwaysMic | rrfe/app/hooks/useTranscription.ts:62-102 | the microphone is always requested |
| WhisperStreaming.StartStreaming | rrfe/app/hooks/useTranscription.ts:62-102 | a start that succeeds holds the media and streams; one that fails ends in error with media released |
| WhisperStreaming.Stop | rrfe/app/hooks/useTranscription.ts:104-117 | idle, media released, buffer cleared, reset sent; the segmenter is kept |
| WhisperStreaming.OnVadMessage | rrfe/app/hooks/useTranscription.ts:158-191 | the chunk is appended and goes to the segmenter; an emitted window is posted to the recognition worker |
| WhisperStreaming.FeedSegments | rrfe/app/hooks/useTranscription.ts:143-191 | the recognition worker receives exactly the windows the segmenter emits, in order |
| WhisperStreaming.OnWhisperMessage | rrfe/app/hooks/useTranscription.ts:199-208 | a `complete` appends exactly one transcription |
| WhisperStreaming.WhisperFeedAppends | rrfe/app/hooks/useTranscription.ts:193-211 | the list only grows, by one entry per `complete` |
| TokenStore.AddTranscriptionToken | frontend/app/stores/utterance.ts:39-55 | a new id gets its first token; a known id gets the token appended; other utterances are unchanged |
| TokenStore.AddTranslationToken | frontend/app/stores/utterance.ts:56-72 | an unknown id changes nothing; a known id gets the token appended to its translation |
| TokenStore.ReplayFromEmpty | frontend/app/stores/utterance.ts:39-72 | an id is present iff a transcription token was sent for it, and its transcription is exactly those tokens in order |
| TokenStore.ClearForgets | frontend/app/stores/utterance.ts:73 | a clear forgets everything before it |
| TextStore.PutTranscription | rr-frontend/app/stores/utterance.ts:36-49 | a new id gets no translations; a known id keeps its translations; other utterances are unchanged |
| TextStore.PutTranslation | nuxt-fe/stores/utterances.ts:34-48 | an unknown id changes nothing; otherwise only that language's text changes |
| TextStore.PutTranscriptionLastWins | rr-frontend/app/stores/utterance.ts:36-49 | the later of two transcription puts wins |
| TextStore.PutTranslationLaws | rr-frontend/app/stores/utterance.ts:50-66 | the later put of one language wins; puts for different languages commute |
| TextStore.Clear | rr-frontend/app/stores/utterance.ts:67 | every utterance is forgotten |
| TextStore.ClearForgets | nuxt-fe/stores/utterances.ts:50-54 | after a clear, translations are ignored and a transcription put gives the same one-entry store whatever was held before |
| TextStore.TranslationNeedsTranscription | nuxt-fe/stores/utterances.ts:19-48 | a translation that arrives before its transcription is lost |
| RoomEvents.LanguageQueryAsWritten | rr-frontend/app/hooks/useSubscription.ts:46-48 | with a list it agrees with the corrected query |
| RoomEvents.ValuesOfParams | rr-frontend/app/hooks/useSubscription.ts:46-48 | the parameters read back give the codes |
| RoomEvents.QueryRoundTrip | backend/app/routers/rooms.py:72 | for codes free of `&`, `+`, `%` and `#`, the server reads back exactly the requested codes, in order |
| RoomEvents.UndefinedQuery | rr-frontend/app/hooks/useSubscription.ts:46-52 | without a list, the query is the text "undefined" instead of empty |
| Subscription.Start | rr-frontend/app/hooks/useSubscription.ts:42-77 | connected once the source is constructed on the events URL with the query as written ("undefined" without a list), error if construction throws |
| Subscription.Stop | rr-frontend/app/hooks/useSubscription.ts:79-82 | the source is closed and kept |
| Subscription.OnEvent | rr-frontend/app/hooks/useSubscription.ts:55-68 | an event on an open source updates the store by its type; after close nothing changes |
| Subscription.StartThenToggle | rr-frontend/app/hooks/useSubscription.ts:34-82 | a start followed by a toggle ends disconnected with the as-written source closed, and later events change nothing |
| TTEvents.Connect | nuxt-fe/composables/useTTEvents.ts:33-80 | connecting until the source opens; error if construction throws |
| TTEvents.OnSourceEvent | nuxt-fe/composables/useTTEvents.ts:48-75 | open connects, error errors, payloads update the store |
| TTEvents.Disconnect | nuxt-fe/composables/useTTEvents.ts:82-86 | the source is closed and dropped |
| TTEvents.Toggle | nuxt-fe/composables/useTTEvents.ts:24-31 | a toggle ends disconnected without a source exactly when a source existed |
| LocalStreaming.OnWhisperMessage | frontend/app/hooks/useLocalTranscription.ts:90-120 | a token update adds it to the token store; a complete goes to the translator only when a target language is set; ready marks the recogniser loaded |
| TTEvents.ToggleAfterErrorDisconnects | nuxt-fe/composables/useTTEvents.ts:24-31 | after a failed connection, a toggle disconnects instead of retrying |
| Selections.Toggle | frontend/app/components/ui/multi-select.tsx:58-70 | the value's membership flips and every other value keeps its membership; a new value goes last |
| Selections.ToggleDistinct | frontend/app/components/ui/multi-select.tsx:58-70 | toggling keeps a selection free of repeats and changes its length by one |
| Selections.ToggleTwice | frontend/app/components/ui/multi-select.tsx:58-70 | toggling twice restores the selection's members |
| Toolbar.Init | rrfe/app/hooks/ToolbarContext.tsx:50-55 | microphone mode, no device, the default language and no file |
| Toolbar.Reduce | rrfe/app/hooks/ToolbarContext.tsx:17-33 | the written field takes the payload and every other field is kept |
| Toolbar.ReduceLaws | rrfe/app/hooks/ToolbarContext.tsx:17-33 | the reducer is idempotent, the later of two writes to a field wins, and writes to different fields commute |
| LanguageCombobox.Options | rr-frontend/app/components/LanguageCombobox.tsx:37-40 | one option per language, labelled with its name |
| LanguageCombobox.ValueOfLabel | rr-frontend/app/components/LanguageCombobox.tsx:74-88 | finds the code of the first option with that label |
| LanguageCombobox.LabelOfValue | rr-frontend/app/components/LanguageCombobox.tsx:52-60 | finds the label of the first option with that code |
| LanguageCombobox.OnSelect | rr-frontend/app/components/LanguageCombobox.tsx:74-88 | an unknown label or an empty code changes nothing; otherwise the code is toggled and the popover closes |
| LanguageCombobox.SelectTwice | rr-frontend/app/components/LanguageCombobox.tsx:74-88 | selecting an unselected language twice gives back the original list, closing the popover each time |
| LanguageCombobox.TriggerTexts | rr-frontend/app/components/LanguageCombobox.tsx:52-60 | the trigger shows the placeholder, the label of a known value, or nothing |
| MultiSelect.Dedupe | frontend/app/components/ui/multi-select.tsx:52-56 | the first occurrence of each element, in order |
| MultiSelect.DedupeDistinct | frontend/app/components/ui/multi-select.tsx:52-56 | a list without repeats is its own set |
| MultiSelect.Shown | frontend/app/components/ui/multi-select.tsx:84 | the shown selection has no repeats and, when values are controlled, holds exactly them |
| MultiSelect.ToggleValueAsWritten | frontend/app/components/ui/multi-select.tsx:58-70 | as written, the reported list is the toggle of the internal state |
| MultiSelect.ToggleValue | frontend/app/components/ui/multi-select.tsx:58-70 | corrected, the reported list is the toggle of what is shown |
| MultiSelect.ToggleAgreesInSync | frontend/app/components/ui/multi-select.tsx:58-70 | when the state mirrors the shown values, the two agree |
| MultiSelect.ControlledToggleKeepsShownValue | frontend/app/components/ui/multi-select.tsx:58-84 | as written, clicking a shown value's badge can report it still selected |
| MultiSelect.OnItemAdded | frontend/app/components/ui/multi-select.tsx:72-77 | registers the value's label and keeps the other labels |
| MultiSelect.ItemThenBadge | frontend/app/components/ui/multi-select.tsx:297-298 | selecting an item and then its badge restores the shown selection, and the check mark flips back |
| MultiSelect.PlaceholderAndBadges | frontend/app/components/ui/multi-select.tsx:186-203 | with an empty selection, the placeholder shows iff one is given and non-empty, and no value gets a badge |

## Left out

- The Web Audio graph wiring (`AudioPipeline`): only the parameters the worklets and hooks receive are modelled. The constructor and `stop()` are treated as non-throwing.
- The neural models (Silero, Whisper, the translator) and the server's `ASRProcessor`: each is an abstract scorer or message source.
- Network and HTTP plumbing: the websocket endpoint loop, `process_audio`, WAV dumps, and the Azure and DeepL calls. Their results are inputs.
- Rendering and the DOM, including `checkOverflow` and `saveFloat32ArrayToWav`.
- The thin setter stores, which hold one value each.
- Code that is never reachable from the applications: rrfe's `useAudioStream`, rrfe's `useLocalTranscription`, and rrfe/public/downsampler.js.
- The five-argument segmenter callback (`onUpdate`): rr-frontend and nuxt-fe are modelled by the chunks they feed the segmenter.
- Float32 precision, NaN and infinities: samples are reals.
- Interleavings inside one handler between awaits: each await is one atomic step.
- Aliasing of shared objects: everything is a value.
- Rooms.CreateRoom: randomness becomes a sequence of draws; termination of the retry loop when all ids are taken is not modelled.
- Configuration and bootstrapping: environment variables, URLs, and model loading options.
- Sse.RoundTrip: only LF line endings and single-line payloads; CR handling of the event-stream format is not modelled.
- `null` JSON fields: optional fields are `Option`.
- Languages.Convert: lower-casing is ASCII only.
- Languages.Convert: an entry whose `language` is present but `null` makes `.lower()` raise `AttributeError` in the source; the model has no such entry and maps a missing code to "".
- RoomEvents.QueryRoundTrip: `ReadParams` does no percent- or `+`-decoding and no fragment handling, so the round trip is stated only for codes free of `&`, `+`, `%` and `#`, which is every code the translation service lists.
- The label normalisation of the command-menu library.
- `shouldStartNewTranscription`: modelled as `startNewTranscription`, which `start` writes and nothing reads, so no contract depends on it.
- The stale-closure batching of rapid toggles.
- JavaScript `Map` iteration order: maps are keyed by value.
- `onRoomCreated`, and the `Date.now()` ids.
- Vad.Create: a failing `InferenceSession.create` is logged and rethrown; the model starts from a created detector.

## Findings

| source | as written | input that shows it | evidently intended | confidence | as-written member | corrected member |
|---|---|---|---|---|---|---|
| nuxt-fe/assets/workers/silero.js:64-68 | a run that settles assigns its `stateN` to the worker state, even if a `reset` arrived while it was awaited | enqueue a chunk, let its run start, send `reset`, then let the run settle with a non-zero state | the reset wins, so the next chunk is scored from a zero state | not executed | QueuedWorker.ResetUndoneAsWritten | QueuedWorker.ResetSurvivesInFlightRun |
| rr-frontend/app/hooks/useSubscription.ts:46-48 | `targetLanguages?.map(...).join('&')` is `undefined` without a list, and the URL template turns it into the text "undefined" | start a subscription with no target languages | an empty query | not executed | RoomEvents.UndefinedQuery | RoomEvents.QueryRoundTrip |
| frontend/app/components/ui/multi-select.tsx:58-70 | in controlled mode, `onValuesChange` reports the toggle of the stale internal set, not of the values shown | values ["a", "b"], internal state ["a"], toggle "b" | the reported list is the toggle of the shown selection, so "b" is removed | not executed | MultiSelect.ControlledToggleKeepsShownValue | MultiSelect.ToggleAgreesInSync |
