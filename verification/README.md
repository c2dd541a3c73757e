# VLC-Whisper: a verified model

VLC-Whisper captions a video with two processes: a plugin inside the player captures audio and shows captions, and a
worker recognises speech, optionally translates it, and sends captions back over a pipe. This project models the
worker's and the plugin's own logic in Dafny and proves properties of it. `dafny verify dfyconfig.toml` checks all of it.

Objects that the program updates in place are classes here, with the same arrays, indices and counters; each method is
proved equal to a function on the value the object stands for, and the properties are lemmas about those functions and
about all their runs.

| Part | Files | What is proved |
|---|---|---|
| Ordered translation | `pipeline`, `pipeline_runs`, `pipeline_answers`, `translate_async` | Four threads finish jobs in any order; in every interleaving of the critical sections cues are delivered once, in order, never in a later epoch, each with what the network answered for it; the drain loop ends. |
| Sessions | `worker_session`, `worker_replies`, `plugin_frames`, `session_epochs`, `session_client`, `client_calls`, `session_drain`, `session_silence`, `session_pipeline` | Over every interleaving of client, channels, frame queue and worker, a caption carries the id of the session its audio came from; a user stop, the end of media and a shutdown lose no caption, and none is sent after a stop or a pause; what each frame does to each session variable and how it is answered. |
| Worker loop | `worker_loop`, `worker_steps`, `inference_runs`, `playback`, `cue_provenance` | The main loop as an object that owns the sample ring, the segment builder and the translator: its turns are runs of the whole system, whose worker it stays; the recogniser's answers decide, window by window, what the builder is given. |
| Segment builder | `cue_text`, `cue_timeline`, `cue_rules`, `segment_builder`, `utf8` | The coverage frontier, the emitted cues, the history, and the word-aligned trim over every run; exactly which hypotheses are dropped, shown whole or trimmed, in figures. |
| Queues | `spsc_queue`, `spsc_calls`, `frame_queue`, `worker_queue` | The lock-free ring word by word under every interleaving; the evicting frame queue. |
| Wire | `wire`, `frames`, `frame_readers`, `client_readers`, `start_answers`, `session_handshake`, `payloads`, `payload_codec`, `message_layouts` | Messages arrive unchanged however the bytes are cut up; receive call and start handshake end at a frame boundary or give the transport up. |
| Translation texts | `json_text`, `json_escapes`, `json_scan`, `json_values`, `gtx_response`, `rpc_response`, `rpc_body` | Escape sequences against RFC 8259 and RFC 3629; scanners against a grammar of JSON texts; response parsers; the request body can be undone. |
| Time | `audio_timeline`, `audio_buffer`, `chunk_cutter`, `tail_flush`, `resampling`, `audio_capture` | The sample ring's clock, the cut points, the tail flush, the resampler. |
| Reference algorithms | `fips180`, `sha256`, `sha256_vectors`, `edit_distance` | Streaming SHA-256 against FIPS 180-4, and the published digest of "abc"; two-row edit distance against edit scripts. |

Conventions. Strings of the C code are sequences of characters below 256, one per byte, and hold no NUL unless said
otherwise. 64-bit counters do not wrap and memory allocation succeeds. A critical section is one atomic step. Random
session ids are assumed never drawn twice. What the recogniser, the voice detector, the translation service and the
transport answer is an arbitrary input. A caption carries `origin`, the sessions its text stems from: of
the window it was recognised in and of every phrase remembered then. The program has no such field, and no branch reads it.

Where the code does less than one might expect, the exact condition is proved:

- Emitted cues can overlap: a trimmed remainder starts at the end of the history entry it was trimmed against, which may
  be an old one. `CueTimeline.CaptionsCanOverlap` gives a run, `CueTimeline.OverlapsNewestIff` says exactly when.
- A phantom text can be queued: a trimmed remainder is not shown to the filter of phantom phrases again. The third cue of
  `CueTimeline.CaptionsCanOverlap` is one, `CueTimeline.PhantomQueuedIff` says exactly when.
- The history keeps a text whole if and only if it is valid UTF-8, and else its longest valid prefix
  (`CueTimeline.HistoryKeepsValidTexts`; `CueTimeline.HistoryShortensBrokenText` gives a text).
- A decoded payload equals the encoded one if and only if its character arrays are terminated and, where only the text
  is sent, zero behind it (`PayloadCodec.PayloadRoundTrip`; `PayloadCodec.FullArrayIsCut` gives a message).
- Leading silence is measured by the detector's first interval; the drained length stays inside the window if the
  detector's intervals do (`ChunkCutter.AlwaysTakes`), and the buffer clips it otherwise.

## Model

| member | source | states |
|---|---|---|
| `PipelineRuns.DeliveredInOrder` | worker/src/vw_translate_async.c:106-160 | In every interleaving, the results delivered in the current epoch, and in each earlier one, are the completions of the first cues accepted in it, one each and in order. |
| `PipelineRuns.NothingOldIsDelivered` | worker/src/vw_translate_async.c:218-365 | Whatever was queued, in flight or completed when an epoch was invalidated: every result handed over afterwards is of a later epoch and completes a cue accepted after the invalidation. |
| `PipelineRuns.PendingHeldExactlyOnce` | worker/src/vw_translate_async.c:234-302 | Every ordinal given out and not yet delivered is in exactly one place: the job ring, the current in-flight jobs, or the result ring. |
| `PipelineRuns.BoundsHold` | worker/src/vw_translate_async.c:246-299 | Queued, in-flight and completed jobs together never exceed 34; the active count is the number of current, non-skipped jobs queued or in flight and never exceeds the budget of 4. |
| `PipelineRuns.GuardsNeverFire` | worker/src/vw_translate_async.c:55-64 | The guard that would discard a result for lack of room and the stale-epoch branch of delivery are never taken in any run. |
| `PipelineRuns.HeldIsAccepted` | worker/src/vw_translate_async.c:234-302 | The ordinals held anywhere are exactly those accepted and not yet delivered, and under each the cue accepted as that one is held. |
| `PipelineRuns.ThreadResultCompletes` | worker/src/vw_translate_async.c:92-160 | A thread's result is its cue with attempted set; of a job that is not skipped it carries the text and tier of the network's outcome exactly when that succeeded with a text, and always its latency and cause; skipped and evicted jobs carry the source text and a local cause. |
| `PipelineAnswers.AnswersReachTheirCue` | worker/src/vw_translate_async.c:92-302 | In every interleaving a delivered result belongs to the cue accepted under its ordinal and shows what the network answered for that very ordinal; the network was asked exactly if fewer than 4 translations were open at the submit and the cue was not pushed out of the full queue of 32, else the source text is shown. |
| `PipelineAnswers.ThreadsAskForTheCue` | worker/src/vw_translate_async.c:110-144 | Whatever job a thread works on, it asks for the text of the cue accepted under its ordinal, from the source to the target language it was submitted with, cut to 15 bytes. |
| `PipelineAnswers.NewJobAsks` | worker/src/vw_translate_async.c:254-296 | A new job carries its cue and both languages, with the defaults for empty ones, and is skipped exactly when 4 translations are open. |
| `PipelineAnswers.NextLedgerInv` | worker/src/vw_translate_async.c:106-365 | Every critical section keeps the book of cues, evictions and answers in agreement with the pipeline. |
| `PipelineRuns.NextInv` | worker/src/vw_translate_async.c:106-365 | Every critical section keeps the pipeline invariant and the delivery history. |
| `PipelineRuns.PendingCanMove` | worker/src/vw_worker.c:375-390 | While anything is pending some thread or the delivery loop can act; with no job queued or in flight the held result is the next one. |
| `PipelineRuns.PoolRunsAreShort` | worker/src/vw_worker.c:375-390 | Thread and delivery steps strictly use up the pending work, so a drain takes boundedly many. |
| `PipelineRuns.DrainDeliversAll` | worker/src/vw_worker.c:375-390 | A drain that runs until nothing is pending has delivered exactly the cues accepted in the epoch. |
| `Pipelines.FindNext` | worker/src/vw_translate_async.c:66-76 | Finds a completion with the wanted ordinal if one exists, and the oldest such. |
| `TranslateAsyncs.TranslateAsync.constructor` | worker/src/vw_translate_async.c:164-197 | A new pipeline is empty, in epoch 1, with ordinals starting at 1. |
| `TranslateAsyncs.TranslateAsync.PushResultLocked` | worker/src/vw_translate_async.c:55-64 | Appends the completion to the result ring, or drops it when the ring is full. |
| `TranslateAsyncs.TranslateAsync.FindNextResultLocked` | worker/src/vw_translate_async.c:66-76 | The ring search finds the slot of the next result exactly when it is held. |
| `TranslateAsyncs.TranslateAsync.RemoveResultLocked` | worker/src/vw_translate_async.c:78-90 | Closing the gap in the ring removes that completion and keeps the order of the others. |
| `TranslateAsyncs.TranslateAsync.Submit` | worker/src/vw_translate_async.c:234-302 | The object after a submit stands for the pipeline after Submit; says whether the cue was accepted. |
| `TranslateAsyncs.TranslateAsync.TakeJob` | worker/src/vw_translate_async.c:110-120 | Taking the oldest job matches Take, the job becoming in flight. |
| `TranslateAsyncs.TranslateAsync.CompleteJob` | worker/src/vw_translate_async.c:122-159 | A finished job updates budget and result ring as Complete does, also for an old epoch or a stopped pool. |
| `TranslateAsyncs.TranslateAsync.TryPop` | worker/src/vw_translate_async.c:321-339 | Pops the next result if it is there, as Deliver does. |
| `TranslateAsyncs.TranslateAsync.TryDeliver` | worker/src/vw_translate_async.c:341-365 | Delivers the next result if it is there, as Deliver does. |
| `TranslateAsyncs.TranslateAsync.InvalidateEpoch` | worker/src/vw_translate_async.c:218-232 | Empties both rings, restarts ordinals and budget and moves to the next epoch. |
| `TranslateAsyncs.TranslateAsync.DestroyAll` | worker/src/vw_translate_async.c:199-216 | Stops the pool and empties the job ring. |
| `TranslateAsyncs.TranslateAsync.IsPending` | worker/src/vw_translate_async.c:313-319 | True exactly when a job is queued or in flight or a result is held. |
| `Rings.CloseGap` | worker/src/vw_translate_async.c:78-90 | The shifting loop over a wrapping ring removes one element and keeps the order of the rest. |
| `SessionEpochs.CaptionsComeFromTheirSession` | worker/src/vw_worker.c:718-875 | In every interleaving, every caption the worker sends with a session id was computed only from audio captured for that session, counting both the window it was recognised in and every remembered phrase it may have been trimmed or compared against. |
| `SessionEpochs.OnlyCurrentAudioIsShown` | plugin/src/vw_whisper_module.c:1373 | A caption that passes the plugin's id check was made only from audio of the session current at that moment. |
| `SessionEpochs.ActiveMeansTakenUp` | plugin/src/vw_worker_client.c:275-465 | After a successful start the worker has taken up that very session. |
| `SessionEpochs.NothingArrivesStale` | plugin/src/vw_worker_client.c:723-876 | On an intact transport frame numbers rise strictly in both directions, so the stale-sequence branches are not taken. |
| `SessionEpochs.DeliveryIdCheckHolds` | worker/src/vw_worker.c:190-208 | The next translated result always belongs to the session the worker is in. |
| `SessionEpochs.StartedMeansTakenUp` | worker/src/vw_worker.c:718-875 | STARTED is sent only for a session the worker has just taken up, under that id. |
| `SessionEpochs.ClientInv` | plugin/src/vw_worker_client.c:499-544 | Start, stop, pause, resume, position (a seek restarts the epoch) and receive keep the system invariant. |
| `SessionEpochs.WorkerInv` | worker/src/vw_worker.c:1332-1430 | Reading a frame, handling one, decoding, emitting and pool steps keep the system invariant. |
| `SessionEpochs.NextInv` | worker/src/vw_worker.c:392-1488 | Every step of client, channels, queue and worker keeps the system invariant. |
| `WorkerSession.HandleOk` | worker/src/vw_worker.c:718-1273 | Whatever frame arrives and whatever the environment chooses, a handler keeps each session's audio, captions and translations apart. |
| `WorkerSession.DoAllOk` | worker/src/vw_worker.c:590-1488 | So does every run of the loop's and the pool's steps, if the frames handled are tagged with the sessions they belong to, and every caption among its replies stems from audio of its own session. |
| `WorkerSession.StartOk` | worker/src/vw_worker.c:718-875 | START keeps the worker's invariant: afterwards every buffered sample, pending caption and current translation stems from the session taken up, and no reply carries another session's audio. |
| `WorkerSession.StopOk` | worker/src/vw_worker.c:1104-1152 | STOP keeps the invariant, and every caption it flushes or drains carries the id of the session its audio came from. |
| `WorkerSession.AudioOk` | worker/src/vw_worker.c:959-1049 | Audio of another session's id is never mixed into the buffer, and its captions carry their own session's id. |
| `WorkerSession.ShutdownOk` | worker/src/vw_worker.c:1246-1273 | SHUTDOWN keeps the invariant, and what it flushes and drains, before and after the status in between, carries its own session's id. |
| `WorkerSession.DecodeOk` | worker/src/vw_worker.c:1332-1430 | Look-ahead decoding keeps the invariant: its audio belongs to the session whose file is open. |
| `WorkerSession.EmitOneOk` | worker/src/vw_worker.c:1432-1477 | Emitting a pending caption keeps the invariant, and a caption sent stems from audio of the id stamped on it. |
| `WorkerSession.DrainOk` | worker/src/vw_worker.c:375-390 | The drain, with pool steps interleaved, keeps the invariant and sends only captions made from their own session's audio. |
| `WorkerSession.DeliverOk` | worker/src/vw_worker.c:190-208 | The next result of the pool belongs to the current session and stems from its audio. |
| `WorkerReplies.SessionIs` | worker/src/vw_worker.c:718-1273 | Over all frames: only a START that is taken up changes the session id; a session is active from then until its STOP or until another START of its kind replaces it. |
| `WorkerReplies.PausedIs` | worker/src/vw_worker.c:766-1103 | Over all frames: unpaused at the start, then as PAUSE, RESUME and the flag of POSITION of the active session say. |
| `WorkerReplies.RunsOnIff` | worker/src/vw_worker.c:634-1273 | Over all frames: the worker runs on unless the frame is a SHUTDOWN, cannot be read, or brings audio or a tail on which the recogniser fails. |
| `WorkerReplies.FileIsOpenIff` | worker/src/vw_worker.c:795-835 | Over all frames: the session decodes its own file exactly if its START names one that can be opened and sought, until the session ends. |
| `WorkerReplies.TranslationSettingsAre` | worker/src/vw_worker.c:1154-1167 | Over all frames: switch and languages are those of the last TRANSLATE_CTRL of the session. |
| `WorkerReplies.StoresAre` | worker/src/vw_worker.c:718-1273 | Over all frames: which ones drop what is buffered, pending and remembered, which leave what is remembered, and which leave all of it alone. |
| `WorkerReplies.HeardAudioIsBuffered` | worker/src/vw_worker.c:959-980 | Audio of the active live session joins the newest 960000 samples, or replaces them after a gap. |
| `WorkerReplies.EpochIs` | worker/src/vw_worker.c:718-1273 | Over all frames: a new translation epoch begins exactly with a session taken up, stopped or paused, with a seek that works, and with new settings. |
| `WorkerReplies.AnswersAre` | worker/src/vw_worker.c:634-1273 | Over all frames: what is sent besides captions, in order: the errors by code, STARTED with its flag, and when a status follows. |
| `WorkerReplies.CaptionIsEmitted` | worker/src/vw_worker.c:1432-1477 | The oldest pending caption is submitted exactly if translation is on, fewer than 34 cues are in the translator and its text has 1 to 1024 bytes; else it is sent untranslated under the session id, marked as attempted if translation is on. |
| `WorkerReplies.ResultIsSentIff` | worker/src/vw_worker.c:190-208 | A delivered result is sent as it is, exactly if a session is active and it is of that session. |
| `WorkerReplies.DecodingIs` | worker/src/vw_worker.c:1332-1430 | What a step of the look-ahead does to the session: nothing without an open file, the end of the session on a read error, inference otherwise. |
| `WorkerLoops.WorkerLoop.Turn` | worker/src/vw_worker.c:590-1488 | One turn of a running main loop on the real buffer, builder and translator - the next frame of the queue if there is one, deliveries, look-ahead, emission, deliveries - is a run of events of the whole system whose worker the object is, and leaves it the worker of the system so reached, with exactly that run's replies sent in order. The choices of the environment in that run are those the surroundings' answers come to for the frame. While the loop runs no caption is left pending between turns. |
| `WorkerLoops.WorkerLoop.BeginsHosting` | worker/src/vw_worker.c:517-590 | A new object is the worker of the system right after the HELLO exchange. |
| `WorkerLoops.WorkerLoop.PoolTurn` | worker/src/vw_translate_async.c:106-160 | A pool thread acting between turns is one event of the system, and the object stays its worker. |
| `WorkerLoops.WorkerLoop.OthersKeepHosting` | worker/src/vw_worker.c:392-1488 | The client, the channels and the frame queue never change which system the object is the worker of. |
| `WorkerLoops.WorkerLoop.WorkerIsSafe` | worker/src/vw_worker.c:718-1488 | Of an object that is the worker of a reachable system, as it begins and as every turn and every other event leave it: each caption it has sent was made only from audio of the session whose id it carries, and so are all it holds. |
| `WorkerLoops.WorkerLoop.TakeTurn` | worker/src/vw_worker.c:590-1488 | A turn is its frame, deliveries, one look-ahead, emissions and deliveries again, in that order, each made with the choice the surroundings come to; while the loop runs neither a pending caption nor a result that is next in order is left. A frame that cannot be used ends the turn. |
| `WorkerLoops.WorkerLoop.FinishTurn` | worker/src/vw_worker.c:1275-1488 | The part of a turn after its frame. |
| `WorkerSteps.TurnIsARun` | worker/src/vw_worker.c:590-1488 | The acts of a turn, of which only the first may handle a frame, are a run of the system: same worker, same captions, same reply numbers. |
| `WorkerLoops.WorkerLoop.HandleFrame` | worker/src/vw_worker.c:634-1273 | Whatever the frame and the surroundings, the object makes the step of the session model for the one choice of the environment that the frame, what is buffered and remembered, and the answers of recogniser, detector, decoder and pool come to; it sends exactly the replies of that step. |
| `WorkerLoops.WorkerLoop.OnStart` | worker/src/vw_worker.c:718-875 | START: a repeated id, a missing model or a bad language is refused, another session is left first; then everything of the old session is gone from buffer, builder and translator, and the source is opened and sought in or live audio expected. Whether the model, the language, the opening and the seek succeed is what the surroundings say. |
| `WorkerLoops.WorkerLoop.OnStop` | worker/src/vw_worker.c:1104-1152 | STOP: the tail is flushed at the end of media, with exactly the captions the flush of all the buffered samples gives, accepted cues are drained unless seeking, and nothing is left of the session; a drain that finished has nothing pending, which is what a stop needs to lose no cue. The wait looks as long as something is pending and no longer. |
| `WorkerLoops.WorkerLoop.OnAudio` | worker/src/vw_worker.c:959-1049 | AUDIO: only the active live session is heard; an impossible time clears the window; otherwise the block joins the sample ring or, exactly if it does not continue it, restarts it, and the rounds, the builder, the ring and the length of the next window are what InferenceRuns.LiveTurns gives for the answers of the recogniser on each window. |
| `WorkerLoops.WorkerLoop.InferLive` | worker/src/vw_worker.c:980-1046 | The loop over live windows on the real ring and builder is InferenceRuns.LiveTurns: each window's phrases, as the recogniser answers for exactly its samples, go to the segment builder in order, the captions of each round are the builder's decisions on them, and the ring, the builder and the next window's length are left as it says. |
| `WorkerLoops.WorkerLoop.RecogniseLive` | worker/src/vw_worker.c:988-1025 | Exactly the phrases kept of a window are pushed, at their own times, and the captions are what the builder decides on them. |
| `WorkerLoops.WorkerLoop.InferLiveWindow` | worker/src/vw_worker.c:980-1046 | One window: the round, the builder and the ring afterwards are those of the turn for what the recogniser answers on the oldest samples. |
| `WorkerLoops.WorkerLoop.InferAhead` | worker/src/vw_worker.c:1343-1399 | The loop over decoded audio is InferenceRuns.AheadTurns, with its rounds, the builder and the ring as that leaves them. |
| `InferenceRuns.LiveTurnsAre` | worker/src/vw_worker.c:980-1046 | Turn by turn, with the answers of the recogniser an arbitrary function of step and samples: the window is the oldest 128000 samples, or all of fewer in a progressive session; its phrases are kept all, or of a shorter window exactly those that end 0.5 s before its end, in order; a full window moves on by 16000 samples, without progressive reading by 32000, and a shorter one is the last turn and drains nothing. |
| `InferenceRuns.LiveEnds` | worker/src/vw_worker.c:980-1046 | The loop ends with less than the next window asks for, or at the window in which the recogniser fails; what is left is the buffer without the samples drained; after a shorter window the next one is 16000 samples longer, up to 128000. |
| `InferenceRuns.RoundsAre` | worker/src/vw_worker.c:980-1046 | The captions of each round of a loop are what the builder, given the phrases of all windows before, decides on the phrases kept of this one, at their own times. |
| `InferenceRuns.AheadTurnsAre` | worker/src/vw_worker.c:1343-1399 | Turn by turn over decoded audio: of at least 96000 samples the detector is asked about at most 384000, and its answer decides how much silence is dropped or how much speech is recognised, all of whose phrases are kept. |
| `InferenceRuns.AheadEnds` | worker/src/vw_worker.c:1343-1399 | The loop ends with fewer than 96000 samples, at a window that has to grow, or where the recogniser fails on speech. |
| `InferenceRuns.NothingIsLeft` | worker/src/vw_worker.c:764-792 | What a clear and a media swap leave of audio, builder and window length, in figures. |
| `WorkerLoops.WorkerLoop.OnPause` | worker/src/vw_worker.c:1051-1071 | PAUSE empties buffer and builder and starts a new translation epoch. |
| `WorkerLoops.WorkerLoop.OnResume` | worker/src/vw_worker.c:1072-1103 | RESUME of a file session seeks to the playback position and, if that works, decodes on from there with nothing buffered; nothing changes otherwise. |
| `WorkerLoops.WorkerLoop.OnPosition` | worker/src/vw_worker.c:877-957 | POSITION toggles the pause and follows the playback of a file session; a seek asked for that works makes decoding go on from the reported position with everything buffered or in translation dropped; it seeks exactly when Playback.MustSeek says so, of where a resumption has just sought to only when asked. |
| `WorkerLoops.WorkerLoop.FollowPlayback` | worker/src/vw_worker.c:920-957 | A position report that makes the decoder seek, and only one whose seek works, drops everything buffered and in translation. |
| `Playbacks.Playback.Follow` | worker/src/vw_worker.c:917-955 | The decoder is sought exactly on a seek flag or a jump back by more than 0.5 s or more than 1 s past what is decoded, not twice in a row without a flag after a failure; a failed seek keeps the anchor. |
| `Playbacks.SeeksIff` | worker/src/vw_worker.c:917-932 | A report makes the decoder seek exactly when it asks for it, or when it lies more than 500000 us before the last report or more than 1000000 us past what is decoded, does not repeat the last one, and the last such seek did not fail. |
| `Playbacks.LooksThirtySecondsAhead` | worker/src/vw_worker.c:1332-1333 | The file is decoded on exactly while it is not at its end and less than 30 s ahead of the player. |
| `Playbacks.SeekSettles` | worker/src/vw_worker.c:917-955 | After a seek that worked no report within 0.5 s before or 1 s after it asks for another one. |
| `WorkerLoops.WorkerLoop.OnTranslate` | worker/src/vw_worker.c:1154-1167 | TRANSLATE_CTRL stores switch and languages and starts a new translation epoch. |
| `WorkerLoops.WorkerLoop.OnShutdown` | worker/src/vw_worker.c:1246-1273 | SHUTDOWN flushes the tail of an active live session as the end of media does, reports, drains, and ends the loop; a drain that finished has nothing pending. |
| `WorkerLoops.WorkerLoop.DecodeChunk` | worker/src/vw_worker.c:1332-1430 | The look-ahead runs only while the session decodes its file, is not paused and not 30 s ahead; a decoded block joins the ring at its own time or at the end of what is decoded, and what is recognised of it is InferenceRuns.AheadTurns; the end of the file flushes everything, an error ends the session. |
| `WorkerLoops.WorkerLoop.FlushTailWindows` | worker/src/vw_worker.c:314-346 | On the real buffer and builder the tail flush succeeds, leaves and queues exactly what Flush and the builder's decisions say; the builder afterwards has been given exactly those phrases. |
| `WorkerSteps.TailIsWhole` | worker/src/vw_worker.c:314-346 | A flush that goes through at the end of a session takes every buffered sample, once and in order, into a recognised window or a dropped silence. |
| `WorkerLoops.WorkerLoop.EmitCaption` | worker/src/vw_worker.c:1432-1477 | The oldest caption of the builder is stamped with the session id and goes to the translator, or out when it takes none. |
| `WorkerLoops.WorkerLoop.EmitTail` | worker/src/vw_worker.c:348-373 | The emission loop sends or submits all pending captions in order. |
| `WorkerLoops.WorkerLoop.DeliverTranslation` | worker/src/vw_worker.c:190-208 | A delivered result is sent only if it belongs to the active session. |
| `WorkerLoops.WorkerLoop.DrainTranslation` | worker/src/vw_worker.c:375-390 | The drain loop, with the pool's steps in between, sends what Drain says in that order, reports that it finished exactly when nothing is pending, and looks on as long as something is and no longer. |
| `CueProvenance.PushingIsARun` | worker/src/vw_worker.c:990-1015 | Pushing the phrases of a window one after another is a run of the segment builder, and what becomes pending are the cues that run emits, numbered on. |
| `CueProvenance.PushingIsQueueing` | worker/src/vw_worker.c:990-1015 | Pushing the phrases of a window into the segment builder queues, in the session model, exactly the captions the builder decides to emit, with the tags of the window and of everything remembered. |
| `ClientCalls.PipeToWorkerIs` | plugin/src/vw_worker_client.c:275-721 | Over all events of the system: the one frame each call of the client puts on the pipe, when it does, and its number. |
| `ClientCalls.ClientIs` | plugin/src/vw_worker_client.c:275-721 | Over all events: when the client has a transport, a session, a start waiting for its answer, an active session and one that decodes its file. |
| `ClientCalls.PipeFromWorkerIs` | plugin/src/vw_worker_client.c:723-876 | Frames from the worker are read one at a time, and which number is remembered. |
| `ClientCalls.ShownIff` | plugin/src/vw_whisper_module.c:1373 | Over all events: a caption is shown exactly when it is received under a new number with the id of the current session. |
| `ClientCalls.QueueIs` | worker/src/vw_worker.c:213-312 | Over all events: what the worker's reader accepts, what the queue loses, and what the running loop takes. |
| `ClientCalls.RepliesAreNumbered` | worker/src/vw_worker.c:68-188 | The worker's replies go out in order and are numbered on without a gap. |
| `SessionClients.SessionClient.StartSession` | plugin/src/vw_worker_client.c:275-465 | A start is a run of client and worker events; if it returns true the session is active under the new id. It reads until the start is answered and gives up only at the deadline. The reads of the wait on bytes are in ClientReaders. |
| `SessionClients.SessionClient.AwaitStarted` | plugin/src/vw_worker_client.c:327-464 | The handshake loop ends with the first read that answers the start - STARTED for this id, an error, a dropped transport - or, unanswered, at the deadline. |
| `SessionClients.SessionClient.HandshakeFrame` | plugin/src/vw_worker_client.c:327-450 | One frame of the handshake: a stale or foreign STARTED drops the transport, earlier epochs' translation errors and the source fallback are passed over. |
| `SessionHandshakes.SameWait` | plugin/src/vw_worker_client.c:327-464 | For every frame a current worker sends, what the byte-level wait makes of it - going on, confirmed, refused, broken - is what the client of the session model does. |
| `SessionClients.SessionClient.SendPositionReport` | plugin/src/vw_worker_client.c:499-544 | A seek of a file session is STOP, START under a new id, translation settings, then the report, exactly these in this order; a worker that does not decode the file costs the transport; true only if the new session is active in source mode. |
| `SessionClients.SessionClient.SendTranslateCtrl` | plugin/src/vw_worker_client.c:615-665 | Translation settings are sent only to a worker that announced the capability; to another one enabling fails and disabling is only remembered. |
| `SessionClients.SessionClient.StopSession` | plugin/src/vw_worker_client.c:690-698 | Sends STOP for the active session, reason 0 read as a user stop, and deactivates it. |
| `SessionClients.SessionClient.PauseSession` | plugin/src/vw_worker_client.c:700-703 | Sends PAUSE for the active session only. |
| `SessionClients.SessionClient.ResumeSession` | plugin/src/vw_worker_client.c:705-708 | Sends RESUME for the active session only. |
| `SessionClients.SessionClient.ShutdownWorker` | plugin/src/vw_worker_client.c:710-721 | Sends SHUTDOWN on a live transport. |
| `SessionClients.SessionClient.ReceiveOne` | plugin/src/vw_worker_client.c:723-876 | A caption is shown only under the current session id and above the last sequence number. |
| `SessionClients.SessionClient.SendAudioChunk` | plugin/src/vw_worker_client.c:546-579 | Audio is sent only for the active session, under its id. |
| `SessionClients.WorkerKeepsClient` | plugin/src/vw_worker_client.c:275-465 | The worker's steps touch nothing the client holds but the channels. |
| `SessionClients.ClientIsSafe` | plugin/src/vw_whisper_module.c:1373 | Of a client object that agrees with a reachable system, as every call leaves it: an active session has been taken up by the worker under the newest id drawn, and every caption it has shown was made only from audio of the session current then. |
| `SessionDrains.DrainLosesNothing` | worker/src/vw_worker.c:375-390 | A drain that ends with nothing pending sends every accepted cue not delivered before, once each and in order. |
| `SessionDrains.UserStopDeliversAccepted` | worker/src/vw_worker.c:1126-1152 | A user stop sends all accepted cues of the session before it closes, then its status. |
| `SessionDrains.TailIsEmitted` | worker/src/vw_worker.c:348-373 | Emitting the tail submits or sends every pending caption, never both, each in order. |
| `SessionDrains.FinishDeliversAll` | worker/src/vw_worker.c:1112-1130 | At the end of a session whose recogniser does not fail and whose drain ends, every caption of the tail is sent at once or joins the accepted cues, and every accepted cue not delivered before is sent, once and in order. |
| `SessionSilence.StopLeavesNothing` | worker/src/vw_worker.c:1104-1152 | STOP of the current session, for any reason, leaves no audio, no caption, no remembered phrase and no current job or result. |
| `SessionSilence.SilentAfterStop` | worker/src/vw_worker.c:1104-1152 | After STOP no caption is sent before the next START, whatever frames arrive and whatever the threads still finish. |
| `SessionSilence.SilentAfterPause` | worker/src/vw_worker.c:1051-1071 | After PAUSE no caption is sent before RESUME, a position report that lifts the pause, or START, whatever else arrives, a STOP or SHUTDOWN with its drain included, and whatever the threads still finish. |
| `SessionPipelines.HandleEvolves` | worker/src/vw_worker.c:717-1273 | Whatever a handler does to the translator is a sequence of the pipeline's own steps. |
| `SessionPipelines.TranslatorIsAPipelineRun` | worker/src/vw_worker.c:392-1488 | In every run of the whole system the translator is in a state that a run of the pipeline alone leads to, so every pipeline theorem applies. |
| `SessionPipelines.UserStopLosesNothing` | worker/src/vw_worker.c:1126-1152 | In every run of the whole system, a user stop of a running session whose drain ends sends one caption for every cue held in the job ring, in flight or in the result ring, that cue itself, in the order of the ordinals, and then the status. |
| `SessionPipelines.EndLosesNothing` | worker/src/vw_worker.c:314-390 | In every run of the whole system the same holds of the end of a running session: the tail is split into what is sent at once and what is submitted, and every cue held in the job ring, in flight or in the result ring is sent, that cue itself, and then every one submitted. |
| `SessionPipelines.MediaEndLosesNothing` | worker/src/vw_worker.c:1104-1152 | At the end of media that is: the captions of the tail sent at once, every cue held, every one submitted, and then the status. |
| `SessionPipelines.ShutdownLosesNothing` | worker/src/vw_worker.c:1246-1273 | At a shutdown: the captions of the tail sent at once, the status if the tail was flushed, every cue held, every one submitted. |
| `CueTimeline.TimelineHolds` | worker/src/vw_segment_builder.c:227-350 | Between clears, for every run of pushes and pops: ends rise strictly, the frontier is the newest cue's end, each cue starts below its end and at or past the old frontier or at the end of an earlier cue, ids are consecutive, the pending queue is a suffix of the emissions, the history is the last 16. |
| `CueTimeline.OverlapsNewestIff` | worker/src/vw_segment_builder.c:303-348 | In every run a hypothesis leads to a cue whose time intersects that of the newest cue if and only if it is usable, repeats nothing of the newest pending cue, and begins with the last words of a remembered phrase that ended before the frontier, going on after it, while no phrase remembered later that matches it in time is repeated. |
| `CueTimeline.PhantomQueuedIff` | worker/src/vw_segment_builder.c:186-348 | A phantom text is queued if and only if a usable hypothesis leaves it: going on from the newest pending cue, or, repeating nothing of that, from the remembered phrase it is trimmed against first. |
| `CueTimeline.ShownWholeIff` | worker/src/vw_segment_builder.c:257-350 | A hypothesis is shown whole if and only if it is usable, ends past the frontier and, in whatever order they are compared, repeats neither the newest pending caption nor any remembered phrase that matches it in time. |
| `CueRules.CoveredIsDropped` | worker/src/vw_segment_builder.c:259-268 | A hypothesis that starts before the end of the captioned audio and ends at most 500000 us past it is dropped, whatever its text. |
| `CueRules.NewAudioIsShown` | worker/src/vw_segment_builder.c:259-350 | One that starts at or after that end, or ends more than 500000 us past it, is never dropped for its time: well-timed, of allowed length, not phantom and new, it is shown. |
| `CueRules.ShownWholeExactly` | worker/src/vw_segment_builder.c:227-350 | A hypothesis is shown whole exactly if it is considered, ends behind the captioned audio and shares nothing - neither containment nor words of its front - with the newest pending cue or a remembered phrase of its time. |
| `CueRules.TrimmedIsShown` | worker/src/vw_segment_builder.c:186-350 | One that begins with the words a cue near it ends with is shown as what follows them, from that cue's end: the newest pending cue if it shares with that, else the newest phrase of its time it shares with. |
| `CueRules.OnlyThatIsTrimmed` | worker/src/vw_segment_builder.c:186-350 | Whatever is shown but not whole was trimmed that way. |
| `CueRules.OverlapIsLongest` | worker/src/vw_segment_builder.c:142-184 | The overlap found is the longest list of whole words, at least two, with which the cue ends and the candidate begins. |
| `CueRules.SixteenRemembered` | worker/src/vw_segment_builder.c:115-140 | Exactly the newest sixteen phrases since the last clear are remembered. |
| `CueRules.OldestIsPopped` | worker/src/vw_segment_builder.c:352-362 | A pop takes the oldest caption and leaves what later ones are compared with. |
| `CueTimeline.CaptionsCanOverlap` | worker/src/vw_segment_builder.c:186-348 | A concrete run of three hypotheses in which the third cue overlaps the second and holds nothing but punctuation, which the filter of phantom phrases turns away. |
| `CueTimeline.RemainderShowsEachWordOnce` | worker/src/vw_segment_builder.c:186-225 | A trimmed cue starts where the old one ends, ends at the candidate's end, and the two together show every word of the candidate once: words(cue) + words(rest) = words(cue without the overlap) + words(candidate). |
| `CueTimeline.HistoryKeepsValidTexts` | worker/src/vw_segment_builder.c:115-130 | The history holds the longest valid prefix of a text that fits, and so the whole text if and only if it is valid UTF-8. |
| `CueTimeline.HistoryShortensBrokenText` | worker/src/vw_segment_builder.c:115-130 | A text with a stray continuation byte at its end loses that byte. |
| `CueTimeline.NextInv` | worker/src/vw_segment_builder.c:227-363 | Every push, pop and clear keeps the timeline invariant. |
| `CueTimeline.DecideIsSourced` | worker/src/vw_segment_builder.c:227-350 | Whatever branch queues a cue, it ends past the frontier and starts at the frontier or at the end of an older phrase. |
| `CueText.TailPrefixLen` | worker/src/vw_segment_builder.c:142-178 | The loop returns the longest length at which a word-aligned candidate prefix of two or more words is a word-aligned suffix of the cue, 0 if none. |
| `CueText.CountIsNumberOfWords` | worker/src/vw_segment_builder.c:165-172 | Counting word starts counts the words of a prefix. |
| `CueText.WordsConcat` | worker/src/vw_segment_builder.c:142-178 | Cutting a text at a word boundary cuts its list of words. |
| `CueText.TrimShowsEachWordOnce` | worker/src/vw_segment_builder.c:186-225 | The overlap, white space and remainder put together are the candidate, and no word is lost or doubled. |
| `SegmentBuilders.SegmentBuilder.constructor` | worker/src/vw_segment_builder.c:11-25 | A new builder is empty with id 1 and frontier -1. |
| `SegmentBuilders.SegmentBuilder.ClearAll` | worker/src/vw_segment_builder.c:39-57 | Clearing gives the empty builder. |
| `SegmentBuilders.SegmentBuilder.Grow` | worker/src/vw_segment_builder.c:70-111 | Doubling a full ring keeps the pending cues in order. |
| `SegmentBuilders.SegmentBuilder.EnqueueCue` | worker/src/vw_segment_builder.c:70-111 | Appends a cue with the next id, growing when full, and moves the frontier. |
| `SegmentBuilders.SegmentBuilder.CommitHistory` | worker/src/vw_segment_builder.c:115-130 | The history ring keeps the last 16 phrases. |
| `SegmentBuilders.SegmentBuilder.TrimAgainst` | worker/src/vw_segment_builder.c:186-225 | The partial-overlap trim acts as TailTrim: passes, drops, or queues the remainder. |
| `SegmentBuilders.SegmentBuilder.SearchPending` | worker/src/vw_segment_builder.c:270-301 | The newest-first search over pending cues acts as AgainstPending. |
| `SegmentBuilders.SegmentBuilder.SearchHistory` | worker/src/vw_segment_builder.c:303-335 | The newest-first search over the history acts as AgainstHistory. |
| `SegmentBuilders.SegmentBuilder.PushHypothesis` | worker/src/vw_segment_builder.c:227-350 | A push queues exactly what Decide says, if anything, and says so. |
| `SegmentBuilders.SegmentBuilder.PopOldestCue` | worker/src/vw_segment_builder.c:352-363 | Pops the oldest pending cue. |
| `Utf8.IsValidUtf8` | protocol/src/vw_protocol_validate.c:42-93 | The validator loop accepts exactly the texts that are concatenations of well-formed sequences. |
| `Utf8.ValidIsRfc3629` | protocol/src/vw_protocol_validate.c:42-93 | Those are exactly the texts of the byte-range grammar of RFC 3629 section 4, C2..DF to F4 80..8F. |
| `Utf8.Utf8SafeLen` | protocol/include/vw_protocol_util.h:32-85 | The prefix scanner stops where the first ill-formed sequence, NUL or the limit comes. |
| `Utf8.SafeLenIsLongestValidPrefix` | protocol/include/vw_protocol_util.h:32-85 | The prefix kept is valid, NUL-free, fits, and no longer prefix is. |
| `Utf8.ScannersAgree` | protocol/src/vw_protocol_validate.c:42-93 | A C string that fits is kept whole if and only if the validator accepts it. |
| `SpscQueues.AnyInterleaving` | plugin/src/vw_queue.c:36-78 | With every load, word copy and store a separate step in any order: popped chunks are a prefix of accepted ones, occupancy stays within capacity, the dropped total is the sum of rejected durations, the slot being written is not the one being read, and the words read so far are those of the oldest chunk. |
| `SpscQueues.NoChunkVanishes` | plugin/src/vw_queue.c:36-78 | In every interleaving each chunk a push began with has been published, counted as dropped, or is still being pushed. |
| `SpscQueues.NobodyWaits` | plugin/src/vw_queue.c:36-78 | In every interleaving each own step of a push or a pop brings it nearer to its end and no step of the other thread takes it back: a push of n words ends within n + 3 own steps. |
| `SpscQueues.RefusedOnlyWhenFull` | plugin/src/vw_queue.c:36-78 | A push is refused exactly when the ring is full at its load of the tail, a pop exactly when it is empty. |
| `SpscQueues.NextInv` | plugin/src/vw_queue.c:36-78 | Every step of either thread keeps the ring invariant. |
| `SpscCalls.PushAlone` | plugin/src/vw_queue.c:36-56 | A push undisturbed by the other thread publishes the whole chunk, or counts it as dropped when full. |
| `SpscCalls.PopAlone` | plugin/src/vw_queue.c:58-78 | A pop undisturbed by the other thread returns the oldest chunk whole, or nothing when empty. |
| `SpscCalls.SpscQueue.PushChunk` | plugin/src/vw_queue.c:36-56 | The method equals the schedule of its own steps run without interruption. |
| `SpscCalls.SpscQueue.PopChunk` | plugin/src/vw_queue.c:58-78 | The method equals the schedule of its own steps run without interruption. |
| `FrameQueues.OrderAndConservation` | worker/src/vw_worker_queue.c:75-225 | For every run: popped then queued frames are a subsequence of the offered ones, and offered audio time is popped plus queued plus dropped time. |
| `FrameQueues.ShutdownIsNeverLost` | worker/src/vw_worker_queue.c:97-206 | Once SHUTDOWN is pushed the queue holds one until a pop returns one. |
| `FrameQueues.ShutdownStays` | worker/src/vw_worker_queue.c:97-206 | No single push removes the last SHUTDOWN. |
| `FrameQueues.DisplacementPolicy` | worker/src/vw_worker_queue.c:97-206 | Audio displaces only audio; a queued START or STOP gives way to nothing but SHUTDOWN, START and STOP. |
| `FrameQueues.PushDoes` | worker/src/vw_worker_queue.c:75-206 | What every push does, in the numbers of the protocol: kept last when there is room, else which frame gives way - the oldest of which kinds - or that it is refused, and the frames afterwards. |
| `FrameQueues.DirectivesLand` | worker/src/vw_worker_queue.c:97-206 | An incoming START or STOP is refused if and only if every queued frame is SHUTDOWN. |
| `WorkerQueues.WorkerQueue.constructor` | worker/src/vw_worker_queue.c:25-45 | A new queue is empty with both audio totals 0. |
| `WorkerQueues.WorkerQueue.PushFrame` | worker/src/vw_worker_queue.c:75-206 | A push changes the ring and the audio totals as the policy function says and reports whether the frame was kept. |
| `WorkerQueues.WorkerQueue.RemoveAt` | worker/src/vw_worker_queue.c:115-120 | Shifting newer frames left removes one frame and keeps the order. |
| `WorkerQueues.WorkerQueue.ChooseVictim` | worker/src/vw_worker_queue.c:97-186 | The searches find the frame the policy gives up, if any. |
| `WorkerQueues.WorkerQueue.PopFrame` | worker/src/vw_worker_queue.c:208-225 | Pops the oldest frame and takes its audio off the queued total. |
| `Wire.LeRoundTrip` | protocol/src/vw_protocol_codec.c:8-20 | A number written little-endian reads back unchanged. |
| `Frames.HeaderRoundTrip` | protocol/src/vw_protocol_codec.c:8-20 | A valid header decodes to itself, whatever follows it. |
| `Frames.HeaderBytes` | protocol/src/vw_protocol_codec.c:14-20 | Every accepted header is the encoding of what it decodes to. |
| `Frames.HeaderIsValidIff` | protocol/src/vw_protocol_validate.c:9-16 | A header is valid exactly with magic 0x564C4357, major version 1, a type from 1 to 16 and at most 1048576 bytes to come. |
| `Frames.StaleFramesAreSkipped` | worker/src/vw_worker.c:250-272 | Frames with any sequence numbers are read back exactly, stale ones skipped without losing the next boundary. |
| `Frames.SentIsReceived` | worker/src/vw_worker.c:213-300 | Frames sent with increasing sequence numbers are what the reader reads. |
| `Frames.AcceptedInOrder` | worker/src/vw_worker.c:250-274 | Whatever the bytes, accepted frames have strictly increasing sequence numbers. |
| `FrameReaders.ReadExactly` | worker/src/vw_worker.c:227-241 | Reads exactly the bytes asked for however they arrive; fails only when the stream ends first. |
| `FrameReaders.NextFrame` | worker/src/vw_worker.c:226-294 | Reads one whole frame, or the stream is too short or starts with an invalid header. |
| `FrameReaders.ReaderMain` | worker/src/vw_worker.c:213-312 | For every way of cutting the bytes, with timeouts anywhere and any number of pops before each push, the reader thread offers exactly the frames of the stream that are not stale to the frame queue, in order, and the queue is what that run of offers and pops makes of it; it stops silently exactly when told to before the stream breaks, and otherwise its last push is a SHUTDOWN, which the queue then holds. |
| `FrameReaders.ReaderKeepsOrder` | worker/src/vw_worker_queue.c:75-225 | However pushes and pops fall, what has been popped and then what is still queued are the offered frames in order with some left out, and all their audio time is accounted for. |
| `ClientReaders.ReceiveAll` | plugin/src/vw_worker_client.c:28-49 | Reads all bytes; times out only with nothing consumed; anything else is fatal. |
| `ClientReaders.Client.ReadFrame` | plugin/src/vw_worker_client.c:741-810 | Reads one whole frame, or times out at a boundary, or drops the transport. |
| `ClientReaders.Client.ReceiveFrame` | plugin/src/vw_worker_client.c:723-876 | A receive call ends with the transport dropped or with whole frames consumed: the ones skipped were stale, of another type, undecodable or not valid; the one returned is new, of one of four types, decodes and is valid. |
| `ClientReaders.Client.AwaitStarted` | plugin/src/vw_worker_client.c:327-464 | The wait for STARTED on bytes: the outcome is what the first frame that does not say to go on means, among the bytes that arrive before the deadline; the session becomes active exactly on a confirmation; the call ends with whole frames consumed, or with the transport dropped, exactly on a stale, ill-sized, foreign or undecodable answer, a broken stream or the deadline. |
| `ClientReaders.Client.HandshakeFrame` | plugin/src/vw_worker_client.c:336-456 | One frame of the wait: a bad header, a stale or ill-sized STARTED drops the transport before its payload is read; otherwise the whole frame is read and judged. |
| `Payloads.FieldComesBack` | protocol/src/vw_protocol_codec.c:42-426 | Decoding an encoded field takes exactly its bytes and gives its settled value. |
| `Payloads.SettledIffClean` | protocol/src/vw_protocol_codec.c:246-264 | A field survives exactly when its array is terminated and zero behind counted text. |
| `MessageLayouts.BytesOnTheWire` | protocol/src/vw_protocol_codec.c:42-222 | The bytes of each of the sixteen messages, field by field in the order they are sent. |
| `MessageLayouts.SessionComesFirst` | protocol/src/vw_protocol_codec.c:68-215 | Every message about a session begins with its sixteen-byte id. |
| `MessageLayouts.CountedPartsAreReadIff` | protocol/src/vw_protocol_codec.c:227-350 | A counted text, a URL and the tail of a caption are read exactly when they are all there and fit their arrays; the latter two may be absent. |
| `MessageLayouts.FlagAloneIsRead` | protocol/src/vw_protocol_codec.c:407-417 | A STARTED of one byte is the flag alone. |
| `MessageLayouts.ShortStatusIsReadIff` | protocol/src/vw_protocol_codec.c:350-371 | A STATUS of fewer than 60 bytes is read exactly if it has 44, with an empty backend. |
| `StartAnswers.StartedConfirmsIff` | plugin/src/vw_worker_client.c:347-390 | Byte by byte, which STARTED payloads confirm a start, with which flag, and which break the connection. |
| `StartAnswers.ErrorRefusesUnless` | plugin/src/vw_worker_client.c:391-443 | Byte by byte, which ERROR payloads are passed over during a start, which refuse it, and which break the connection. |
| `StartAnswers.FirstAnswerDecides` | plugin/src/vw_worker_client.c:320-465 | Of any frames the first that decides ends the wait, whatever follows; a confirmation with an old number or an unknown size breaks it unread. |
| `PayloadCodec.EncodePayload` | protocol/src/vw_protocol_codec.c:42-210 | For every message type, the encoder writes exactly the fields in order, or fails when they do not fit or an error text is unterminated. |
| `PayloadCodec.DecodeMessage` | protocol/src/vw_protocol_codec.c:227-425 | For every message type, including the two older short forms, the decoder reads exactly the fields and rejects left-over bytes. |
| `PayloadCodec.EncodableIff` | protocol/src/vw_protocol_codec.c:175-188 | Encoding is refused exactly when an error text holds no NUL. |
| `PayloadCodec.PayloadRoundTrip` | protocol/src/vw_protocol_codec.c:42-426 | Every encoded message decodes, to its settled values, and to the same struct if and only if its character arrays are clean. |
| `PayloadCodec.FullArrayIsCut` | protocol/src/vw_protocol_codec.c:42-426 | A MODEL_CTRL whose model name fills its array of 32 bytes comes back without the last one. |
| `PayloadCodec.LayoutsAreWellShaped` | protocol/include/vw_protocol_types.h:84-102 | Exactly the message types 1 to 16 have a layout, and only its last field may be optional. |
| `PayloadCodec.EncodedLength` | protocol/src/vw_protocol_codec.c:42-210 | An encoded message is as long as its fixed part plus its counted bytes. |
| `PayloadCodec.DocumentedSizes` | protocol/include/vw_protocol_types.h:160-283 | The payload sizes the program declares are the lengths of what the encoder writes. |
| `PayloadCodec.QueueCountsDecodedDuration` | worker/src/vw_worker_queue.c:63-73 | The duration the frame queue counts for an audio payload is the one the codec decodes, 0 when it does not decode or is not positive. |
| `PayloadCodec.MessagesArrive` | worker/src/vw_worker.c:213-300 | Clean messages encoded with increasing sequence numbers and concatenated are all read and decoded unchanged. |
| `JsonText.JsonEscapeString` | worker/src/vw_translate.c:297-348 | Writes the escaped text and a terminator, or fails exactly when it does not fit. |
| `JsonText.JsonUnescapeString` | worker/src/vw_translate.c:229-280 | Writes the unescaped text and a terminator, or fails exactly when the text is malformed or does not fit. |
| `JsonText.UrlEncodeInto` | worker/src/vw_translate.c:80-100 | Writes the percent-encoded text, or fails exactly when it does not fit. |
| `JsonText.UnescapeEscape` | worker/src/vw_translate.c:229-348 | Unescaping undoes escaping for every NUL-free text. |
| `JsonText.UrlDecodeEncode` | worker/src/vw_translate.c:80-100 | Percent-decoding (RFC 3986 section 2.1) undoes percent-encoding for every byte text. |
| `JsonEscapes.Utf8BytesIsRfc3629` | worker/src/vw_translate.c:102-122 | The bytes made of an escaped scalar are the ones section 3 of RFC 3629 gives for it: well-formed, and read back as that scalar by a decoder of the grammar in its section 4. |
| `JsonEscapes.OneEncoding` | worker/src/vw_translate.c:102-122 | No other byte sequence of that grammar stands for the scalar. |
| `JsonEscapes.PiecesAreRead` | worker/src/vw_translate.c:229-280 | Of any text made of plain characters, the two-character escapes of RFC 8259 section 7, four-digit escapes of either case and surrogate pairs, unescaping gives what each piece stands for, in order. |
| `JsonEscapes.OnlyPiecesAreRead` | worker/src/vw_translate.c:229-280 | Whatever unescapes is made of such pieces, so exactly those texts are accepted. |
| `JsonEscapes.EscapedFormIs` | worker/src/vw_translate.c:297-345 | Which characters escaping writes as themselves, which with a letter, and which as four hexadecimal digits. |
| `JsonEscapes.PercentFormIs` | worker/src/vw_translate.c:80-100 | The unreserved characters of RFC 3986 are written as themselves, all others as a percent sign and two capital hexadecimal digits. |
| `JsonScan.WhiteSpaceIs` | worker/src/vw_translate.c:407-448 | What the scanners take for white space. |
| `JsonScan.JsonStringEnd` | worker/src/vw_translate.c:282-295 | The backward count of slashes before each quote finds the quote a forward scan with an escape flag finds. |
| `JsonScan.SkipNested` | worker/src/vw_translate.c:407-445 | The bracket loop stops where the bracket walk does. |
| `JsonScan.SkipJsonValue` | worker/src/vw_translate.c:407-445 | The pointer loop skips the value at the front as SkipValue does. |
| `JsonScan.GetJsonArrayElement` | worker/src/vw_translate.c:447-464 | The pointer loop finds the text of element k as ArrayElement does. |
| `JsonValues.SkipValueStopsAtEnd` | worker/src/vw_translate.c:407-445 | For every well-formed JSON value with any white space, followed by a delimiter or the end, skipping stops exactly at its end. |
| `JsonValues.ArrayElementIsFound` | worker/src/vw_translate.c:447-464 | For every rendered array and k, the lookup points at element k, or at nothing past the end. |
| `JsonValues.WalkValue` | worker/src/vw_translate.c:407-445 | Walking over a rendered value leaves bracket depth and string state as they were. |
| `GtxResponse.SkipSegmentArray` | worker/src/vw_translate.c:380-405 | Steps over the rest of a segment as Segment does. |
| `GtxResponse.ParseSegmentsList` | worker/src/vw_translate.c:466-503 | Collects the first strings of the segments as ParseList does, within the output buffer. |
| `GtxResponse.ParseGtxResponse` | worker/src/vw_translate.c:505-514 | Parses a response as ParseGtx does. |
| `GtxResponse.SegmentIsNested` | worker/src/vw_translate.c:380-405 | The segment walk agrees with the bracket walk of the value scanner. |
| `GtxResponse.ListIsJoined` | worker/src/vw_translate.c:466-503 | For every rendered list of segments the parser returns the joined first strings, when they unescape, fit and are not all empty. |
| `GtxResponse.GtxReturnsConcatenation` | worker/src/vw_translate.c:505-514 | The same for a whole response with any white space and any rest. |
| `GtxResponse.JoinedIsConcat` | worker/src/vw_translate.c:466-503 | When every piece unescapes and all fits, joining is plain concatenation. |
| `RpcResponse.ParseRpcResponse` | worker/src/vw_translate.c:516-574 | Marker search, payload string, path lookup and both fallbacks, as ParseRpc says. |
| `RpcResponse.UnescapeShrinks` | worker/src/vw_translate.c:539-542 | Unescaping never lengthens a text, so a buffer one byte longer than the source is enough. |
| `RpcResponse.PathFindsList` | worker/src/vw_translate.c:545-558 | For every canonical JSON payload the path [1][0][0][5] leads to the list and its joined strings. |
| `RpcResponse.RpcReturnsConcatenation` | worker/src/vw_translate.c:516-574 | For every response whose payload string unescapes to a canonical JSON value, however it is escaped, the parser returns the concatenated strings of its segments. |
| `RpcResponse.EscapedAnswerIsRead` | worker/src/vw_translate.c:297-348 | So it does for the answer that begins with the marker and carries any canonical value without a NUL, escaped as the program itself escapes. |
| `RpcBody.BuildRpcBody` | worker/src/vw_translate.c:576-617 | The body is the fixed prefix and the percent-encoded envelope; with the documented input sizes it fails only if the caller's buffer is too small. |
| `RpcBody.EverythingFits` | worker/src/vw_translate.c:576-617 | A text of at most 1024 bytes with tags of at most 15 fits every intermediate buffer. |
| `RpcBody.RecoverBody` | worker/src/vw_translate.c:576-617 | Percent-decoding, taking the string, unescaping, taking the string and unescaping gives back the text exactly. |
| `AudioTimeline.BlockContinuesIff` | worker/src/vw_audio_buffer.c:36-50 | In every run a block on a nonempty buffer extends the stream from the same anchor exactly if its time is within 63 us of the end of the audio so far, and otherwise is the new anchor. |
| `AudioTimeline.GaplessBlocksAreKept` | worker/src/vw_audio_buffer.c:36-66 | Blocks that each come within 63 us of the end of the audio so far leave the newest samples of all of them in one piece. |
| `AudioTimeline.HoldsNewestSamples` | worker/src/vw_audio_buffer.c:29-109 | After any run of appends, drains, overflows and clears the buffer holds the newest samples since its anchor, at most the maximum, and twice its start plus the half microsecond moves by exactly 125 per sample removed. |
| `AudioTimeline.TimestampsDoNotDrift` | worker/src/vw_audio_buffer.c:36-66 | For every block whose first sample is still held, the derived time is within 63 us of the time it came with. |
| `AudioTimeline.PushAllKeepsNewest` | worker/src/vw_audio_buffer.c:53-64 | A block pushes out exactly the oldest samples that do not fit. |
| `AudioTimeline.AppendKeepsNewest` | worker/src/vw_audio_buffer.c:36-66 | An appended block leaves the newest samples of the audio it continues, or of itself when it restarts the buffer. |
| `AudioTimeline.DerivedIsFixed` | worker/src/vw_audio_buffer.c:40 | The time derived for a sample does not depend on how many were removed before it. |
| `AudioTimeline.NextInv` | worker/src/vw_audio_buffer.c:29-109 | Every append, drain, overflow and clear keeps the invariant. |
| `AudioBuffers.AudioBuffer.constructor` | worker/src/vw_audio_buffer.c:6-18 | A new buffer is empty, its time -1. |
| `AudioBuffers.AudioBuffer.AdvancePts` | worker/src/vw_audio_buffer.c:29-34 | Advances by 62.5 us per sample, carrying the half. |
| `AudioBuffers.AudioBuffer.AppendS16le` | worker/src/vw_audio_buffer.c:36-66 | The sample loop over the ring equals Append, and says whether the block restarted the buffer. |
| `AudioBuffers.AudioBuffer.GetSamples` | worker/src/vw_audio_buffer.c:72-87 | Copies at most the wanted number of the oldest samples across the wrap, changes nothing, and reports their time. |
| `AudioBuffers.AudioBuffer.DrainSamples` | worker/src/vw_audio_buffer.c:89-101 | Removes the oldest samples as Drain does. |
| `AudioBuffers.AudioBuffer.ClearAll` | worker/src/vw_audio_buffer.c:103-109 | Empties the buffer and keeps the drop count. |
| `ChunkCutter.FindChunkBoundary` | worker/src/vw_vad.c:122-248 | The branches and both loops return what FindBoundary says. |
| `ChunkCutter.AlwaysTakes` | worker/src/vw_vad.c:122-248 | At the end of the audio and in a full window something is always taken: at least one sample, and never more than all when it is a cut or the detector's intervals lie in the window. |
| `ChunkCutter.WaitsExactlyWhen` | worker/src/vw_vad.c:144-227 | The window waits if and only if more may come, it is not full, does not start with a long silence and has no usable pause. |
| `ChunkCutter.CutsInPausesAreClear` | worker/src/vw_vad.c:166-200 | When a pause is usable, a cut before the window's end keeps 2400 samples from speech on both sides and makes a chunk of at least the minimum size. |
| `ChunkCutter.ForcedCuts` | worker/src/vw_vad.c:201-227 | Without a usable pause the window is cut only at the end of audio or when full, behind speech that ends in time or at the limit. |
| `ChunkCutter.SilenceHoldsNoSpeech` | worker/src/vw_vad.c:144-164 | What is dropped as silence ends 2400 samples before the next speech. |
| `ChunkCutter.SilentWindow` | worker/src/vw_vad.c:122-248 | A window without speech waits below 96000 samples, is dropped but for its last 2400 from there on, and is dropped whole at the end of the audio. |
| `ChunkCutter.LoudWindow` | worker/src/vw_vad.c:122-248 | Without a detector a loud window is never dropped: it is cut at 240000 samples, or whole at the end of the audio, and waits exactly before that. |
| `ChunkCutter.LateSpeech` | worker/src/vw_vad.c:122-248 | Silence is dropped before speech exactly if speech begins more than 18400 samples in, and then up to 2400 before it. |
| `ChunkCutter.CutBehindFirst` | worker/src/vw_vad.c:122-248 | The window is cut behind the first interval with 4800 samples of silence behind it that ends between 93600 and 381600: in the middle of the pause, and behind the last interval in the middle up to the end, at most 4800 behind it. |
| `ChunkCutter.CutWithoutSilence` | worker/src/vw_vad.c:122-248 | Without such an interval the window waits for 384000 samples or the end of the audio; at the end it is cut whole, when full behind the last interval in time. |
| `ChunkCutter.ForcedCutIsLast` | worker/src/vw_vad.c:122-248 | A forced cut lies 2400 samples behind the last speech that ends between 93600 and 381600 samples in, or at 384000. |
| `ChunkCutter.ForcedCutInRange` | worker/src/vw_vad.c:202-213 | The forced cut lies between the minimum and maximum chunk size. |
| `TailFlush.FlushTellsTheBuilder` | worker/src/vw_worker.c:314-346 | Chunk by chunk: the cut is where the boundary of the next 384000 samples or fewer says, and the phrases pushed are those the recogniser answers for exactly that window, in order. |
| `TailFlush.VoicedPhrasesArePushed` | worker/src/vw_worker.c:334-342 | Of a window exactly the phrases not taken for no speech are pushed, each once, in order and at their own times. |
| `TailFlush.SumsStopAtTheEnds` | worker/src/vw_worker.c:340-341 | Times are added up to the ends of a signed 64-bit number. |
| `TailFlush.FlushAudioTail` | worker/src/vw_worker.c:314-346 | The loop over buffer and builder equals Flush: same verdict, same rest, same chunks, and the builder is pushed exactly the phrases Flush lists, in order. |
| `TailFlush.FlushPartitionsAudio` | worker/src/vw_worker.c:314-346 | Whatever is heard, the flush ends; the chunks and the rest are the buffered samples in order, each once, with exact times; nothing is left if and only if it succeeds. |
| `TailFlush.FailsOnlyWithRecogniser` | worker/src/vw_worker.c:331 | A failed flush stopped at a window on which the recogniser failed, and kept the audio from there on. |
| `AudioCaptures.AudioCapture.ProcessBlock` | plugin/src/vw_audio_capture.c:7-116 | For all three sample formats the sample loop with its chunk buffer produces the chunks of the resampled block and saves the phase; resets, rate changes, throttling above rate 4 and bad input as coded. |
| `Resampling.ResampleConserves` | plugin/src/vw_audio_capture.c:62-66 | emitted * rate + phase after = phase before + frames * target: no drift. |
| `Resampling.OutputDependsOnFramesOnly` | plugin/src/vw_audio_capture.c:50-115 | At a constant rate the concatenated output does not depend on how the input is split into blocks. |
| `Resampling.SampleComesFrom` | plugin/src/vw_audio_capture.c:62-87 | Output sample j is the mono mix of the frame current when the input reaches j + 1 source periods. |
| `Resampling.MonoIsMean` | plugin/src/vw_audio_capture.c:67-86 | Of samples that fit their format the mono sample is the mean of the converted channels cut towards zero, and in range, so the final clamp never acts. |
| `Resampling.ConversionInRange` | plugin/src/vw_audio_capture.c:70-81 | Converting a float of any size, a 16-bit or a 32-bit sample gives a 16-bit number, within one unit of the scaled value and on the side of zero, or of minus infinity for 32-bit ones. |
| `Resampling.ChunksHoldPcm` | plugin/src/vw_audio_capture.c:89-107 | The chunks of a block hold its output in order, at most 8192 samples each, each starting where the last ended. |
| `Resampling.ChunksAreFull` | plugin/src/vw_audio_capture.c:89-107 | Every chunk but the last holds 8192 samples, and each lasts the least number of microseconds its samples need. |
| `Resampling.NewRateBegins` | plugin/src/vw_audio_capture.c:44-48 | At a new rate above 16 kHz the first frame is taken at once and leaves no remainder; at a lower one the phase begins at 0. |
| `Resampling.ChunksPassValidation` | protocol/src/vw_protocol_validate.c:142-153 | At 16 kHz every chunk passes the audio payload check, with bytes = floor(duration * 32 / 1000) exactly. |
| `Sha256.Context.constructor` | worker/src/vw_sha256.c:63-75 | A new context stands for the empty message. |
| `Sha256.Context.Transform` | worker/src/vw_sha256.c:17-61 | The schedule and round loops compute the compression function of FIPS 180-4 section 6.2.2. |
| `Sha256.Context.Update` | worker/src/vw_sha256.c:77-88 | Appends the bytes to the message, however it is split across calls. |
| `Sha256.Context.Final` | worker/src/vw_sha256.c:90-119 | Writes the digest of FIPS 180-4 of everything given, for every residual length, including the two-block padding. |
| `Sha256.HashOf` | worker/src/vw_sha256.c:121-126 | The one-call form gives the digest of its argument. |
| `Sha256.PaddedInTwo` | worker/src/vw_sha256.c:97-102 | With 56 or more bytes left the padded message ends in two blocks, the second with zeros and the length. |
| `Sha256.PaddedInOne` | worker/src/vw_sha256.c:94-96 | With fewer than 56 bytes left one block is enough. |
| `Fips180.ZeroCountIsLeast` | worker/src/vw_sha256.c:92-102 | The zero bytes written are the fewest that leave room for the length field. |
| `Fips180.PaddingIsInjective` | worker/src/vw_sha256.c:92-113 | Different messages below 2^61 bytes are padded differently. |
| `Sha256Vectors.AbcDigest` | tests/unit/test_model_download.c:24-27 | The digest of the three bytes "abc" is the published one, computed through padding, schedule and all 64 rounds. |
| `Sha256.ShiftBig0` | worker/src/vw_sha256.c:5 | The pairs of shifts the program rotates with are the rotations of FIPS 180-4. |
| `EditDistances.EditDistance` | tools/quality_benchmark/vw_quality.py:37-53 | The two-row loop with the swap by length returns the distance. |
| `EditDistances.DistanceIsLeastCost` | tools/quality_benchmark/vw_quality.py:37-53 | The distance is the least cost of an edit script turning one list into the other. |
| `EditDistances.DistanceIsSymmetric` | tools/quality_benchmark/vw_quality.py:39-42 | The distance is symmetric, which the swap relies on. |
| `EditDistances.ZeroIffEqual` | tools/quality_benchmark/vw_quality.py:37-53 | The distance is 0 if and only if the lists are equal: a free script keeps everything. |
| `EditDistances.TriangleInequality` | tools/quality_benchmark/vw_quality.py:37-53 | The triangle inequality, by composing edit scripts. |

## Left out

- Sockets, named pipes, process start, threads, files, logging, clocks: the transport is a byte stream or channel that may time out or end, a deadline is an event that may come at any time; a failing clock is not modelled.
- The player's interface, the caption presenter and scripting: only the session id check before a caption is shown is modelled.
- Speech recognition, voice detection, decoding and HTTP: their results are arbitrary inputs.
- In the session model and in `worker_loop` sends succeed and the HELLO exchange has been done; the frame queue of the session model may lose any frame. Whether a frame decodes and passes validation is an input; one that does not ends the worker.
- SessionClients.SessionClient.SendPositionReport: sends do not fail, here and in the client's other calls; a transport lost at any moment is the event DropTransport of the session model.
- SessionClients.SessionClient.StartSession: names and addresses too long for their arrays are not refused; the client's calls run against the system state passed in and read whole messages; the same wait on bytes is ClientReaders.Client.AwaitStarted, and SessionHandshakes.SameWait joins the two.
- SessionClients.SessionClient.AwaitStarted: as above, for the loop of the wait.
- SessionClients.SessionClient.HandshakeFrame: as above, for one message of it.
- The worker's capability bits other than translation.
- Model download, status contents, model control messages and their handlers in the worker: bookkeeping around the session logic.
- The request tiers, HTTP fallback, diagnostics overrides and the mobile response parser.
- The phantom-phrase filter is a parameter; of its own rules only the one for punctuation is used, in a run.
- SpscQueues.AnyInterleaving: steps are sequentially consistent with stale local copies; weaker memory orders than acquire and release publication are not modelled.
- ClientReaders.Client.ReceiveFrame: which field values are valid is a parameter.
- PayloadCodec.DecodeMessage: the C decoder refuses a NULL buffer, and so the empty payload of a SHUTDOWN, which the worker then accepts by its type (vw_worker.c:634); here an empty payload decodes to no fields.
- WorkerLoops.WorkerLoop.DrainTranslation: how often the loop looks is bounded by the list of what the pool does meanwhile; that list may be of any length.
- PayloadCodec.EncodePayload: capacity is checked per field, not per primitive, so a failing call may leave other bytes behind; numbers are bit patterns, the playback rate included.
- Payload validation except audio chunks, error codes and UTF-8 text: range checks on single fields.
- AudioCaptures.AudioCapture.ProcessBlock: floating-point samples and the playback rate are real numbers; rounding of a product and values that are no numbers are not modelled.
- AudioBuffers.AudioBuffer.AppendS16le: samples are kept as given; the division by 32768 is left out.
- Sha256.Context.Final: the bit count is unbounded; it equals the 64-bit count for every message the standard allows.
- The error rates computed from edit distances, benchmark reports and corpus scripts.
