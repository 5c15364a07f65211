# Voice-agent pipeline: proved models

The pipeline connects speech input, a language model and speech output through
handlers that exchange events. This project models the handlers and codecs that
are state machines or stream transformers, and proves what they keep over whole
runs. Every file holds one module, or one side of it:

| files | part of the pipeline |
|---|---|
| `TaskGroup`, `TaskEngine`, `DynamicContextManager` | the task-group engine: which tasks are in scope, captured variables, the derived tool list and prompt |
| `TaskTheorems`, `TaskDerivedState`, `TaskProgress`, `TaskNames`, `TaskBounds` | what its runs keep: ordering, exclusivity, confluence; caches never stale; progress; shared names; bounds and the way to an end |
| `ActivityControl`, `GateTheorems` | the interruption gate between synthesis and transport, with its timers and one-slot channel |
| `Filler`, `FillerTheorems`, `FillerHistory` | the filler request protocol, with late, reordered and repeated deliveries, and its behaviour told from the history alone |
| `Segmentation`, `SpokenTexts`, `SpeakingSimulation`, `LateOffers` | the speech handler: cutting a response into texts, and speaking word by word |
| `Framing`, `Silero`, `SileroResets`, `Denoiser`, `DenoiserSplits` | fixed-size framing, and its two users |
| `Wav`, `Channels`, `Bytes` | WAV containers, mono and stereo, little-endian integers |
| `DeepgramTts`, `DeepgramServer` | the bounded text splitter, against the server's buffer by size and by content |
| `VadHandler` | speech edges from per-chunk confidence |
| `ToolCalls` | reassembly of interleaved tool-call fragments |
| `Text`, `TextTheorems` | white space: trimming and splitting |
| `Options`, `Sequences`, `Edges` | shared helpers |

Code that updates fields is a class whose methods are proved equal to a step on
values (`Now()` is the abstract value); what the program promises is then proved
about runs of those steps. An operation that runs under a lock, or in one round
of an event loop, is one atomic step; everything that can happen between two of
them (timers, callbacks, deliveries, other callers) is a label of the run, in any order.

## Where the code does not keep a promise

- The gate's confirmation timeout. A resume token or an earlier timer left over
  when an interruption is suspected ends the suspension early. `OwnTimerPromise`
  gives the exact condition, `StaleTokenReachable` a run. The gate still neither
  leaks nor sticks.
- The splitter's limit of 2000 characters. A text longer than 1900 bytes puts its
  first chunk on top of what is already waiting, before anything is flushed.
  `LimitKept` and `SessionLimit` give the exact condition, `LimitBroken` a session.
  A lost flush also makes the counter too low: `UndercountIsLostFlush` says exactly
  when, `FlushLost` is a call.
- "Flush only after at least one Speak payload" (`handlers/tts/tts_handler.go:232`).
  A text spoken at once is flushed without clearing the flag, so a completion can
  flush a service that holds nothing. `FlushRule` gives the exact condition over
  whole runs, `FlushRuleBroken` a run.
- A response spoken to its end. A response that starts over text the service still
  holds takes the flag down without a flush, so an empty completion leaves that text
  unspoken. `CompletionEmpties` gives the exact condition, `TextLeftBehind` a run.
- A reset of the speaking simulation. A text offered after the reset was asked for
  can still be spoken, because the loop may take it first. `LateOffersAreLost` gives
  the exact condition, `LateTextSpoken` a run.
- Splitting a stream for the denoiser. A stereo call may end inside a frame: it is
  accepted, and the half frame is dropped. `SplitIrrelevantIff` and `LengthsBalance`
  give the exact conditions, `CutFrameLost` two calls.
- Start of speech inside the grace period. The branch is dead unless interruptions
  lower the patience by more than a nanosecond and the threshold can be both
  reached and missed; nothing in the configuration forbids that.
  `GraceStartIsDead` gives the exact condition, `RestartOnSilence` the runs.
- WAV sizes are cut to 32 bits: `RoundTrip` holds exactly below 4 GiB.
- Repeated variable names. The comments ask for unique names but nothing checks
  it; a `set_x` tool offered for a later task is then resolved to the earlier one.
  `OfferReachesItsTask` gives the exact condition, `SharedNameFillsNothing` a
  session, and `UniqueNamesServe` what a group with unique names gets.
- The initial task of a group. Loading only looks its id up; what is visible at
  the start depends on `visible_after_task_id` alone. `InitialTaskIsHonoured`
  gives the exact conditions, `InitialTaskHidden` a group.

## Model

| member | source | states |
|---|---|---|
| TaskTheorems.Confluence | handlers/context/dynamic_context_manager.go:447-468 | Without disappearing tasks, every run that ends with nothing visible has completed exactly the tasks whose chain of predecessors ends at a root, whatever was set or completed in whatever order. |
| TaskTheorems.ConfluenceUpToCutOff | handlers/context/dynamic_context_manager.go:447-468 | With disappearing tasks: at the end a task is complete if and only if some chain from it to a root contains no task that disappeared uncompleted. |
| TaskTheorems.QuiescentTask | handlers/context/dynamic_context_manager.go:447-468 | In any ordered state with nothing visible, a task on a given chain is complete if and only if neither it nor a predecessor on the chain was cut off. |
| TaskTheorems.CompletedAreRooted | handlers/context/dynamic_context_manager.go:139-147 | Every task completed in any run has a chain of predecessors to a task visible from the start, also when completions are forced. |
| TaskTheorems.StepCompletes | handlers/context/dynamic_context_manager.go:222-304 | A call completes nothing, or exactly one task, which was in scope before the call. |
| TaskTheorems.RunOrdered | handlers/context/dynamic_context_manager.go:298-304 | In every reachable state completed ids belong to tasks of the group, and every completed task is unlocked. |
| TaskTheorems.CompletesAfterPredecessor | TASKS.md:32-40 | The step that completes a task finds its `visible_after` task already complete and the task not disappeared, in every run. |
| TaskTheorems.CycleNeverCompletes | handlers/context/dynamic_context_manager.go:447-464 | Tasks on a `visible_after` cycle of any length never complete, in any run. |
| TaskTheorems.BranchesAreExclusive | TASKS.md:56-67 | Of two tasks that each disappear after the other, at most one completes, in any run. |
| TaskTheorems.NeverVisibleAgain | handlers/context/dynamic_context_manager.go:447-468 | A completed or disappeared task is not visible after any further actions. |
| TaskTheorems.CompleteIsFinal | handlers/context/dynamic_context_manager.go:178-185 | Once nothing is visible, any further calls leave the whole session unchanged except for appended messages, and nothing becomes visible. |
| TaskTheorems.InitialTaskIsHonoured | handlers/context/dynamic_context_manager.go:77-112 | After loading, the first visible task is the initial task if and only if it waits for no other and every task before it does; it is visible at all if and only if it waits for no other; the session is complete at once if and only if every task waits. |
| TaskTheorems.InitialTaskHidden | handlers/context/dynamic_context_manager.go:81-83 | A group that loads although its initial task is hidden behind another one. |
| TaskTheorems.VisibleInOrder | handlers/context/dynamic_context_manager.go:447-460 | The visible tasks are exactly those in scope, each once, in configuration order. |
| TaskTheorems.OwnerIsFirst | handlers/context/dynamic_context_manager.go:232-248 | A `set_x` call is resolved to the first declaration of x in the first visible task that declares it; no earlier task or declaration has the name. |
| TaskTheorems.ForcedCompletesFirst | handlers/context/dynamic_context_manager.go:139-147 | A forced completion completes exactly the first task in scope in the configuration, stores nothing, and changes nothing when no task is in scope. |
| TaskTheorems.PendingInOrder | handlers/context/dynamic_context_manager.go:284-291 | The names reported missing are those of the declarations without a value, each once, in declaration order. |
| TaskEngine.Visible | handlers/context/dynamic_context_manager.go:447-468 | Holds a task if and only if the task is in the group, not completed, unlocked and not disappeared. |
| TaskEngine.Pending | handlers/context/dynamic_context_manager.go:284-291 | Holds a name if and only if the task declares it and has no value for it. |
| TaskEngine.LeadingSystem | handlers/context/dynamic_context_manager.go:100-108 | The length of the longest leading run of system messages. |
| TaskDerivedState.CachesAgree | handlers/context/dynamic_context_manager.go:95-123 | After load and any actions, the tool list equals a rebuild for the present progress (only the permanent tools once a completion emptied the visible set), the prompt slot holds the prompt for the visible tasks, and every other message is as it was or was appended. |
| TaskDerivedState.StepKeepsDerived | handlers/context/dynamic_context_manager.go:272-358 | Each single call keeps the tool list and the prompt equal to their recomputation and touches no other message. |
| TaskDerivedState.PromptMentionsVisible | handlers/context/dynamic_context_manager.go:497-519 | After load and any actions, the prompt slot is a system message that speaks of exactly the visible tasks, in order: a wrap-up if and only if there is none, a focus if and only if there is one, simultaneous topics if and only if there are several. |
| TaskDerivedState.ToolsAre | handlers/context/dynamic_context_manager.go:358-420 | After load and any actions, the tools are the permanent ones, the registered global ones and then, each name once at its first occurrence, what the visible tasks ask for task by task; only the permanent ones after a completion that left nothing visible. |
| TaskDerivedState.ToolCounted | handlers/context/dynamic_context_manager.go:375-420 | How often any name is on a rebuilt list: as often as among the permanent and global tools, and once more if and only if a visible task names it as a registered tool or lacks the variable it sets. |
| TaskDerivedState.RegisteredInOrder | handlers/context/dynamic_context_manager.go:385-403 | Of a list of tool ids exactly the registered ones are offered, in the order of the list. |
| TaskDerivedState.SetToolOfferedOnce | handlers/context/dynamic_context_manager.go:405-416 | In a rebuilt list `set_x` occurs exactly once if some visible task lacks x and not at all otherwise, when no other tool has that name. |
| TaskDerivedState.RegisteredToolOffered | handlers/context/dynamic_context_manager.go:385-403 | A registered tool is in a rebuilt list if and only if it is permanent, global, or named by a visible task. |
| TaskDerivedState.PermanentToolsFirst | handlers/context/dynamic_context_manager.go:375-390 | Every rebuilt list starts with the permanent tools followed by the registered global tools. |
| TaskProgress.ReachableProgress | handlers/context/dynamic_context_manager.go:470-481 | In every reachable state all stored values passed the validation of the variable they are stored for, and every uncompleted task that declares variables lacks one. |
| TaskProgress.StoredValuesMeet | handlers/context/task_group.go:43-60 | In every reachable session every stored value is one of the choices its first declaration lists, else matches its pattern if that compiles, else is non-empty when there is no pattern. |
| TaskProgress.AcceptedIfMeets | handlers/context/task_group.go:43-60 | A call is accepted if and only if the value meets what the first declaration of the name in the first visible task that declares it says. |
| TaskProgress.SomeOfferProgresses | handlers/context/dynamic_context_manager.go:405-416 | While a visible task declares variables, some variable declared by a visible task has its `set_*` tool on offer and fills a new slot with any value it accepts, the number of missing slots dropping by exactly one, even when names repeat across tasks. |
| TaskProgress.OfferedIffLacked | handlers/context/dynamic_context_manager.go:405-416 | In every reachable session `set_x` is on offer if and only if some visible task lacks x. |
| TaskProgress.AcceptedCallFills | handlers/context/dynamic_context_manager.go:232-262 | An accepted call removes exactly the slot of the first visible owner; it fills nothing if and only if that owner already has a value. |
| TaskNames.OfferReachesItsTask | handlers/context/dynamic_context_manager.go:232-248 | In every reachable session an accepted call of `set_x` reaches a visible task that lacks x if and only if no earlier visible task declares x. |
| TaskNames.UniqueNamesServe | handlers/context/dynamic_context_manager.go:34-36 | When no two tasks share a name: whatever a visible task lacks, its set tool is on offer, is resolved to that task, and fills a slot with every value its variable accepts. |
| TaskNames.SharedNameFillsNothing | handlers/context/dynamic_context_manager.go:34-36 | When two visible tasks share a name: a reachable session in which an offered set tool is called with an accepted value and fills nothing. |
| TaskProgress.MissingNeverGrows | handlers/context/dynamic_context_manager.go:258-262 | No action re-opens a slot. |
| TaskBounds.AchievementsBounded | handlers/context/dynamic_context_manager.go:222-304 | However long a session goes on, it makes at most one fresh capture for every slot of the group and one completion for every task. |
| TaskBounds.CanAlwaysFinish | handlers/context/dynamic_context_manager.go:139-147 | From every reachable session, at most as many forced completions as there are tasks left end with nothing visible. |
| TaskBounds.CanCollectAll | handlers/context/dynamic_context_manager.go:222-293 | When every variable accepts some value: from every reachable session, at most one call of an offered set tool for each missing slot, and no forced completion, leaves only tasks without variables visible. |
| TaskProgress.DialogueNeverAutoCompletes | TASKS.md:71-73 | No set call, accepted or not, completes a task that declares no variables. |
| TaskProgress.ResultIsTrue | handlers/context/dynamic_context_manager.go:222-293 | The reported result is true: a refusal changed nothing and gives the right reason, a completion completed exactly the owner with nothing missing, and "still needs" lists exactly the missing names and at least one. |
| DynamicContextManagement.DynamicContextManager.LoadTaskGroup | handlers/context/dynamic_context_manager.go:77-134 | Fails, changing nothing, if and only if the initial task is unknown; otherwise the session is the initial one of the group, with the prompt inserted after the leading system messages. |
| DynamicContextManagement.DynamicContextManager.HandleSetVariable | handlers/context/dynamic_context_manager.go:222-293 | The in-place call equals the specification step on progress, collected values, tools, messages and result; without a group it changes nothing. |
| DynamicContextManagement.DynamicContextManager.OnTaskComplete | handlers/context/dynamic_context_manager.go:298-369 | Equals the specification step that marks a task complete and rederives prompt and tools. |
| DynamicContextManagement.DynamicContextManager.CompleteCurrentTask | handlers/context/dynamic_context_manager.go:139-147 | Completes the first visible task, or changes nothing when none is visible. |
| DynamicContextManagement.DynamicContextManager.RebuildTools | handlers/context/dynamic_context_manager.go:375-420 | The loops over tools, tasks and variables compute the specified list, with one `seen` set across tasks. |
| DynamicContextManagement.DynamicContextManager.UpdateTaskInstruction | handlers/context/dynamic_context_manager.go:435-441 | Rewrites the text of the prompt slot only, and only if the slot exists. |
| DynamicContextManagement.DynamicContextManager.VisibleTasks | handlers/context/dynamic_context_manager.go:447-460 | The filtering loop computes the visible tasks. |
| DynamicContextManagement.DynamicContextManager.IsComplete | handlers/context/dynamic_context_manager.go:178-185 | True if and only if a group is loaded and no task is in scope. |
| DynamicContextManagement.DynamicContextManager.AllVarsCollected | handlers/context/dynamic_context_manager.go:470-481 | True if and only if every declared variable has a value; a task without variables counts as collected. |
| GateTheorems.AlwaysSafe | handlers/activity_control/activity_control_handler.go:102-249 | In every reachable state, with stale tokens, orphan timers and callbacks that outlive a stop: a non-empty cache implies suspended, and suspended implies a timer armed or gone off, or a token waiting. |
| GateTheorems.NeverStuck | handlers/activity_control/activity_control_handler.go:219-264 | From every reachable suspended state there are timer and resume steps alone that end the suspension and send exactly what was held back, in order. |
| GateTheorems.SuspendedForwardsNoAudio | handlers/activity_control/activity_control_handler.go:140-155 | In every reachable suspended state, no arriving packet lets any audio out. |
| GateTheorems.AudioConserved | handlers/activity_control/activity_control_handler.go:117-190 | Over every run, audio forwarded followed by audio cached is exactly the audio received minus what was in the cache at a dropping step, in order of arrival and without duplicates. |
| GateTheorems.CacheIsLatest | handlers/activity_control/activity_control_handler.go:140-151 | The cache is always the most recently received audio, so a drop loses only the latest packets. |
| GateTheorems.SentDurationExact | handlers/activity_control/activity_control_handler.go:152-160 | `totalSentDuration` is the sum of the durations of the audio forwarded since the last step that resets it. |
| GateTheorems.OwnTimerPromise | handlers/activity_control/activity_control_handler.go:157-169 | False as promised: a suspicion waits for its own timer or a confirmation if and only if it starts with no token waiting and no earlier timer armed or gone off. |
| GateTheorems.ConfirmedInTime | handlers/activity_control/activity_control_handler.go:168-190 | From any reachable gate with nothing under way, a suspicion that is confirmed before its timer goes off leaves nothing under way: no timer armed or gone off, no token, not suspended, an empty cache; so the next suspicion gets its promise. |
| GateTheorems.EventsPassAtOnce | handlers/activity_control/activity_control_handler.go:115-217 | In every run a packet without audio is sent at once, suspended or not; a confirmation is preceded by a broadcast end of speech if and only if the bot was announced as speaking. |
| GateTheorems.StaleTokenReachable | handlers/activity_control/activity_control_handler.go:230-240 | The run that leaves such a token behind: a confirmation between a timer going off and its callback. |
| GateTheorems.SpeechIsAnnounced | handlers/activity_control/activity_control_handler.go:168-210 | In every run, what the packets sent say about the bot speaking is what the handler believes, and a confirmed interruption always leaves the bot announced as silent. |
| ActivityControl.ActivityControlHandler.HandleEvent | handlers/activity_control/activity_control_handler.go:115-217 | Each event changes fields, timers and sent packets exactly as specified. |
| ActivityControl.ActivityControlHandler.OnFalsePositive | handlers/activity_control/activity_control_handler.go:242-264 | The loop sends the whole cache in order, adds its durations, empties it and ends the suspension. |
| ActivityControl.ActivityControlHandler.TimerFires | handlers/activity_control/activity_control_handler.go:219-229 | A callback puts a token in the one-slot channel, or does nothing if one is there. |
| FillerTheorems.HandedFillerIsLatest | handlers/llm/llm_handler.go:469-563 | Under every interleaving and delivery order, a filler handed out is a delivered, unskipped answer to the most recently issued request, issued in the current utterance, and the only one since the last clear. |
| FillerTheorems.AtMostOneBetweenClears | handlers/llm/llm_handler.go:497-512 | At most one filler is handed out between two clears, and the recorded filler is that one. |
| FillerTheorems.OlderResultsChangeNothing | handlers/llm/llm_handler.go:514-532 | In every reachable state a result or failure for any request but the latest changes nothing. |
| FillerTheorems.SecondDeliveryChangesNothing | handlers/llm/llm_handler.go:514-576 | After the first result or failure for a request, no later one for it changes anything, whatever happened in between. |
| FillerTheorems.AnswerEndsTheWait | handlers/llm/llm_handler.go:534-563 | A usable answer to the request being waited for is what the next poll hands out. |
| FillerTheorems.AlwaysInv | handlers/llm/llm_handler.go:426-576 | The invariant behind these: tokens number the requests, only the latest can be active, a ready filler answers it, and the recorded filler is the one handed out. |
| FillerHistory.RequestWhen | handlers/llm/llm_handler.go:426-457 | In every run a partial transcript makes a request if and only if fillers are on, it has more than three words and nothing was handed out since the last clear; the request carries the trimmed text, the utterance number counted from the history, and a token that numbers the requests. |
| FillerHistory.HandedWhen | handlers/llm/llm_handler.go:469-563 | In every run a filler is handed out if and only if the last request since the last clear was answered with something of use and nothing was handed out since; a poll gives up if and only if there is no request or it failed, and otherwise waits. |
| FillerHistory.HandedIsKept | handlers/llm/llm_handler.go:469-563 | What is handed out counts until the next clear, whatever else happens. |
| FillerHistory.AlwaysTold | handlers/llm/llm_handler.go:426-576 | The state is told by the history: listening, the number of utterances, and what became of the last request since the last clear, of which only the first result or failure counts. |
| Filler.FillerState.OnInterim | handlers/llm/llm_handler.go:426-467 | A new utterance resets the state, more than three words issue a new request with a fresh token and discard any earlier result. |
| Filler.FillerState.StoreResult | handlers/llm/llm_handler.go:514-532 | Stores a trimmed, unskipped result if token and utterance are current, and consumes the token. |
| Filler.FillerState.PollFiller | handlers/llm/llm_handler.go:537-563 | One polling round takes the ready filler, gives up if none was requested, and otherwise keeps waiting. |
| Silero.ListeningIgnoresChunking | vad/silero/silero.go:137-197 | Without a reset, any split of the samples into calls gives the same inference inputs and confidences, the same final state and context, and the same residual, shorter than one frame, as a single call. |
| Silero.SessionInputsAreWindows | vad/silero/silero.go:137-197 | Over any such calls the network sees exactly the overlapping windows of the whole stream: no sample skipped or repeated, each frame preceded by the samples right before it. |
| Silero.SessionAnswers | vad/silero/silero.go:180-196 | Over any such calls the confidences and the final hidden state are those of the network itself run over these windows in turn, each from the state the one before it left. |
| Silero.InferencesAreAnswers | vad/silero/silero.go:180-196 | For one buffer: every confidence and the final hidden state are the network's, carried from window to window. |
| Silero.LastConfidenceIs | vad/silero/silero.go:137-200 | A call reports the network's answer to the last window it completed, or 0 when it completed none. |
| Silero.FramesInUse | vad/silero/silero.go:79-97 | 512 new samples after 64 at 16 kHz, 256 after 32 at 8 kHz, and no other rate. |
| Silero.NormalizedExactly | vad/silero/silero.go:376-382 | Samples are scaled by exactly 1/32768, into [-1, 1). |
| SileroResets.SessionFollows | vad/silero/silero.go:100-197 | Over every session with its periodic resets, the network sees exactly the overlapping windows of each stretch between resets, in turn, each stretch starting from a silent context; its confidences and final hidden state are the network's answers to those windows, each stretch from a blank state. |
| SileroResets.ResetLosesResidual | vad/silero/silero.go:110-114 | A reset loses exactly the residual: the last samples of the stretch it ends, fewer than one frame; every sample before them was the new part of one window. |
| Silero.InputsAreWindows | vad/silero/silero.go:160-197 | For one buffer: the inputs are the overlapping windows, and context followed by residual is the end of the stream that no further window fits into. |
| Silero.InferWindow | vad/silero/silero.go:160-196 | The next context is the last samples of the frame just processed. |
| Silero.ResetIsLikeNew | vad/silero/silero.go:231-243 | After a reset the detector gives the outputs, residual and hidden state of a new one over every sequence of calls, although its context stays allocated. |
| Silero.SileroVAD.VoiceConfidence | vad/silero/silero.go:100-200 | The call equals framing the old residual followed by the new samples, after a due reset; its error cases change nothing else; the confidence is that of the last frame, or 0. |
| Framing.ChunkingIndependent | vad/silero/silero.go:137-197 | For any frame size and any stateful consumer, feeding chunk by chunk on top of the residual equals feeding the whole stream. |
| Framing.FramesAreTheBuffer | utils/audio/rnnoise_cgo.go:141-152 | The frames a buffer is cut into, followed by the residual, are the buffer: nothing lost, repeated or reordered. |
| Framing.ConsumesTheFrames | utils/audio/rnnoise_cgo.go:141-152 | The consuming loop runs its consumer over exactly those frames, in order, and keeps that residual. |
| Denoiser.CallsTakeAStream | utils/audio/rnnoise_cgo.go:101-172 | At 48 kHz, mono or stereo, after any calls, accepted or rejected, the bytes returned, the model state and the residual are those of one pass over the stream of what the calls took in; an odd-length call takes in nothing. |
| Denoiser.CallsSuppress | utils/audio/rnnoise_cgo.go:133-152 | Over any calls, the suppression model is run on exactly the 480-sample frames of what they took in, each from the state the frame before it left; its output is what they return, and the samples after the last full frame are kept. |
| Denoiser.DownMixes | utils/audio/rnnoise_cgo.go:112-121 | Mono audio is taken as it is; of stereo, each sample taken in lies between left and right and is their mean cut toward zero. |
| Denoiser.UpSamples | utils/audio/rnnoise_cgo.go:150-171 | Each sample put out is the clamped one of the model, once in mono and in both channels in stereo. |
| Denoiser.FloatsAreSamples | utils/audio/rnnoise_bridge.c:33-40 | The model is given the samples at their own scale. |
| DenoiserSplits.CallsIgnoreChunking | utils/audio/rnnoise_cgo.go:101-172 | For every model: if no accepted call before the last non-empty one ends inside a frame, any calls leave and return what one call on the accepted bytes does. |
| DenoiserSplits.SplitIrrelevantIff | utils/audio/rnnoise_cgo.go:107-116 | For accepted calls of given lengths the split is irrelevant for every content and model if and only if no call before the last non-empty one cuts a frame; with a cut, a model that changes nothing shows it. |
| DenoiserSplits.CutFrameLost | utils/audio/rnnoise_cgo.go:112-116 | A stereo frame handed over in two accepted calls is lost, where one call takes it in. |
| DenoiserSplits.RejectedCallsDoNothing | utils/audio/rnnoise_cgo.go:108-110 | Rejected calls leave no trace in what follows. |
| Denoiser.StereoIsMonoTwice | utils/audio/rnnoise_cgo.go:112-116 | A stereo denoiser does on every sequence of calls, rejected ones included, what a mono one does on the mixes they took in, with every returned sample doubled. |
| Denoiser.CallsKeepLength | utils/audio/rnnoise_cgo.go:101-244 | After any calls, samples out plus residual are the samples taken in, the residual is below 480, and a final flush brings the output to the samples taken in rounded up to a multiple of 480. |
| Denoiser.LengthsBalance | utils/audio/rnnoise_cgo.go:107-116 | The samples taken in are those of the accepted bytes if and only if the bytes cut off at the ends of calls come to less than one frame. |
| Denoiser.FramingIsTransparent | utils/audio/rnnoise_cgo.go:101-172 | Around a model that changes nothing, over any calls, mono or stereo, the bytes returned followed by the residual are exactly the stream taken in: framing and conversion lose, repeat and reorder nothing of it. |
| Denoiser.FlushIsSilence | utils/audio/rnnoise_cgo.go:208-236 | A flush returns what denoising the silence that completes the last frame would return. |
| Denoiser.RNNoiseDenoiser.Denoise | utils/audio/rnnoise_cgo.go:101-172 | An odd length is an error that changes nothing; otherwise the loop consumes every complete frame of the mono mix and returns the clamped samples in the input format. |
| Denoiser.RNNoiseDenoiser.Flush | utils/audio/rnnoise_cgo.go:208-244 | Processes the residual padded with silence, or returns nothing when there is none. |
| Denoiser.ToSample | utils/audio/rnnoise_bridge.c:42-53 | Every converted sample fits in 16 bits: 32767 from 32767 up, -32768 from -32768 down, and in between the value cut toward zero by less than one unit. |
| Segmentation.SegmentsAreTheStream | handlers/tts/tts_handler.go:160-203 | Within one uninterrupted response, the early segments followed by the text still held are exactly the streamed chunks; every segment contains a break word and has the minimum length, and the text still held lacks one of them. |
| SpokenTexts.SpokenEarly | handlers/tts/tts_handler.go:139-203 | Within one response, the texts handed over on streamed chunks are those segments, normalised, in order; the others are exactly the immediate chunks, normalised, and the texts to speak, without the empty ones. |
| SpokenTexts.CompletionSpeaksTheRest | handlers/tts/tts_handler.go:205-226 | A completion hands over what is held without the white space at its ends, or nothing when nothing else is held, and keeps no text. |
| SpokenTexts.ImmediateIsFlushed | handlers/tts/tts_handler.go:139-158 | A text that does not wait for the stream is buffered, flushed at once if that succeeds, and touches neither the stream nor the flag; an empty one does nothing. |
| SpokenTexts.ResponsesDoNotMix | handlers/tts/tts_handler.go:160-290 | In every run of a new handler, the text held and the texts handed over since the last start, completion or confirmed interruption come from what was streamed since then. |
| SpokenTexts.OffersAreBuffered | handlers/tts/tts_handler.go:139-310 | The speaking simulation is offered exactly the texts the service is. |
| Segmentation.FlushRule | handlers/tts/tts_handler.go:205-241 | In every run of a new handler, the next event flushes a service that holds nothing if and only if it completes a response on a stale flag with nothing new that the service accepts; stale is computed from the events and replies so far (an accepted early segment, then a text spoken and flushed at once). |
| Segmentation.StaleIsExact | handlers/tts/tts_handler.go:188-294 | In every run, the flag is up over an empty service exactly when it is stale, for every outcome of the service calls. |
| Segmentation.FlushRuleBroken | handlers/tts/tts_handler.go:232-294 | Such a run in ordinary use: an early segment, a text spoken at once, then a completion. |
| Segmentation.ForgottenIsExact | handlers/tts/tts_handler.go:205-290 | In every run, the service holds text that no flag stands for exactly when text was forgotten: a response started, or a reset failed, over text still held, or a text spoken at once was not flushed. |
| Segmentation.CompletionEmpties | handlers/tts/tts_handler.go:205-241 | In every run, a completion whose calls succeed leaves the service empty if and only if no text was forgotten or there is new text to flush it along. |
| Segmentation.TextLeftBehind | handlers/tts/tts_handler.go:205-290 | Text left behind in ordinary use: an early segment, a new response, an empty completion. |
| Segmentation.TTSHandler.HandleEvent | handlers/tts/tts_handler.go:137-310 | Each event changes the buffer and the flag and makes the service calls exactly as specified, for every outcome of those calls. |
| Segmentation.TTSHandler.DetectBreakWord | handlers/tts/tts_handler.go:167-173 | True if and only if some configured break word occurs in the text. |
| Text.SpaceEncodings | handlers/tts/tts_handler.go:205-208 | The byte patterns trimmed as white space are the UTF-8 encodings of exactly Unicode's white-space characters. |
| Text.OnlyEncodings | handlers/tts/tts_handler.go:205-208 | No other bytes are trimmed as white space. |
| TextTheorems.TrimSpaceExact | handlers/tts/tts_handler.go:205-208 | Trimming: the result is the one text that neither starts nor ends with white space and gives the original with white space put around it. |
| TextTheorems.FieldsExact | handlers/tts/tts_handler.go:350-355 | Splitting: the words are the one list of non-empty words, none with white space starting anywhere in it, that gives the text when laid out with white space around them and some between any two. |
| SpeakingSimulation.AlwaysGood | handlers/tts/tts_handler.go:337-430 | In every reachable state, speaking is the same as words queued and as the timer armed; started and ended events alternate and words come out only between them. |
| SpeakingSimulation.TickFindsAWord | handlers/tts/tts_handler.go:405-430 | The branch marked "should not happen" is unreachable. |
| SpeakingSimulation.ExitEndsSpeaking | handlers/tts/tts_handler.go:313-335 | Once the loop has exited the bot is silent and every started event has its ended event. |
| SpeakingSimulation.WordsConserved | handlers/tts/tts_handler.go:350-460 | Between resets the words spoken, then those queued, then those in the channel are exactly the accepted words, in order. |
| SpeakingSimulation.TextQueuesItsWords | handlers/tts/tts_handler.go:350-378 | A text taken by the loop extends the words spoken and queued by exactly the words that white space sets apart in it. |
| SpeakingSimulation.OneWordEach | handlers/tts/tts_handler.go:371-487 | In every run one word goes out with each announced start and one with each tick taken, and none otherwise. |
| SpeakingSimulation.ChannelHolds | handlers/tts/tts_handler.go:120-122 | In every run the text channel holds at most 100 texts and takes an offer if and only if it holds fewer. |
| SpeakingSimulation.ResetDropsUnspoken | handlers/tts/tts_handler.go:380-403 | A handled reset drops exactly the accepted words not yet spoken, queued or still in the channel, and speaks none of them. |
| LateOffers.LateOffersAreLost | handlers/tts/tts_handler.go:343-392 | Whatever happens between a reset being asked for and the loop handling it, the state it leaves is the one without the texts offered in between if and only if the loop speaks no more words in between than were waiting when the reset was asked for. |
| LateOffers.LateTextSpoken | handlers/tts/tts_handler.go:343-350 | A text offered after a reset was asked for that is spoken all the same: the loop takes it from silence before it handles the reset. |
| LateOffers.LateTextQueued | handlers/tts/tts_handler.go:371-378 | A late text that the loop takes while earlier words are queued, and that still leaves no trace. |
| SpeakingSimulation.SimulationLoop.SendNext | handlers/tts/tts_handler.go:435-487 | Speaks the first word, then re-arms the timer or ends speaking, as specified. |
| SpeakingSimulation.SimulationLoop.ReceiveText | handlers/tts/tts_handler.go:350-378 | Announces the start only from silence, queues the words and speaks at once if no timer is set. |
| Wav.RoundTrip | utils/audio/audio.go:222-354 | Stripping a wrapped PCM buffer returns it if and only if it is under 2^32 bytes. |
| Wav.HeaderReadsBack | utils/audio/audio.go:236-275 | Read where a WAV reader looks, the written bytes say: the size of what follows the first eight bytes and of the PCM bytes (both cut to 32 bits), format 1, the channels, the rate, the bytes per second and per frame, 16 bits; and after 44 bytes come the PCM bytes. |
| Wav.WrappedWhen | utils/audio/audio.go:222-234 | Wrapped if and only if there is some PCM, in whole frames of one or two channels, at a positive rate. |
| Wav.WalkResults | utils/audio/audio.go:330-354 | The size error is reported if and only if, behind well-formed chunks, the first data chunk says more bytes than follow it. |
| Wav.StripLeaves | utils/audio/audio.go:321-329 | A buffer is returned unchanged if and only if it does not begin as a WAV container. |
| Wav.StripWrapped | utils/audio/audio.go:222-354 | For every size: what comes back is the buffer cut to the size its 32-bit field can say. |
| Wav.WalkComplete | utils/audio/audio.go:330-354 | Behind any list of well-formed, even-padded chunks other than data, and whatever follows, the walk returns the data payload. |
| Wav.WalkSound | utils/audio/audio.go:330-354 | Conversely, whatever the walk returns is the payload of the first data chunk behind well-formed chunks other than data. |
| Wav.PcmToWav | utils/audio/audio.go:222-277 | Rejects the four kinds of bad argument, and otherwise writes a container made of header, format chunk and data chunk. |
| Wav.StripWavHeaderIfPresent | utils/audio/audio.go:321-354 | The index loop computes the walk, ends on every input, and returns a buffer without the header unchanged. |
| Channels.StereoRoundTrip | utils/audio/audio.go:457-525 | Down-mixing a doubled buffer returns it for every even length, and all but the last byte for an odd one. |
| Channels.MixedBetween | utils/audio/audio.go:509-520 | Every output sample, read back as 16 bits, lies between the two samples of its frame and is their mean cut toward zero. |
| Channels.MonoToStereo | utils/audio/audio.go:457-485 | The loop over a fixed-size buffer writes each sample twice. |
| Channels.StereoToMono | utils/audio/audio.go:488-525 | The loop over a fixed-size buffer writes the averaged samples, divided toward zero. |
| Bytes.PutOfInt16 | utils/audio/audio.go:511-520 | Writing back a 16-bit sample read in two's complement gives its two bytes. |
| Bytes.LittleEndian | utils/audio/audio.go:333-333 | A 32-bit field is read with its least byte first. |
| DeepgramTts.SessionLimit | services/deepgram/tts/tts.go:520-552 | Over any session of successful calls the server's buffer stays below 2000 if and only if every text that had to be split found fewer than 100 characters waiting; it never reaches 3900. |
| DeepgramTts.LimitBroken | services/deepgram/tts/tts.go:520-535 | A session that exceeds the limit: 100 bytes, then 1901. |
| DeepgramTts.LimitKept | services/deepgram/tts/tts.go:520-552 | For one call: below 2000 throughout if and only if the text needs no splitting or fewer than 100 characters are waiting. |
| DeepgramTts.PeakOfCall | services/deepgram/tts/tts.go:520-552 | When every write succeeds: the counter is exact after the call and below 2000, and the exact peak in each of its three cases. |
| DeepgramTts.PayloadsAreTheText | services/deepgram/tts/tts.go:522-552 | For every outcome of the writes: the payloads are non-empty, at most 1900 bytes, and concatenate to a prefix of the text, the whole of it if and only if the call succeeds. |
| DeepgramTts.UndercountIsLostFlush | services/deepgram/tts/tts.go:522-552 | From an exact counter, a call leaves the counter below what the server holds if and only if it loses a flush. |
| DeepgramTts.FlushLost | services/deepgram/tts/tts.go:538-546 | A call that leaves the counter 100 bytes too low: 100 waiting, a text of 1900, and an automatic flush that is not written. |
| DeepgramTts.SessionCovers | services/deepgram/tts/tts.go:498-612 | Over any session in which texts may fail to be written but flushes and clears are, the counter covers what the server holds, stays below 2000, and the server stays below 3900. |
| DeepgramTts.CounterAlwaysExact | services/deepgram/tts/tts.go:498-612 | After any sequence of successful calls the counter is the number of bytes the server has not flushed, and below 2000. |
| DeepgramServer.CallLosesNothing | services/deepgram/tts/tts.go:498-552 | On a server where a flush speaks what waits and a clear drops it: whatever becomes of its writes, a buffering call loses nothing that is there and adds a prefix of its text, the whole of it if and only if it succeeds. |
| DeepgramServer.OnlyResetsLose | services/deepgram/tts/tts.go:498-612 | Over every session, whatever the outcome of its writes, the text on that server is all the text written, in order, less what was waiting at each reset that was written. |
| DeepgramServer.FlushSpeaksAll | services/deepgram/tts/tts.go:555-582 | A flush that is written speaks all of it. |
| DeepgramServer.CounterIsWaiting | services/deepgram/tts/tts.go:498-612 | While calls succeed, the counter is the amount of text waiting there. |
| DeepgramTts.DeepgramTTS.BufferText | services/deepgram/tts/tts.go:498-552 | For every outcome of the writes the loop sends exactly the planned messages, leaves the planned counter and reports the planned status; the three refusals change nothing. |
| DeepgramTts.DeepgramTTS.Reset | services/deepgram/tts/tts.go:585-612 | Sends a clear and zeroes the counter, whether or not the write succeeds, or refuses and changes nothing. |
| VadHandler.SpeechEdgesAlternate | handlers/vad/vad_handler.go:82-163 | In every run started and ended events strictly alternate, and the last one tells whether speech is active. |
| VadHandler.ChunkEffects | handlers/vad/vad_handler.go:98-163 | After any run, a processed chunk emits exactly one of speaking and silence, last; a start or an end before it if and only if that differs from the last one emitted; an end if and only if speaking was emitted last, the chunk is not speech, and more than the grace in force has passed since the last chunk heard as speech; a suspected interruption if and only if a speech chunk starts speech while the bot was last reported speaking and may be interrupted. |
| VadHandler.SpeakingWhen | handlers/vad/vad_handler.go:82-163 | With clocks that run forward, a chunk is reported as speech if and only if it is speech, or comes within the grace of the last one that was; that grace is 300 ms, and the configured increase more for exactly five seconds after a suspected interruption. |
| VadHandler.GraceStartIsDead | handlers/vad/vad_handler.go:141-148 | For confidences in [0, 1], the branch that starts speech inside the grace is unreachable, in every run whose clock does not go back, if and only if interruptions are off or raise the patience by at least -1 ns, or the threshold is one that every confidence reaches or none does. |
| VadHandler.QuietChunkStartsNothing | handlers/vad/vad_handler.go:131-148 | When interruptions cost no patience, a chunk that is not speech never starts speech. |
| VadHandler.RestartOnSilence | handlers/vad/vad_handler.go:117-121 | For every configuration outside that condition, a run of confidences in [0, 1] in which a silent chunk starts speech. |
| VadHandler.VADHandler.HandleTransportAudio | handlers/vad/vad_handler.go:82-163 | The next state and the events sent, in order, are as specified, also when the detector fails. |
| ToolCalls.RunStreamingCompletion | services/openai/llm/llm.go:291-361 | Text passes through in order, and each tool-calls finish emits, in some order, exactly one call per named index, with the last name given and that index's fragments since the previous finish, concatenated in order of arrival. |
| ToolCalls.InterleavingIrrelevant | services/openai/llm/llm.go:313-345 | However the fragments of any number of streams with different indexes are interleaved, the batches that may be emitted are those of the streams one after the other. |
| ToolCalls.InterleavingBuilds | services/openai/llm/llm.go:313-345 | Under the same interleavings the builder map itself is the same, ids and kinds included. |
| ToolCalls.BuilderHolds | services/openai/llm/llm.go:316-342 | The builder has an entry for exactly the indexes that got a fragment, holding the name and the joined arguments. |
| ToolCalls.OnlyThose | services/openai/llm/llm.go:318-345 | The fragments joined for an index are those that carry it, each once, in order of arrival. |
| ToolCalls.NameIsLast | services/openai/llm/llm.go:336-338 | A call has the last name given for its index. |
| ToolCalls.ArgumentsJoin | services/openai/llm/llm.go:339-341 | Its arguments are those of the fragments, joined. |
| ToolCalls.GroupsPartition | services/openai/llm/llm.go:291-361 | The groups of fragments between finishes, then those after the last, are all the fragments in order, one group for each finish. |
| ToolCalls.GroupsOnlyGrow | services/openai/llm/llm.go:291-361 | Later responses change no earlier group. |
| ToolCalls.ContentsAreTheText | services/openai/llm/llm.go:310-316 | The texts passed through join to the text received, and none is empty. |
| ToolCalls.EmitCalls | services/openai/llm/llm.go:348-359 | Walking the map in any order emits one call for each named entry and none for the others. |

## Left out

- Transports, control plane, MCP, HTTP tool calls, session API, loggers and type generation: I/O and wiring.
- The fused text of the LLM event loop, false-positive regeneration and task event emission: their outcome depends on random channel selection or on methods the runner does not call.
- Neural networks, codecs and resampling: the two networks are function parameters, so every proof holds for any network; Opus, G.711 and the resampler are not modelled, and the denoiser is modelled at 48 kHz, where no resampling happens.
- Floating point: audio samples, confidences and durations are reals; rounding, NaN and infinities are not modelled.
- Machine integers: tokens, utterance numbers and sizes are unbounded, except the 16- and 32-bit fields of PCM and WAV data, which are cut explicitly; `int` is taken to be wider than 32 bits.
- Wording: prompts, result strings and descriptions are datatypes; regular expressions are a parameter that may reject a pattern; text normalisation is a parameter of the speech handler.
- Texts: sequences of bytes, one `char` per byte, so lengths are byte lengths as in the source.
- Time: clocks are inputs of a step; the deadline and sleep of `waitForFiller` are left out, so a wait is any number of polls.
- TaskTheorems.Confluence: assumes unique task ids, one load per session and a registry that no longer changes, which the code documents but does not check.
- A second `LoadTaskGroup`, or `RegisterTool` after it; the read-only copies of `CollectedVars`.
- A `LoadTaskGroup` on a context that other code replaces later; other code is modelled as appending messages only.
- Auto-confirm metadata of variables, and the filler and confirmation phrases built from it.
- Silero.SileroVAD.VoiceConfidence: does not model inference errors, a change of sample rate between calls, or the reuse of scratch buffers in place (`fullInput` and the tensors are values).
- Framing.ChunkingIndependent: frames are values, so the aliasing of frame slices with the buffer they are cut from is not modelled.
- DynamicContextManagement.DynamicContextManager.RegisterTool: keeps only the registry; handlers are not modelled.
- DeepgramTts.DeepgramTTS.BufferText: assumes calls do not overlap; a failed write reaches the server not at all; splits are on bytes before JSON encoding; reconnection is not modelled.
- Denoiser.RNNoiseDenoiser.Denoise: does not model resampling, so rates other than 48 kHz; the resampler is a foreign library.
- Denoiser.RNNoiseDenoiser.Flush: does not model resampling, as above.
- Segmentation.TTSHandler.HandleEvent: the offers to the simulation are recorded; whether its full channel drops them is part of the simulation's model.
- SpeakingSimulation.AlwaysGood: a text channel of capacity 100 that drops offers when full is modelled; the word interval is not, and an exited loop is not started again.
- ToolCalls.RunStreamingCompletion: assumes the stream is not cancelled; arguments are kept as text, before JSON decoding.
- ActivityControl.ActivityControlHandler.HandleEvent: does not model the playback estimate, which is only logged; a chunk carries its duration.
- Nil receivers, and the forwarding of every handled packet by the speech and voice-activity handlers.
