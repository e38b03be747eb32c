# A verified model of the orchestration layer of Chatterbox Manga Studio

The project models, in Dafny, the parts of the studio that decide what runs
when, what is kept, and what lines up with what:

- the workflow engine: dependency graph, checkpointed executor, retries, pause,
  cancel and resume (`WorkflowGraph`, `WorkflowStates`, `WorkflowOutcome`,
  `WorkflowControl`, `WorkflowEngine`, `WorkflowOverlap`);
- parallel TTS generation as a step relation over all interleavings (`TtsStream`);
- the output timelines, the live render pipeline, its cache check and the SRT
  captions (`Timeline`, `LiveRender`, `RenderCache`, `Text`, `Srt`);
- the schedulers and allocators: GPU memory, jobs, provider failover, rate limits
  and worker leases (`GpuMemory`, `GpuScheduler`, `GpuCapacity`, `JobScheduler`,
  `ProviderManager`, `SlidingWindow`, `RateLimits`, `WorkerPool`);
- transcript cues and translation batches (`CueMerge`, `BatchPlan`).

Objects whose methods update fields are classes here, and their methods are
proved against value-level specifications; what must hold over whole runs is
an invariant every method keeps. Handlers, providers and renderers are
arbitrary outcomes, the clock is a parameter that never runs backwards, fresh
identifiers are parameters, and times and sizes are exact reals.

`dafny verify dfyconfig.toml` checks everything.

What the model found where the code and a plain reading of it part ways:

- A pause during the back-off of a retry is overwritten in the record but leaves
  the pause event cleared. The executor then waits having read RUNNING, and
  resuming the run wakes it beside a second executor: both can call the same
  node (`WorkflowOverlap.CalledTwice`). A waiting executor of an uncancelled run has
  read RUNNING exactly when every pause request fell in a back-off
  (`WorkflowEngine.WorkflowRun.RunSession`), and resuming keeps its promises whenever
  no such executor waits (`WorkflowEngine.WorkflowRun.ResumeWorkflow`).
- The reply "not generated" is never returned: a cue that no thread took means that
  a cancel came first (`TtsStream.EntriesAreAnswers`).
- `cache_matches_timeline` refuses a finished pipeline's own manifest as soon as
  one cue has no audio (`RenderCache.FinishedManifestVerdict`).
- An SRT file reads back as written only when no stripped text has a blank line
  inside (`Srt.RoundTrip`).
- A granted VRAM request keeps its device within capacity whatever follows iff it
  is not negative, where the reserve fits in the memory; where it does not, iff it
  is not negative or no more negative than the memory that is missing
  (`GpuCapacity.SafeIff`).
- The lease accounting survives registering a worker only when its descriptor
  already counts its live leases (`WorkerPool.Pool.RegisterWorker`), and the expiry
  sweep can put an unhealthy worker back to use (`WorkerPool.SweepRevives`).
- The status a provider carries never keeps it from being chosen; the last
  branch of that test is dead (`ProviderManager.StatusNeverBlocks`).
- A provider with a rate limit below one request is never chosen
  (`ProviderManager.BelowOneNeverChosen`).
- A missing batch version moves the lines of every later batch up by its cues, so
  an active batch is in place iff no earlier batch is missing
  (`BatchPlan.LineLands`, `BatchPlan.InPlaceIff`).

## Model

| member | source | states |
|---|---|---|
| `WorkflowGraph.ValidateGraph` | src/chatterbox_manga_studio/services/workflow_engine.py:72-84 | A definition is accepted iff ids are unique, dependencies known and the graph acyclic; each of the three errors is reported iff it is the first of them, in that order, to apply |
| `WorkflowGraph.TopologicalOrder` | src/chatterbox_manga_studio/services/workflow_engine.py:86-98 | Terminates for every definition; succeeds iff there is no dependency cycle; the result lists exactly the node ids, each once, dependencies first, ordered by depth and then by id |
| `WorkflowGraph.PlaceRound` | src/chatterbox_manga_studio/services/workflow_engine.py:93-97 | Placing one round appends the ready ids and strikes them from every pending dependency set, and shrinks the pending nodes |
| `WorkflowGraph.NothingFree` | src/chatterbox_manga_studio/services/workflow_engine.py:90-92 | Pending nodes with none free contain an actual dependency cycle made of pending nodes |
| `WorkflowGraph.StuckHasCycle` | src/chatterbox_manga_studio/services/workflow_engine.py:90-92 | Pigeonhole: a non-empty set in which every node depends on a member contains a cycle |
| `WorkflowGraph.TopologicalIsAcyclic` | src/chatterbox_manga_studio/services/workflow_engine.py:86-98 | A topological order exists only for an acyclic graph |
| `WorkflowGraph.DepthsAgree` | src/chatterbox_manga_studio/services/workflow_engine.py:88-97 | The round a node is placed in (its longest dependency chain) is determined by the graph alone |
| `WorkflowGraph.DepthOrderUnique` | src/chatterbox_manga_studio/services/workflow_engine.py:88-97 | Depth-then-id order is unique, so the computed order is the only possible one |
| `WorkflowStates.TraceIsCausal` | src/chatterbox_manga_studio/services/workflow_engine.py:328-339 | In every saved state of a run, a node that left PENDING has all its dependencies COMPLETED |
| `WorkflowStates.TransitiveDependenciesDone` | src/chatterbox_manga_studio/services/workflow_engine.py:328-339 | And therefore all its transitive dependencies are COMPLETED |
| `WorkflowStates.CompletedIsFinal` | src/chatterbox_manga_studio/services/workflow_engine.py:371-384 | The record of a COMPLETED node never changes again in the run |
| `WorkflowStates.FailureBlocksDependents` | src/chatterbox_manga_studio/services/workflow_engine.py:294-303 | Everything that transitively depends on a FAILED node is still untouched |
| `WorkflowStates.SomethingIsReady` | src/chatterbox_manga_studio/services/workflow_engine.py:319-322 | With a valid definition some node is always ready until all are COMPLETED: acyclicity makes the sleeping branch unreachable |
| `WorkflowStates.FirstReady` | src/chatterbox_manga_studio/services/workflow_engine.py:328-339 | The node started next is the first of the definition that is PENDING with every dependency COMPLETED |
| `WorkflowStates.FreshMeans` | src/chatterbox_manga_studio/services/workflow_engine.py:200-221 | A new run has each node once, PENDING, without attempt, result or error |
| `WorkflowOutcome.EndIsFirstDecisive` | src/chatterbox_manga_studio/services/workflow_engine.py:360-423 | A node ends at its first attempt that does not raise, or at its last allowed attempt |
| `WorkflowOutcome.DoneMeansSucceeds` | src/chatterbox_manga_studio/services/workflow_engine.py:360-423 | A node completes iff some attempt within max(1, max_attempts) returns and all earlier ones raise |
| `WorkflowOutcome.CompletesIffAllSucceed` | src/chatterbox_manga_studio/services/workflow_engine.py:285-326 | A run completes every node iff every handler succeeds within its budget |
| `WorkflowOutcome.BoundaryFinishes` | src/chatterbox_manga_studio/services/workflow_engine.py:319-326 | Finishing the first ready node leaves a resumable state that still leads to the same end, with fewer nodes pending |
| `WorkflowOutcome.FailedUsedBudget` | src/chatterbox_manga_studio/services/workflow_engine.py:396-416 | A node that failed a run raised on every attempt of its whole budget |
| `WorkflowOutcome.FailureIsOnly` | src/chatterbox_manga_studio/services/workflow_engine.py:294-303 | A failed run has exactly one FAILED node, and it used all its attempts |
| `WorkflowOutcome.CompletedOutput` | src/chatterbox_manga_studio/services/workflow_engine.py:305-310 | Any completed run, however interrupted, has the one output the handlers determine |
| `WorkflowOutcome.CompletedMeans` | src/chatterbox_manga_studio/services/workflow_engine.py:305-310 | Told on the handlers alone: the output of a completed run gives each node, and nothing else, the value of its first returning attempt, within its budget and after raises only |
| `WorkflowOutcome.CompletedRecord` | src/chatterbox_manga_studio/services/workflow_engine.py:371-384 | A completed node's record holds that attempt's number and value, and the error of the attempt before it |
| `WorkflowOutcome.FailedMeans` | src/chatterbox_manga_studio/services/workflow_engine.py:294-303 | The error of a failed run is what the failed node's last allowed attempt raised |
| `WorkflowOutcome.CallBudgetSpends` | src/chatterbox_manga_studio/services/workflow_engine.py:341-423 | Finishing a node spends exactly its own share of the remaining handler calls |
| `WorkflowEngine.WorkflowRun.constructor` | src/chatterbox_manga_studio/services/workflow_engine.py:200-221 | A new run is QUEUED with every node PENDING |
| `WorkflowEngine.WorkflowRun.SaveRun` | src/chatterbox_manga_studio/services/workflow_engine.py:503-505 | Saving replaces the stored record; every save is a legal move of at most one node on the one before |
| `WorkflowEngine.WorkflowRun.PauseWorkflow` | src/chatterbox_manga_studio/services/workflow_engine.py:425-437 | Only a RUNNING run is paused; otherwise nothing changes |
| `WorkflowEngine.WorkflowRun.CancelWorkflow` | src/chatterbox_manga_studio/services/workflow_engine.py:439-451 | Cancelling sets the event and the status whatever the status was, and leaves the nodes alone |
| `WorkflowEngine.WorkflowRun.AttemptOnce` | src/chatterbox_manga_studio/services/workflow_engine.py:360-423 | One turn of the retry loop, all exits: completed, retried with the error stored, failed on the last attempt, cancelled |
| `WorkflowEngine.WorkflowRun.ExecuteNode` | src/chatterbox_manga_studio/services/workflow_engine.py:341-423 | A ready node is called until it ends exactly as its handler dictates, with exactly that many calls, whatever pauses and cancels come in between |
| `WorkflowEngine.WorkflowRun.ExecuteBatch` | src/chatterbox_manga_studio/services/workflow_engine.py:319-326 | With max_concurrency 1 the first ready node runs, and the rest of the run is unaffected |
| `WorkflowEngine.WorkflowRun.ExecuteUntilTerminal` | src/chatterbox_manga_studio/services/workflow_engine.py:285-326 | The loop never reaches the sleeping branch; it ends COMPLETED with every node's first returned value as output, FAILED with the single failed node's last error, returns having read PAUSED, or waits for the pause event holding the record it has read; the last two leave the run leading where the uninterrupted run leads |
| `WorkflowEngine.WorkflowRun.ReadAndWait` | src/chatterbox_manga_studio/services/workflow_engine.py:287-288 | The record is read first; with the pause event cleared the executor then waits, holding it |
| `WorkflowEngine.WorkflowRun.PassWait` | src/chatterbox_manga_studio/services/workflow_engine.py:289-322 | With the event set the executor goes on with the record it had read, however old: it unwinds, returns, stores that record as FAILED or COMPLETED, or takes its ready nodes |
| `WorkflowEngine.WorkflowRun.Launch` | src/chatterbox_manga_studio/services/workflow_engine.py:342-352 | Starting a node marks it RUNNING with one more attempt whatever its state was; it is a legal move for a PENDING node with its dependencies done |
| `WorkflowEngine.WorkflowRun.CallHandler` | src/chatterbox_manga_studio/services/workflow_engine.py:362-370 | One call of the handler, with the attempt number the executor holds |
| `WorkflowEngine.WorkflowRun.Await` | src/chatterbox_manga_studio/services/workflow_engine.py:425-451 | At an await another coroutine may pause or cancel the run; nothing but its status, the pause event and the cancel event can change |
| `WorkflowEngine.WorkflowRun.SaveNode` | src/chatterbox_manga_studio/services/workflow_engine.py:371-377 | Saving moves exactly one node of the stored record |
| `WorkflowEngine.WorkflowRun.BackOff` | src/chatterbox_manga_studio/services/workflow_engine.py:395-413 | The error is saved, and after the sleep the record read before it is saved with one more attempt, over whatever happened meanwhile |
| `WorkflowEngine.WorkflowRun.Begin` | src/chatterbox_manga_studio/services/workflow_engine.py:245-255 | The run is RUNNING, or what a pause or cancel at the announcement made it, and the pause event is set |
| `WorkflowEngine.WorkflowRun.WakeWaiting` | src/chatterbox_manga_studio/services/workflow_engine.py:255 | Setting the event wakes a waiting executor: it ends iff it had read PAUSED or the run is cancelled, else it runs beside the new one |
| `WorkflowEngine.WorkflowRun.Release` | src/chatterbox_manga_studio/services/workflow_engine.py:245-255 | Both together: two executors run iff one waits that had read another status than PAUSED and no cancel has come |
| `WorkflowEngine.WorkflowRun.StoreExit` | src/chatterbox_manga_studio/services/workflow_engine.py:257-283 | A cancellation is stored as CANCELLED, a missing handler as FAILED and raised again, any other end as it is |
| `WorkflowEngine.WorkflowRun.RunSession` | src/chatterbox_manga_studio/services/workflow_engine.py:257-283 | However it is disturbed, the only executor of a run leaves it COMPLETED or FAILED as the uninterrupted run would, CANCELLED for a reason, or resumable towards the same end; uncancelled, it waits only after a pause request, with another status than PAUSED iff every pause request fell in a back-off |
| `WorkflowControl.ObeyedChain` | src/chatterbox_manga_studio/services/workflow_engine.py:393-412 | From await to await: without requests status and pause event stay; the cancel event is set only by a cancel; a running, uncancelled run is PAUSED after exactly those pause requests that fell outside a back-off, and its pause event is cleared after any |
| `WorkflowControl.OneAwaitObeyed` | src/chatterbox_manga_studio/services/workflow_engine.py:425-451 | One pause or cancel at one await does just that |
| `WorkflowControl.NapObeyed` | src/chatterbox_manga_studio/services/workflow_engine.py:408-412 | A pause during a back-off is lost from the status, which goes back to RUNNING, while the pause event stays cleared |
| `WorkflowEngine.WokenStartsNode` | src/chatterbox_manga_studio/services/workflow_engine.py:288-326 | An executor with work left ends on waking iff it had read PAUSED or the run is cancelled; otherwise it starts a node |
| `WorkflowEngine.WorkflowRun.ResumeWorkflow` | src/chatterbox_manga_studio/services/workflow_engine.py:235-283 | Two executors run iff one was waiting that had read another status than PAUSED. Otherwise resuming calls only handlers of nodes still PENDING, within their budgets, and a run that reaches an end has the states and output of the uninterrupted run; finished runs are returned unchanged |
| `WorkflowEngine.Execute` | src/chatterbox_manga_studio/services/workflow_engine.py:223-233 | A fresh run makes at most the sum of max(1, max_attempts) calls and, undisturbed, is COMPLETED iff every handler succeeds within its budget, FAILED otherwise; COMPLETED with each node's first returned value as its output, FAILED with the last error of the failed node |
| `WorkflowOverlap.BothStart` | src/chatterbox_manga_studio/services/workflow_engine.py:255-352 | For any run resumed in that state with work left there is an interleaving in which both executors call the first ready node; for a node with one attempt this breaks the bound on handler calls |
| `WorkflowOverlap.PausedInBackOff` | src/chatterbox_manga_studio/services/workflow_engine.py:392-413 | A concrete run that gets there: paused during the back-off of its first node, its executor waits having read RUNNING |
| `WorkflowOverlap.CalledTwice` | src/chatterbox_manga_studio/services/workflow_engine.py:235-352 | Resumed, that run calls the handler of a node allowed one attempt twice |
| `TtsStream.ConservedKept` | src/chatterbox_manga_studio/dubbing/router.py:452-465 | Each cue index is in exactly one place (work queue, one thread's hands, or put), and taken in FIFO order, after every atomic step |
| `TtsStream.QueuedKept` | src/chatterbox_manga_studio/dubbing/router.py:434-446 | The done queue is FIFO: processed, in hand and queued items are the put items in order |
| `TtsStream.WrittenKept` | src/chatterbox_manga_studio/dubbing/router.py:466-515 | A result slot is written once, before its index is put |
| `TtsStream.HandshakeKept` | src/chatterbox_manga_studio/dubbing/router.py:521-525 | The stop flag is raised only after all instances exited, and the post thread leaves only with the flag up and the queue empty |
| `TtsStream.InvAlways` | src/chatterbox_manga_studio/dubbing/router.py:427-550 | The invariant holds in every state reachable by any interleaving of N instances, the post thread, the caller and a cancel at any moment |
| `TtsStream.ReturnIsComplete` | src/chatterbox_manga_studio/dubbing/router.py:521-550 | On return the attempted indices are exactly 0..m-1, each with one result, post-processed and notified exactly once; the rest report "cancelled"; without a cancel all are attempted |
| `TtsStream.EntriesAreAnswers` | src/chatterbox_manga_studio/dubbing/router.py:457-515 | Told from the actions alone: cue i is attempted iff more than i takes happened; its returned entry is the last answer its holder got (the file found, or the worker's reply); a second call is made iff the first one failed, so a failed entry means exactly two failed calls; an unattempted cue got no answer and reads "cancelled" |
| `TtsStream.CancelStopsTaking` | src/chatterbox_manga_studio/dubbing/router.py:462-465 | After a cancel only threads already past their check take an index, one each |
| `TtsStream.SomethingToDo` | src/chatterbox_manga_studio/dubbing/router.py:434-525 | No deadlock: until the call returns some thread has a productive step |
| `TtsStream.WorkShrinks` | src/chatterbox_manga_studio/dubbing/router.py:434-525 | Every productive step uses up work; idle polling adds none |
| `TtsStream.RunsAreBounded` | src/chatterbox_manga_studio/dubbing/router.py:427-550 | Every schedule has at most 14 * cues + 3 * instances + 10 productive steps |
| `Timeline.BuildCueLocked` | src/chatterbox_manga_studio/export/timeline.py:41-55 | One segment per cue, in order, each lasting its audio, or at least 50 ms of source time when it has none, starting where the previous one ended |
| `Timeline.BuildCueLockedWithGaps` | src/chatterbox_manga_studio/export/timeline.py:58-78 | Source pauses become gap segments, compressed or kept as asked; all segments are positive and tile the output; each cue follows its pause |
| `Timeline.BuildFreezePad` | src/chatterbox_manga_studio/export/timeline.py:90-100 | Each segment lasts as long as the longer of source and audio; no audio is cut |
| `Timeline.BuildTrim` | src/chatterbox_manga_studio/export/timeline.py:103-113 | Each segment lasts as long as the shorter of source and audio |
| `Timeline.BuildTimeline` | src/chatterbox_manga_studio/export/timeline.py:131-137 | Every tiling mode tiles the output from 0 to its total; it runs forward iff it is not trim mode or no audio length is negative |
| `Timeline.BackToBackTiles` | src/chatterbox_manga_studio/export/timeline.py:41-113 | Segments laid back to back cover the output without hole or overlap |
| `Timeline.SegmentMeans` | src/chatterbox_manga_studio/export/timeline.py:41-113 | Each cue's segment keeps its source span and lasts, by mode, its audio, the longer or the shorter of both, with 50 ms of source at least |
| `Timeline.GapMeans` | src/chatterbox_manga_studio/export/timeline.py:61-74 | The pause before a cue is the source's, unless that is longer than the limit: then the length to keep, or the limit when none is given |
| `Timeline.GappedMeans` | src/chatterbox_manga_studio/export/timeline.py:58-78 | Each cue starts where the one before ends, after that pause |
| `Timeline.BackToBackForward` | src/chatterbox_manga_studio/export/timeline.py:41-113 | Locked and padded segments are positive; trimmed ones run forward exactly when no audio length is negative |
| `Timeline.TilesAreOrdered` | src/chatterbox_manga_studio/export/timeline.py:41-113 | In a forward tiling any earlier segment ends before any later one starts, within the total |
| `LiveRender.LivePipeline.constructor` | src/chatterbox_manga_studio/dubbing/live_render.py:44-63 | A fresh pipeline has nothing ready and nothing in the manifest |
| `LiveRender.LivePipeline.Pause` | src/chatterbox_manga_studio/dubbing/live_render.py:65-67 | Pausing raises the flag and shows the state |
| `LiveRender.LivePipeline.Resume` | src/chatterbox_manga_studio/dubbing/live_render.py:69-72 | Resuming lowers the flag; only a paused state turns to running |
| `LiveRender.LivePipeline.Cancel` | src/chatterbox_manga_studio/dubbing/live_render.py:74-76 | Cancelling raises the cancel flag and shows the state |
| `LiveRender.LivePipeline.MarkCueReady` | src/chatterbox_manga_studio/dubbing/live_render.py:89-94 | A cue becomes ready and stays ready |
| `LiveRender.LivePipeline.MarkTtsDone` | src/chatterbox_manga_studio/dubbing/live_render.py:96-99 | The end of TTS is recorded |
| `LiveRender.LivePipeline.Start` | src/chatterbox_manga_studio/dubbing/live_render.py:111-127 | Starting forgets an earlier manifest and counts the groups, rounding up |
| `LiveRender.LivePipeline.HeadStep` | src/chatterbox_manga_studio/dubbing/live_render.py:139-144 | The cancel and pause checks at the head of the loop, one read at a time |
| `LiveRender.LivePipeline.ScanStep` | src/chatterbox_manga_studio/dubbing/live_render.py:146-150 | A group is rendered only if it was not rendered before and all its cues are ready |
| `LiveRender.LivePipeline.RenderStep` | src/chatterbox_manga_studio/dubbing/live_render.py:151-169 | A failed render changes nothing; a successful one adds exactly one entry for a group not rendered before, every one of whose cues is ready |
| `LiveRender.LivePipeline.ExitStep` | src/chatterbox_manga_studio/dubbing/live_render.py:170-173 | The state becomes done only when TTS has ended and every group is rendered |
| `LiveRender.LivePipeline.DoneCoversCues` | src/chatterbox_manga_studio/dubbing/live_render.py:134-177 | In state done the saved manifest in numeric key order is the whole cue list, whatever order groups were rendered in and whatever else was interleaved |
| `LiveRender.EntriesCoverCues` | src/chatterbox_manga_studio/dubbing/live_render.py:134-177 | As many entries of distinct groups as there are groups give every cue once, in order |
| `RenderCache.CacheMatchesTimeline` | src/chatterbox_manga_studio/dubbing/live_render.py:187-226 | Accepts iff mode, cue ids in key order and every length (within the tolerance) match the timeline |
| `RenderCache.AcceptedCacheDoesNotDrift` | src/chatterbox_manga_studio/dubbing/live_render.py:187-226 | Against an accepted cache the k-th cue of the concatenated video starts within k tolerances of its audio |
| `RenderCache.AcceptedSameCues` | src/chatterbox_manga_studio/dubbing/live_render.py:187-226 | A manifest written for one cue list is accepted for the cue-locked timeline of another only if both have the same length and the same cue at every position |
| `RenderCache.AcceptedPositions` | src/chatterbox_manga_studio/dubbing/live_render.py:187-226 | Accepted groups in key order hold, position by position, the timeline's own cue ids, and lengths within the tolerance |
| `RenderCache.FinishedManifestVerdict` | src/chatterbox_manga_studio/dubbing/live_render.py:155-163 | A finished pipeline's own manifest is accepted if there are cues and all have audio, and for tolerances below 50 ms only then |
| `RenderCache.RoundedLengthFits` | src/chatterbox_manga_studio/dubbing/live_render.py:155-163 | Six-decimal rounding stays within the tolerance exactly for cues with audio |
| `Srt.WriteSrt` | src/chatterbox_manga_studio/export/srt.py:33-41 | The file is the numbered blocks joined by newlines |
| `Srt.ReadSrt` | src/chatterbox_manga_studio/export/srt.py:44-61 | Reading splits blocks at blank lines, skips short ones, falls back to the running count for a bad index, and fails on a bad time row |
| `Srt.StampRoundTrip` | src/chatterbox_manga_studio/export/srt.py:16-30 | A printed time parses back to the printed milliseconds, for hours without bound |
| `Srt.StampWidths` | src/chatterbox_manga_studio/export/srt.py:16-22 | A stamp has hours in two digits or more, minutes and seconds in two below 60, milliseconds in three, adding up to the time |
| `Srt.DotIsComma` | src/chatterbox_manga_studio/export/srt.py:27-28 | A dot parses like the comma, wherever it stands |
| `Srt.RoundTrip` | src/chatterbox_manga_studio/export/srt.py:33-61 | Reading what was written gives indices 1..n, stripped texts and times rounded to 1 ms, iff no stripped text has a blank line inside |
| `Srt.ExpectedMeans` | src/chatterbox_manga_studio/export/srt.py:16-41 | The index read back is the number in the file, the text is stripped, and each time is the nearest whole millisecond |
| `Srt.BlockMeans` | src/chatterbox_manga_studio/export/srt.py:48-60 | What becomes of a block, told on its non-blank rows |
| `Srt.ReadTextsAreClean` | src/chatterbox_manga_studio/export/srt.py:44-61 | No text that was read has a blank line inside, which is why the condition is needed |
| `Srt.RetimeFromTimeline` | src/chatterbox_manga_studio/export/srt.py:64-74 | Captions are the timeline's cue segments with a text, in order |
| `Srt.CaptionsAreSegments` | src/chatterbox_manga_studio/export/srt.py:64-74 | Every caption is such a segment, and no such segment is missed |
| `Srt.CaptionMeans` | src/chatterbox_manga_studio/export/srt.py:64-74 | A caption starts and ends with its segment and says the text of its cue |
| `Srt.CaptionsInOrder` | src/chatterbox_manga_studio/export/srt.py:64-74 | Captions of a forward tiling are ordered and never overlap |
| `Srt.RoundingKeepsOrder` | src/chatterbox_manga_studio/export/srt.py:16-30 | Rounding to milliseconds keeps them ordered and apart |
| `Srt.RetimedFileReadsInOrder` | src/chatterbox_manga_studio/export/srt.py:33-74 | A retimed file reads back numbered, rounded and still without overlap |
| `Text.SplitAt` | src/chatterbox_manga_studio/export/srt.py:44-48 | Splitting at a separator cuts a block that does not contain it out whole |
| `Text.LinesOfJoin` | src/chatterbox_manga_studio/export/srt.py:41-50 | splitlines undoes joining with newlines |
| `Text.ParseOfPadded` | src/chatterbox_manga_studio/export/srt.py:16-30 | A zero-padded number parses back |
| `Text.ParseSigned` | src/chatterbox_manga_studio/export/srt.py:27-53 | Digits with an optional sign, and white space around, parse to the signed number |
| `Text.ParsedIsSigned` | src/chatterbox_manga_studio/export/srt.py:27-53 | Nothing else parses |
| `Text.StripMeans` | src/chatterbox_manga_studio/export/srt.py:27-47 | strip keeps everything between the first and the last character that is not white space |
| `Text.PaddedMeans` | src/chatterbox_manga_studio/export/srt.py:16-22 | Padding to a width adds zeros in front, and none once the number is as wide |
| `GpuScheduler.EvictUntilAvailable` | src/chatterbox_manga_studio/services/gpu_scheduler.py:197-208 | Evicts exactly the shortest least-recently-used prefix of RESIDENT allocations that makes the request fit, or all of them if none does |
| `GpuScheduler.EvictionSucceedsIff` | src/chatterbox_manga_studio/services/gpu_scheduler.py:189-208 | On one device eviction succeeds iff capacity minus reserve minus RESERVED covers the request; no other allocation is removed |
| `GpuScheduler.EvictionFindsRoomIff` | src/chatterbox_manga_studio/services/gpu_scheduler.py:181-208 | With eviction some considered device fits iff some considered device could hold the request beside its RESERVED allocations |
| `GpuScheduler.FindBest` | src/chatterbox_manga_studio/services/gpu_scheduler.py:129 | The chosen device is the candidate with most memory available, ties by id |
| `GpuScheduler.BestHasMostRoom` | src/chatterbox_manga_studio/services/gpu_scheduler.py:129 | Told on the devices' own fields: the choice holds the request beside its allocations, is the preferred device if that exists, and no other device that could hold it has more room (below zero counting as none), or as much and an id that differs first by a smaller character |
| `TextOrder.LeqMeans` | src/chatterbox_manga_studio/services/gpu_scheduler.py:129 | Ids are ordered by their first differing character; a proper prefix comes first |
| `GpuScheduler.EvictedAreOldest` | src/chatterbox_manga_studio/services/gpu_scheduler.py:197-208 | Only RESIDENT allocations are evicted, and none was used later than a RESIDENT one that stays |
| `GpuScheduler.Open` | src/chatterbox_manga_studio/services/gpu_scheduler.py:68-73 | A scheduler over the devices by id, the last one given with an id in the place of the first; an error iff there are none |
| `GpuScheduler.LastOfIdKept` | src/chatterbox_manga_studio/services/gpu_scheduler.py:71 | The last device given with an id is kept, and no id occurs twice |
| `GpuScheduler.PlaceOfId` | src/chatterbox_manga_studio/services/gpu_scheduler.py:71 | A device with a known id takes that id's place, any other goes to the end |
| `GpuScheduler.EmptyDevicesArePlaced` | src/chatterbox_manga_studio/services/gpu_scheduler.py:71 | Devices that hold nothing yet are always well placed, ids repeated or not |
| `GpuScheduler.GPUScheduler.constructor` | src/chatterbox_manga_studio/services/gpu_scheduler.py:68-73 | The devices as given |
| `GpuScheduler.GPUScheduler.EvictConsidered` | src/chatterbox_manga_studio/services/gpu_scheduler.py:189-208 | Evicts on every considered device and on no other |
| `GpuScheduler.GPUScheduler.Allocate` | src/chatterbox_manga_studio/services/gpu_scheduler.py:108-137 | Evicts only when nothing fits; adds one RESERVED allocation to the considered device with most room (total - reserve - used, at least 0; ties by id) or fails; with eviction it succeeds iff some considered device could hold the request beside its reservations |
| `GpuScheduler.GPUScheduler.MarkResident` | src/chatterbox_manga_studio/services/gpu_scheduler.py:139-144 | Exactly the named allocation becomes RESIDENT and most recently used; an unknown id is an error that changes nothing |
| `GpuScheduler.MarkMeans` | src/chatterbox_manga_studio/services/gpu_scheduler.py:139-148 | Marking changes the named allocation's last use, its status only when it becomes resident, and nothing of any other |
| `GpuScheduler.GPUScheduler.Touch` | src/chatterbox_manga_studio/services/gpu_scheduler.py:146-148 | Exactly the named allocation becomes most recently used |
| `GpuScheduler.GPUScheduler.Release` | src/chatterbox_manga_studio/services/gpu_scheduler.py:150-157 | Exactly the named allocation is forgotten, wherever it is |
| `GpuScheduler.StoresMeans` | src/chatterbox_manga_studio/services/gpu_scheduler.py:139-157 | An id is known iff some device holds an allocation of that id |
| `GpuScheduler.GPUScheduler.EvictModel` | src/chatterbox_manga_studio/services/gpu_scheduler.py:159-168 | Exactly the model's allocations are dropped and reported |
| `GpuScheduler.ReportedAreDropped` | src/chatterbox_manga_studio/services/gpu_scheduler.py:159-168 | Every allocation is either kept or reported as evicted, one for one |
| `GpuScheduler.ReportedInOrder` | src/chatterbox_manga_studio/services/gpu_scheduler.py:159-168 | They are reported in the order they are held |
| `GpuScheduler.ReportedAt` | src/chatterbox_manga_studio/services/gpu_scheduler.py:159-168 | Device by device |
| `GpuScheduler.AppendKeepsSound` | src/chatterbox_manga_studio/services/gpu_scheduler.py:49-59 | An allocation that fits keeps every device within max(0, total - reserve) and every id on the one device it names |
| `GpuScheduler.EvictionKeepsSound` | src/chatterbox_manga_studio/services/gpu_scheduler.py:49-59 | So does eviction |
| `GpuCapacity.SafeIff` | src/chatterbox_manga_studio/services/gpu_scheduler.py:108-168 | A granted request leaves its device within max(0, total - reserve) under every continuation (non-negative requests, marking, release, eviction) iff it is not negative, or not below total - reserve |
| `GpuCapacity.SafeIffNonNegative` | src/chatterbox_manga_studio/services/gpu_scheduler.py:108-168 | With total >= reserve, iff it is not negative |
| `GpuCapacity.DebtOverbooks` | src/chatterbox_manga_studio/services/gpu_scheduler.py:108-157 | After any other negative request, the request that fills the memory it seems to free is granted too, and releasing the negative one leaves the device over its capacity |
| `GpuScheduler.NegativeRequestOverbooks` | src/chatterbox_manga_studio/services/gpu_scheduler.py:108-157 | The scheduler itself on one input: 10 GB, requests of -5 and 15, release of the first |
| `JobScheduler.ServeTakesHead` | services/storage_manager/postgres.py:417-419 | Dequeuing takes the head of the priority-then-age order and leaves its tail |
| `JobScheduler.ServeOrderIsSorted` | services/storage_manager/postgres.py:417-419 | That order is by falling priority and loses no message |
| `JobScheduler.SamePriorityInOrder` | services/storage_manager/postgres.py:417-419 | Messages of one priority keep the order they were posted in |
| `JobScheduler.Scheduler.constructor` | src/chatterbox_manga_studio/services/job_scheduler.py:63-65 | No jobs and no messages |
| `JobScheduler.Scheduler.SaveAndEnqueue` | src/chatterbox_manga_studio/services/job_scheduler.py:93-94 | The job is stored and one message with its priority goes to the end of the queue |
| `JobScheduler.Scheduler.Dequeue` | services/storage_manager/postgres.py:417-419 | The head of the serve order is removed, and no other message |
| `JobScheduler.Scheduler.CreateJob` | src/chatterbox_manga_studio/services/job_scheduler.py:75-101 | A new QUEUED job with at least one attempt allowed and one message of its priority |
| `JobScheduler.Scheduler.ClaimNextJob` | src/chatterbox_manga_studio/services/job_scheduler.py:139-171 | Terminates despite stale messages; returns None only when no job is QUEUED; otherwise claims a QUEUED job of maximal priority and changes no other job |
| `JobScheduler.Scheduler.CompleteJob` | src/chatterbox_manga_studio/services/job_scheduler.py:173-186 | Completes the job whatever its status |
| `JobScheduler.Scheduler.FailJob` | src/chatterbox_manga_studio/services/job_scheduler.py:188-212 | Requeues while attempts remain and the job is not cancelled, otherwise fails it |
| `JobScheduler.Scheduler.PauseJob` | src/chatterbox_manga_studio/services/job_scheduler.py:214-227 | Pauses a job that has not ended |
| `JobScheduler.Scheduler.ResumeJob` | src/chatterbox_manga_studio/services/job_scheduler.py:229-243 | Requeues a PAUSED job; otherwise nothing changes |
| `JobScheduler.Scheduler.CancelJob` | src/chatterbox_manga_studio/services/job_scheduler.py:245-258 | Cancels a job that is not completed |
| `JobScheduler.Scheduler.RetryJob` | src/chatterbox_manga_studio/services/job_scheduler.py:260-278 | Requeues a FAILED or CANCELLED job and clears its error, even with its attempts used up; otherwise nothing changes |
| `JobScheduler.Scheduler.DeleteJob` | src/chatterbox_manga_studio/services/job_scheduler.py:280-294 | Forgets the job; its messages stay behind as tombstones |
| `JobScheduler.Scheduler.StoredJob` | src/chatterbox_manga_studio/services/job_scheduler.py:160-278 | In every reachable state a QUEUED job has a message of its own priority, attempts is the number of claims, and attempts plus one if QUEUED is at most max_attempts plus resumes and manual retries |
| `JobScheduler.StoreKeeps` | src/chatterbox_manga_studio/services/job_scheduler.py:188-278 | Storing a job with its message keeps these invariants |
| `JobScheduler.ClaimKeeps` | src/chatterbox_manga_studio/services/job_scheduler.py:160-171 | So does a claim |
| `SlidingWindow.NoSpanOverLimit` | src/chatterbox_manga_studio/services/provider_manager.py:288-295 | If every grant is made with fewer than the limit still counting, no half-open span of the window's width holds more than the limit; nor a closed one when the boundary counts |
| `SlidingWindow.OpenCounts` | src/chatterbox_manga_studio/services/provider_manager.py:291-293 | A provider's requests count when made after the start of the window |
| `SlidingWindow.ClosedCounts` | src/chatterbox_manga_studio/api/middleware.py:114-115 | A key's requests count also when made exactly at the start of the window |
| `SlidingWindow.SpanCounts` | src/chatterbox_manga_studio/services/provider_manager.py:288-295 | The requests in a span are those at positions whose time lies in it |
| `SlidingWindow.PruneTwice` | src/chatterbox_manga_studio/services/provider_manager.py:291-292 | What has stopped counting never counts again |
| `SlidingWindow.AgreesAfterPrune` | src/chatterbox_manga_studio/services/provider_manager.py:291-293 | The pruned list decides like the full history from then on |
| `RateLimits.ProviderLimiter.Exhausted` | src/chatterbox_manga_studio/services/provider_manager.py:307-313 | The answer is that of counting over the full grant history |
| `RateLimits.ProviderLimiter.TryAcquire` | src/chatterbox_manga_studio/services/provider_manager.py:289-299 | Grants iff fewer than the limit count over the full history; otherwise it waits for the oldest to expire; only a limit below one could leave no oldest |
| `RateLimits.ProviderLimiter.ApplyRateLimit` | src/chatterbox_manga_studio/services/provider_manager.py:285-305 | A lone caller of a provider that may make requests at all is granted at once iff fewer than the limit count, and otherwise after exactly one sleep, asked to end at the first moment at which fewer than the limit count |
| `ProviderManager.BelowOneNeverChosen` | src/chatterbox_manga_studio/services/provider_manager.py:224-225 | A provider with a limit below one is never a candidate |
| `RateLimits.ProviderNeverOverLimit` | src/chatterbox_manga_studio/services/provider_manager.py:285-305 | Over any run no half-open window holds more than max_requests provider grants |
| `RateLimits.RateLimitMiddleware.Dispatch` | src/chatterbox_manga_studio/api/middleware.py:108-127 | Requests outside /api/ pass; others pass iff fewer than the limit count over the key's full history; other keys are unaffected |
| `RateLimits.PopExpired` | src/chatterbox_manga_studio/api/middleware.py:114-115 | Popping expired times from the left is pruning the whole list |
| `RateLimits.KeyNeverOverLimit` | src/chatterbox_manga_studio/api/middleware.py:108-127 | Over any run no closed window holds more than max_requests requests of one key |
| `ProviderManager.StatusNeverBlocks` | src/chatterbox_manga_studio/services/provider_manager.py:203-226 | A provider is a candidate iff its circuit and cooldown are over and its rate limit is not exhausted: the stored status never keeps it out |
| `ProviderManager.AvailableMeans` | src/chatterbox_manga_studio/services/provider_manager.py:203-226 | A candidate's circuit and cooldown times are past, and fewer than its limit of requests lie after the start of the window |
| `ProviderManager.ChoiceMeans` | src/chatterbox_manga_studio/services/provider_manager.py:227-228 | Against every other candidate the chosen one has the smaller priority number, or as small and fewer failures, or as many and an earlier name |
| `ProviderManager.FailureMeans` | src/chatterbox_manga_studio/services/provider_manager.py:264-278 | A failure counts once, keeps the settings, and shows the block it opens |
| `ProviderManager.SuccessRestores` | src/chatterbox_manga_studio/services/provider_manager.py:255-262 | After a success a provider whose circuit is closed is HEALTHY and has its whole threshold of rounds left |
| `ProviderManager.FailedUntil` | src/chatterbox_manga_studio/services/provider_manager.py:264-278 | A failed provider is available again exactly when its cooldown is over and, from the threshold on, its circuit has closed |
| `ProviderManager.ChoiceUnique` | src/chatterbox_manga_studio/services/provider_manager.py:227-228 | There is only one least candidate |
| `ProviderManager.FailureSpends` | src/chatterbox_manga_studio/services/provider_manager.py:264-278 | A failing round uses up exactly one of the provider's rounds left before it is blocked for the call |
| `ProviderManager.RoundFails` | src/chatterbox_manga_studio/services/provider_manager.py:150-195 | So of all providers' rounds together exactly one is used, and the others keep theirs |
| `ProviderManager.LeftWithinBudget` | src/chatterbox_manga_studio/services/provider_manager.py:274-278 | The rounds left are at most the sum of max(1, threshold - failure_count) |
| `ProviderManager.Manager.constructor` | src/chatterbox_manga_studio/services/provider_manager.py:90-93 | No providers |
| `RateLimits.ProviderLimiter.constructor` | src/chatterbox_manga_studio/services/provider_manager.py:59-82 | No requests counted yet |
| `RateLimits.RateLimitMiddleware.constructor` | src/chatterbox_manga_studio/api/middleware.py:102-106 | No hits for any key |
| `ProviderManager.Manager.RegisterProvider` | src/chatterbox_manga_studio/services/provider_manager.py:95-128 | Stores exactly the clean record with the settings given, retries, cooldown and threshold clamped from below, in the place of an older record of that name or at the end |
| `ProviderManager.RegisteredDistinct` | src/chatterbox_manga_studio/services/provider_manager.py:113-123 | Registering keeps names distinct and touches no other record |
| `ProviderManager.CleanRecord` | src/chatterbox_manga_studio/services/provider_manager.py:114-123 | Settings within their bounds are kept as given; without a limit the provider is available at once |
| `ProviderManager.Manager.ChooseProvider` | src/chatterbox_manga_studio/services/provider_manager.py:197-228 | Returns the least available provider by (priority, failures, name), or none iff none is available; writes only statuses |
| `ProviderManager.Manager.MarkSuccess` | src/chatterbox_manga_studio/services/provider_manager.py:255-262 | The failure count and cooldown are cleared, the circuit time stays |
| `ProviderManager.Manager.MarkFailure` | src/chatterbox_manga_studio/services/provider_manager.py:264-278 | Counts the failure, starts the cooldown, opens the circuit from the threshold on |
| `ProviderManager.Manager.Execute` | src/chatterbox_manga_studio/services/provider_manager.py:138-195 | Failing rounds are at most the sum of max(1, threshold - failure_count), exactly the rounds left when no older block runs out during the call; every round goes to the best available provider and uses all its attempts; it stops at the first success, and reports no provider iff none is available |
| `WorkerPool.DropOne` | src/chatterbox_manga_studio/services/worker_pool.py:247-259 | Dropping a lease takes exactly one from its worker; the clamp at zero never fires |
| `WorkerPool.ReconciledAccounts` | src/chatterbox_manga_studio/services/worker_pool.py:190-203 | Dropping leases keeps every worker counting exactly the leases that name it, within its maximum |
| `WorkerPool.LeaseAdded` | src/chatterbox_manga_studio/services/worker_pool.py:172-187 | So does leasing a worker with room: one more counted, RESERVED exactly when that fills it |
| `WorkerPool.SweepRevives` | src/chatterbox_manga_studio/services/worker_pool.py:247-259 | The sweep puts an unhealthy, disconnected or draining worker back to use exactly when one of its leases expired |
| `WorkerPool.LighterTotal` | src/chatterbox_manga_studio/services/worker_pool.py:163-169 | The sort key orders any two workers strictly |
| `WorkerPool.LighterMeans` | src/chatterbox_manga_studio/services/worker_pool.py:163-169 | Shares of the maximum are compared by cross multiplication, then the counts, then the ids |
| `WorkerPool.MatchMeans` | src/chatterbox_manga_studio/services/worker_pool.py:261-307 | A match has a status fit for use and agrees with every criterion asked for, and no more is asked |
| `WorkerPool.LiveMeans` | src/chatterbox_manga_studio/services/worker_pool.py:249-250 | A lease stays iff it has no expiry or its expiry is yet to come |
| `WorkerPool.Pool.constructor` | src/chatterbox_manga_studio/services/worker_pool.py:75-80 | No workers and no leases |
| `WorkerPool.Pool.RegisterWorker` | src/chatterbox_manga_studio/services/worker_pool.py:82-90 | Registering keeps the accounting iff the descriptor counts the leases naming it within its maximum; a new id has none |
| `WorkerPool.Pool.UnregisterWorker` | src/chatterbox_manga_studio/services/worker_pool.py:102-108 | The worker goes and takes exactly its leases with it |
| `WorkerPool.Pool.ExpireReservations` | src/chatterbox_manga_studio/services/worker_pool.py:247-259 | Exactly the expired leases go, and their workers count what is left |
| `WorkerPool.Pool.ReleaseWorker` | src/chatterbox_manga_studio/services/worker_pool.py:190-203 | Exactly the named lease goes; an unknown id changes nothing |
| `WorkerPool.Pool.Lightest` | src/chatterbox_manga_studio/services/worker_pool.py:155-172 | The least matching worker with room by (load ratio, active, id), or none iff none has room |
| `WorkerPool.Pool.ReserveWorker` | src/chatterbox_manga_studio/services/worker_pool.py:146-188 | Fails iff after the sweep every matching worker is full; otherwise leases the lightest one, with the expiry asked for |
| `CueMerge.DedupeOverlapping` | scripts/whisper_worker.py:241-262 | Keeps and counts every segment; drops those that repeat the last kept text over an overlapping span |
| `CueMerge.OverlapMeans` | scripts/whisper_worker.py:255-258 | Spans overlap iff some moment lies strictly inside both |
| `CueMerge.RepeatsMeans` | scripts/whisper_worker.py:251-259 | A repeat has a letter, the same letters as the kept segment before it, and some moment in common with it |
| `CueMerge.SqueezedMeans` | scripts/whisper_worker.py:251-258 | Texts are compared with all white space removed and nothing else |
| `CueMerge.DedupeOnce` | scripts/whisper_worker.py:241-262 | Idempotent, and leaves a list alone iff no neighbours repeat |
| `CueMerge.DroppedIsCovered` | scripts/whisper_worker.py:241-262 | A dropped segment's text stays in the transcript, over an overlapping span |
| `CueMerge.Flatten` | scripts/whisper_worker.py:285-297 | The words with both times, in order |
| `CueMerge.TimedMeans` | scripts/whisper_worker.py:285-297 | Each timed word is a word with both its times, unchanged |
| `CueMerge.AllTimed` | scripts/whisper_worker.py:285-297 | And each word with both its times is there |
| `CueMerge.TimedAt` | scripts/whisper_worker.py:285-297 | The timed words of a segment lie between those of the segments before it and those of the segments after it |
| `CueMerge.CutGreedily` | scripts/whisper_worker.py:304-330 | Every cue but the last ends at its first cut position from its second word on; the last has none |
| `CueMerge.CutMeans` | scripts/whisper_worker.py:309-326 | A position is a cut for one of three reasons: long enough and a pause, at the ceiling, or as many characters as allowed and half a pause |
| `CueMerge.LimitsMean` | scripts/whisper_worker.py:304-305 | The window reaches a share of the target below and above it |
| `CueMerge.GreedyUnique` | scripts/whisper_worker.py:304-330 | There is only one such segmentation |
| `CueMerge.BelowCeiling` | scripts/whisper_worker.py:304-330 | A cue of three or more words, measured to its second-last word, is shorter than the ceiling |
| `CueMerge.MergePauseAware` | scripts/whisper_worker.py:265-352 | The cues are the greedy stretches with rounded times and ids from 0; without timed words it is the plain time merge |
| `CueMerge.CueMeans` | scripts/whisper_worker.py:332-352 | A cue starts with its first word and ends with its last, to the millisecond, and says their texts, stripped |
| `CueMerge.NoWordLost` | scripts/whisper_worker.py:332-352 | The cues' words are all timed words in order, none lost, repeated or moved; every cue but the last has at least two |
| `CueMerge.TextKeptIff` | scripts/whisper_worker.py:332-352 | White space aside, the texts of the cues spell the words in order, nothing lost and nothing told twice, iff every cue of blank words has a blank fallback text |
| `CueMerge.NoTextLost` | scripts/whisper_worker.py:332-352 | So always when no word is blank |
| `CueMerge.MergeSegments` | scripts/whisper_worker.py:355-393 | The loop computes the merge in which each segment joins the running cue iff target and both caps allow |
| `CueMerge.MergeMeans` | scripts/whisper_worker.py:368-391 | A segment joins while the running cue is under its target and the two together keep both caps; joined it moves the end and adds its text and words |
| `CueMerge.TimeMergeKeeps` | scripts/whisper_worker.py:355-393 | It loses no word, numbers from 0, and exceeds a cap only for a single segment that does so alone |
| `BatchPlan.Split` | src/chatterbox_manga_studio/adapt/batch_manager.py:33-52 | Consecutive non-empty ranges covering 0..n-1, at most as many as asked for, each full except the one that reaches the end |
| `BatchPlan.PerBatchIsLeast` | src/chatterbox_manga_studio/adapt/batch_manager.py:33 | The batch size is the least at which the requested number of batches suffices |
| `BatchPlan.BatchManager.CreatePlan` | src/chatterbox_manga_studio/adapt/batch_manager.py:31-62 | Such a plan, all batches pending without a version; zero batches is an error that stores nothing |
| `BatchPlan.CueInOneBatch` | src/chatterbox_manga_studio/adapt/batch_manager.py:33-52 | Every cue lies in a batch |
| `BatchPlan.BatchesApart` | src/chatterbox_manga_studio/adapt/batch_manager.py:33-52 | And in one only: batches never overlap |
| `BatchPlan.BatchManager.SaveBatchVersion` | src/chatterbox_manga_studio/adapt/batch_manager.py:76-97 | Versions of a batch are 1, 2, ... and none is ever overwritten |
| `BatchPlan.BatchManager.Mark` | src/chatterbox_manga_studio/adapt/batch_manager.py:110-117 | Exactly the named batch gets the given fields |
| `BatchPlan.MarkMeans` | src/chatterbox_manga_studio/adapt/batch_manager.py:110-117 | A field that is given is stored, and any other kept, in the named batch only |
| `BatchPlan.MarkKeepsPartition` | src/chatterbox_manga_studio/adapt/batch_manager.py:110-117 | Marking never moves a boundary |
| `BatchPlan.VersionActivated` | src/chatterbox_manga_studio/adapt/batch_manager.py:76-117 | Storing a version of the right length and making it active completes its batch and leaves the others' lines alone |
| `BatchPlan.BatchManager.AssembleAdaptation` | src/chatterbox_manga_studio/adapt/batch_manager.py:130-143 | The active versions in batch order; one line per cue iff every batch has its active version |
| `BatchPlan.ActiveIsNamed` | src/chatterbox_manga_studio/adapt/batch_manager.py:137-142 | A batch contributes exactly the stored version its own entry names |
| `BatchPlan.OneLinePerCue` | src/chatterbox_manga_studio/adapt/batch_manager.py:130-143 | With right lengths the narration has at most n lines, and n iff no batch is missing |
| `BatchPlan.LineOfCue` | src/chatterbox_manga_studio/adapt/batch_manager.py:130-143 | Line k comes from cue k's batch at offset k - cue_lo |
| `BatchPlan.LineLands` | src/chatterbox_manga_studio/adapt/batch_manager.py:130-143 | With any batches missing, line k - cue_lo of an active batch lands at k minus the cues missing before its batch |
| `BatchPlan.InPlaceIff` | src/chatterbox_manga_studio/adapt/batch_manager.py:130-143 | So an active batch is in place iff no earlier batch is missing |
| `BatchPlan.GatheredLength` | src/chatterbox_manga_studio/adapt/batch_manager.py:130-143 | The narration is short by exactly the cues of the missing batches |
| `BatchPlan.ParseCueResponse` | src/chatterbox_manga_studio/adapt/quality.py:108-166 | Always exactly the expected number of lines: the proposed ones in order, padded with empty ones or trimmed; the warnings tell which fallback was taken (none for JSON without a cues list) and what was padded or trimmed |
| `BatchPlan.NumberedInAnyOrder` | src/chatterbox_manga_studio/adapt/quality.py:126-138 | Entries numbered 1..n in any order: the line at number m - 1 is the stripped text of the entry numbered m |
| `BatchPlan.LinesInOrder` | src/chatterbox_manga_studio/adapt/quality.py:126-138 | Any list: the lines are the stripped texts of all dictionary entries, each once, by ascending number (its own, or its place counted from one), equal numbers in list order |
| `BatchPlan.UnnumberedInOrder` | src/chatterbox_manga_studio/adapt/quality.py:126-138 | Entries without numbers keep the order of the list |
| `KeySort.SortIsSorted` | src/chatterbox_manga_studio/adapt/quality.py:137 | Sorting gives an ascending permutation |
| `KeySort.SortIsStable` | src/chatterbox_manga_studio/adapt/quality.py:137 | Entries with equal numbers keep their order |
| `TextOrder.SortedIsSorted` | src/chatterbox_manga_studio/services/workflow_engine.py:93 | Sorting ids gives an ascending permutation |

## Left out

- Everything that talks to the outside: FFmpeg, worker HTTP, disks, storage back ends, events, metrics, logging and timestamps kept only for display.
- Floating point: times, loads and sizes are exact reals; only decimal rounding to 3 and 6 places and to milliseconds is modelled.
- WorkflowEngine.Execute: only `max_concurrency` 1; with more, the retry path can save a stale record over a sibling's.
- WorkflowEngine.WorkflowRun.ResumeWorkflow: starts at node boundaries; a crash inside a node, and resuming while an executor is still inside a node, are not modelled.
- WorkflowOverlap.BothStart: what two executors of one run may do is shown up to the double call; the model follows them no further, and it counts a woken executor whose record has nothing left to run as overlapping too. A cancel while an executor waits leaves it waiting, as the event is never set again.
- `update_node_progress` and looking runs up by id: one object stands for one run.
- TtsStream.ReturnIsComplete: callbacks that raise and joins that time out, the model installation and loading checks, and the threads themselves as objects; a run is a sequence of atomic actions on a state value.
- LiveRender.LivePipeline.Start: called once per object, with a positive group size; manifest keys are integers, its JSON text and failing saves are not modelled, and no claim is made that a pipeline whose cues never become ready ends.
- `build_keep_original`, which does not tile the output, and the voice-over mixing built on the timelines.
- Text.ParseOfPadded: digits are ASCII, and underscores inside numbers are not accepted.
- Srt.ReadSrt: white space is space, tab and newline, and newline is the only line break.
- GPU discovery (`from_config`) and the snapshots of all services.
- JobScheduler.Scheduler.ClaimNextJob: one claimer at a time, and saving a job with its message is one step; listing and counting jobs is left out.
- JobScheduler.ServeTakesHead: relative to the queue contract of the PostgreSQL back end; the file-system queue orders by file name.
- ProviderManager.Manager.Execute: providers without a rate limit, one call at a time, shorter than every positive cooldown and than 60 seconds; in a longer call a provider whose cooldown ended is tried again, without a bound on the rounds. Back-off sleeps, time-outs and unregistering during a call are only moments of the clock or left out.
- Provider health checks and priority updates.
- RateLimits.ProviderLimiter.ApplyRateLimit: the caller has the record to itself between its sleeps.
- WorkerPool.Pool.Lightest: language codes are lower-cased as ASCII; heartbeats and health monitoring, which only write a status, are left out.
- CueMerge.MergePauseAware: the text of a cue whose words are all blank is a parameter, as the source joins segment texts in the order of a set.
- BatchPlan.ParseCueResponse: finding and decoding the JSON and cleaning the fallback lines by regular expression; the decoded list or the cleaned lines are the input.
- `mark_later_needs_context` and `get_batch_text`, which read or write one field.
- The Gradio tabs, the React front end, authentication, audio processing and model loading.
