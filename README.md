# A verified model of the AI co-founder's orchestration core

The system answers one founder's command with a roster of generative "agents":
- An intent analyser picks the agents a command needs, or asks the user a clarifying question.
- Strategy, Operations and Finance then debate a plan, with Finance holding the veto, for at most two rounds. When the trio is not selected, each selected agent runs once instead.
- Design, Marketing, Tech and (when photos are attached) Renovation run together, and their results are merged into a shared memory.
- A local preview web site is written from the Tech agent's file tree.
- An optional synthesis step assembles the final blueprint.

Everything that happens is emitted as an ordered stream of events. The server keeps a bounded replay history of that stream and relays it to every open browser. The browser folds it into its view: timeline, artifacts, contentions, clarification modal, and an artifact panel with a "View Live Site" button.

This project models that core in Dafny and proves what it does. One module stands for each source file:

| module | models |
|---|---|
| `SharedMemory` (memory.dfy) | `backend/src/core/Memory.js`: the `Memory` class |
| `AgentCore` (agent.dfy) | `backend/src/core/Agent.js`: the retry/backoff loop, the response cleanup, the double-encoding repair |
| `Orchestration` (orchestrator.dfy) | `backend/src/core/Orchestrator.js`: `run` as a class whose methods append to the emitted event trace, and the fan-out merge as a specification |
| `LocalSite` (sitegen.dfy) | `generateLocalSite` in `backend/src/core/Orchestrator.js` |
| `FileTree` (filetree.dfy) | the recursive `findFile` written out in both `Orchestrator.js` and `ArtifactCanvas.jsx`, and the stylesheet precedence |
| `EventHub` (eventhub.dfy) | `backend/server.js`: `broadcast`, the history, the stream list, `/stream`, `/start`, `/reply` |
| `BusinessStore` (businessstate.dfy) | `backend/src/core/BusinessState.js` |
| `Renovation` (renovation.dfy) | `backend/src/agents/RenovationAgent.js`: the data-URI split, the prompt parts, the single attempt |
| `ExecutionView` (executionmode.dfy) | `src/components/execution/ExecutionMode.jsx`: the `onmessage` reducer and `handleReply` |
| `ArtifactView` (artifactcanvas.dfy) | `src/components/execution/ArtifactCanvas.jsx`: `sanitize`, the parse fallbacks, the launch page with style injection, auto-select, the version badge |
| `Js`, `JsText` (js.dfy, jstext.dfy) | the JavaScript semantics the core relies on: values, truthiness, property reads that throw on `null`/`undefined`, ordered objects, spread, `String(v)`, JSON round trips, `indexOf`, `substring`, `trim`, global and first-match `replace` |
| `Events` (events.dfy) | the `{type, data}` events the orchestrator emits and their JSON form on the wire |

Foreign behaviour becomes parameters:
- the generation service: `gen(i)` is the i-th attempt's response;
- the agents: `roster(i)` is the completion of the i-th agent call of a run;
- `JSON.parse` and `JSON.stringify`;
- the clock;
- whether file writes succeed;
- whether the reply POST went through.

Behaviour of the code that the model makes explicit:
- **Financial-check log.** The orchestrator never calls `logFinancialCheck`, so `Orchestration.Orchestrator.Run` proves the log stays empty.
- **Retry classification.** Errors are classified by their message text. Any error whose message contains `429` or `Too Many Requests` is retried, a parse error included (`AgentCore.Agent.Run`). After the third rate-limited attempt the code still sleeps 16 s before giving up.
- **Debate and synthesis.** The fan-out and the synthesis run whatever Finance decided. Synthesis is gated only on the literal `'synthesis'` entry or on more than three listed agents.
- **Merge order.** The fan-out results are merged after `Promise.all`, in the fixed order design, marketing, tech, renovation.

## Model

| member | source | states |
|---|---|---|
| SharedMemory.Memory.constructor | backend/src/core/Memory.js:2-13 | a fresh memory has empty intent, constraints, plan, outputs, logs and images, and status initialized |
| SharedMemory.Memory.Init | backend/src/core/Memory.js:16-19 | the command becomes the intent and the status becomes planning; every other field is unchanged |
| SharedMemory.Memory.UpdateConstraints | backend/src/core/Memory.js:22-24 | right-biased merge: keys of the argument take its values, absent keys keep theirs, no old key is lost, keys stay unique |
| SharedMemory.Memory.SetPlan | backend/src/core/Memory.js:27-29 | only the plan changes |
| SharedMemory.Memory.SetImages | backend/src/core/Memory.js:32-34 | only the images change |
| SharedMemory.Memory.SaveArtifact | backend/src/core/Memory.js:37-43 | `outputs[agent][key] == data`, the agent's entry created when missing; every other agent/key pair and every other field unchanged |
| SharedMemory.Memory.AddRevisionRequest | backend/src/core/Memory.js:46-56 | exactly one unresolved request is appended after the old ones, and the status becomes revising |
| SharedMemory.Memory.LogFinancialCheck | backend/src/core/Memory.js:59-65 | exactly one entry is appended; the status and all else unchanged |
| SharedMemory.Memory.GetSnapshot | backend/src/core/Memory.js:68-70 | the snapshot equals every field; it is a value, so changing it cannot reach the memory |
| SharedMemory.Memory.GetArtifact | backend/src/core/Memory.js:73-75 | the stored value when present and truthy, otherwise null; truthy exactly when a truthy value is stored |
| SharedMemory.ArtifactOf | backend/src/core/Memory.js:74 | `?.[key] \|\| null`: null for a missing agent or key or a falsy value |
| SharedMemory.SaveThenRead | backend/src/core/Memory.js:37-75 | reading back a saved pair gives the value (null when falsy); every other pair reads as before |
| AgentCore.Agent.constructor | backend/src/core/Agent.js:4-12 | the name, role and schema are kept; no model is bound |
| AgentCore.Agent.Initialize | backend/src/core/Agent.js:14-22 | a model is bound |
| AgentCore.Agent.Run | backend/src/core/Agent.js:24-96 | uninitialized: throws with no call; otherwise 1 to 3 calls; only rate-limited attempts are followed by another; the k-th sleep is `Backoff(k)`; a non-rate-limited attempt's outcome is returned at once; three rate-limited attempts give the exhausted error after three sleeps |
| AgentCore.IsRateLimitIncludes | backend/src/core/Agent.js:85 | an error counts as a rate limit exactly when its message includes `429` or `Too Many Requests` |
| AgentCore.BackoffSchedule | backend/src/core/Agent.js:85-89 | the sleeps are 4000, 8000 and 16000 ms, strictly increasing |
| AgentCore.StripFences | backend/src/core/Agent.js:47 | no three backticks remain anywhere (even where removals join backticks) and neither end is white space; what is kept is given by `StripUnfenced`, `StripJsonFence` and `StripPlainFence` |
| AgentCore.StripUnfenced | backend/src/core/Agent.js:47 | text without backticks is only trimmed |
| AgentCore.StripJsonFence | backend/src/core/Agent.js:47 | a json-fenced answer gives back its trimmed body |
| AgentCore.StripPlainFence | backend/src/core/Agent.js:47 | a plainly fenced answer gives back its trimmed body, unless the body begins with `json` |
| AgentCore.SliceBraces | backend/src/core/Agent.js:50-54 | with both braces: the span from the first `{` to the last `}`; reversed braces give the swapped `substring` span, which holds neither; otherwise the text unchanged |
| AgentCore.CleanFencedJson | backend/src/core/Agent.js:47-54 | a json-fenced answer reaches `JSON.parse` as the brace span of its trimmed body |
| AgentCore.Unwrap | backend/src/core/Agent.js:61-72 | a string that parses to an object or array is replaced by it; anything else is kept; any change is exactly such a replacement |
| AgentCore.UnwrapIsOneLevel | backend/src/core/Agent.js:61-72 | unwrapping twice is unwrapping once |
| AgentCore.Attempt | backend/src/core/Agent.js:40-80 | a generation error is rethrown; a parse error is rethrown; otherwise the parse of the cleaned text, unwrapped once |
| JsText.RemoveFenceLeavesNone | backend/src/core/Agent.js:47 | after removing every fence globally, no fence is left |
| JsText.RemoveAll | backend/src/core/Agent.js:47 | the global replace never lengthens the text |
| JsText.RemoveAllNoMatch | backend/src/core/Agent.js:47 | with no match anywhere the text is unchanged |
| JsText.RemoveAllLeading | backend/src/core/Agent.js:47 | a leading match is dropped |
| JsText.RemoveAllKeepsPrefix | backend/src/core/Agent.js:47 | a prefix that cannot start a match is kept and the replace goes on after it |
| JsText.Substring | backend/src/core/Agent.js:53 | `substring` clamps both bounds and swaps reversed ones |
| JsText.Trim | src/components/execution/ExecutionMode.jsx:18 | the result is the original minus its leading and trailing white space, and starts and ends with non-space |
| JsText.SubstituteLiteral | src/components/execution/ArtifactCanvas.jsx:180 | a replacement without `$` is inserted as it is |
| Js.MergeGet | backend/src/core/Memory.js:23 | `{...a, ...b}` reads as `b` on b's keys and as `a` elsewhere |
| Js.MergeKeys | backend/src/core/Memory.js:23 | the merged keys are a's, in order, then b's new ones; keys stay unique |
| Js.CopyFieldsGet | backend/server.js:31 | one JSON trip of an object with unique keys keeps a key exactly when its value is defined, and then holds that value's own JSON copy |
| Js.JsonCopyIdempotent | backend/src/core/Memory.js:69 | a value that has been through JSON once comes back unchanged from a second trip |
| Orchestration.Orchestrator.constructor | backend/src/core/Orchestrator.js:20-21 | a fresh memory; no calls made, nothing emitted |
| Orchestration.Orchestrator.Start | backend/src/core/Orchestrator.js:58-75 | a new memory holding the role-prefixed command, the images and status planning; the trace is the single pending intent event |
| Orchestration.ActiveCommand | backend/src/core/Orchestrator.js:61-64 | the bare command without a role; `[Role: r] ` + command with one |
| Orchestration.Orchestrator.Analyze | backend/src/core/Orchestrator.js:84-93 | one call of the intent agent; an unreadable `constraints` or agent list breaks the run with that error and emits nothing; otherwise the constraints become the merge of the old ones with the spread of `intent.constraints`, the analysed event is emitted, and the answer is `Ask(q)` exactly when `clarification_question` q is truthy, otherwise `Proceed` with the `required_agents` list |
| Orchestration.Orchestrator.Begin | backend/src/core/Orchestrator.js:56-93 | a fresh memory with the role-prefixed command, the images and status planning, the thinking event first; `Ask` exactly when the answer is readable with a truthy question, carrying that question; the unreadable-constraints error emits nothing more |
| Orchestration.RequiredAgents | backend/src/core/Orchestrator.js:87 | the listed agents when `required_agents` is an array, the `join` TypeError otherwise |
| Orchestration.Orchestrator.RunAgent | backend/src/core/Orchestrator.js:95-106 | a pending event, one call, and the accepted event exactly when the call completes |
| Orchestration.WildcardAlone | backend/src/core/Orchestrator.js:312 | `['all']` alone selects every agent and the debate but not synthesis |
| Orchestration.ChosenCount | backend/src/core/Orchestrator.js:95-111 | the selection from a list keeps an agent exactly as often as listed when `hasAgent` holds for it, and never otherwise |
| Orchestration.DebateModeIsWholeTrio | backend/src/core/Orchestrator.js:152 | debate mode exactly when strategy, ops and finance are all selected |
| Orchestration.ChosenTrio | backend/src/core/Orchestrator.js:218-238 | in the fallback each of strategy, ops and finance is selected once when `hasAgent` holds for it, and never otherwise |
| Orchestration.ChosenDaily | backend/src/core/Orchestrator.js:122-148 | each operate-mode agent is selected once when `hasAgent` holds for it, and never otherwise |
| Orchestration.Orchestrator.Plan | backend/src/core/Orchestrator.js:114-120 | unselected: nothing happens; selected: one call, whose `execution_plan` becomes the plan or whose error is returned |
| Orchestration.Orchestrator.Daily | backend/src/core/Orchestrator.js:122-127 | a selected agent makes one call, fails exactly when the call throws, and announces a truthy result; nothing is stored |
| Orchestration.Orchestrator.DailyStep | backend/src/core/Orchestrator.js:122-148 | one more operate-mode agent of the in-order run: the selection from the first k+1 agents has been called in order |
| Orchestration.Orchestrator.Operate | backend/src/core/Orchestrator.js:122-148 | the selected operate-mode agents (daily planner, ops intelligence, finance intelligence, decision advisor) are called in that order, each exactly once when selected and never otherwise; all calls complete unless one fails, and then the failed call is the last one made and its message is the error; the memory is untouched |
| Orchestration.Orchestrator.OperateOpen | backend/src/core/Orchestrator.js:122-134 | the daily planner and ops turns: a failure there already gives the whole step's in-order outcome |
| Orchestration.Orchestrator.OperateReview | backend/src/core/Orchestrator.js:136-148 | the finance and advisor turns complete the in-order run of the operate-mode agents |
| Orchestration.Orchestrator.Draft | backend/src/core/Orchestrator.js:162-181 | one call; its entry is saved and announced at the round's version, or its error is returned with the memory unchanged |
| Orchestration.Orchestrator.Approve | backend/src/core/Orchestrator.js:183-195 | the PASS branch: the resolved contention and the approval event, with the statement depending on `revision_request` |
| Orchestration.Orchestrator.Reject | backend/src/core/Orchestrator.js:196-214 | an open contention and a revised event; a revision request is logged only when Finance gave one; no artifact is announced |
| Orchestration.Orchestrator.Drafts | backend/src/core/Orchestrator.js:162-181 | one to three calls; on success all three, with Finance's the third; only outputs change; every artifact carries the round's version |
| Orchestration.Orchestrator.DebateRound | backend/src/core/Orchestrator.js:159-215 | approved exactly when Finance's decision is PASS; at most one revision request added, and only on a rejection; the financial-check log is untouched |
| Orchestration.Orchestrator.Debate | backend/src/core/Orchestrator.js:152-215 | at most two rounds of three calls; a finished debate ended on the first PASS or after two rejections, and all its calls completed; every rejected round had a non-PASS verdict and an approved one a PASS; at most one revision request per rejection; every artifact announced carries a version from 1 to the number of rounds run |
| Orchestration.Orchestrator.Debating | backend/src/core/Orchestrator.js:155-215 | the loop: at most two rounds, ended by a failure, the first PASS or two rejections; the debate state holds for the revisions counted |
| Orchestration.Orchestrator.DebateStep | backend/src/core/Orchestrator.js:159-215 | one iteration: a failed round keeps the debate state; an approved one ends on a PASS; a rejected one counts one more revision; a finished round's three calls completed |
| Orchestration.RebuttedNext | backend/src/core/Orchestrator.js:159-215 | a round announcing version r + 1 keeps the debate state; a rejected round extends the record of non-PASS verdicts and revision requests by one |
| Orchestration.Orchestrator.Single | backend/src/core/Orchestrator.js:218-224 | a selected agent makes one call and its truthy result's entry is saved and announced as version 1 |
| Orchestration.Orchestrator.SingleStep | backend/src/core/Orchestrator.js:216-239 | one more agent of the fallback: the selection from the first k+1 of the trio has been called in order |
| Orchestration.Orchestrator.Linear | backend/src/core/Orchestrator.js:216-239 | each selected one of strategy, ops and finance is called exactly once, in that order, and no other agent; all calls complete unless one fails, and then the failed call is the last one made and its message is the error; only outputs change; every artifact is version 1 |
| Orchestration.Orchestrator.LinearRest | backend/src/core/Orchestrator.js:225-238 | the ops and finance turns complete the in-order run of the trio |
| Orchestration.Orchestrator.Deliberate | backend/src/core/Orchestrator.js:151-239 | debate mode gives `Debate`'s guarantees; otherwise no revision, not approved, and `Linear`'s in-order run with version-1 artifacts |
| Orchestration.Orchestrator.Prepare | backend/src/core/Orchestrator.js:113-148 | planning, then the operate-mode agents: only the plan changes; when neither step fails, the planner (when selected) and then the selected operate-mode agents were called, each once and in order, and every call completed |
| Orchestration.FanOutPending | backend/src/core/Orchestrator.js:258-260 | the pending events of the selected design, marketing and tech agents, none of which ends the run |
| Orchestration.Orchestrator.Dispatch | backend/src/core/Orchestrator.js:242-253 | one call per enlisted agent, in the order design, marketing, tech, renovation (when images exist), and the collected completions are those calls' answers in issue order |
| Orchestration.Orchestrator.CallIf | backend/src/core/Orchestrator.js:243-252 | a guarded push: the agent is called, and its completion collected after the earlier ones, exactly when the guard holds |
| Orchestration.EnlistedCount | backend/src/core/Orchestrator.js:242-253 | one call per condition that holds |
| Orchestration.OutcomesAt | backend/src/core/Orchestrator.js:263 | the i-th collected completion is the answer to the i-th call issued |
| Orchestration.FirstFailureSpec | backend/src/core/Orchestrator.js:263 | `Promise.all`: no failure exactly when every call completed; otherwise the error of a failed call that every earlier call completed before |
| Orchestration.NoFailureAllReturned | backend/src/core/Orchestrator.js:263 | a join without failure means every collected call completed |
| Orchestration.Values | backend/src/core/Orchestrator.js:263 | the values of completed calls, in order |
| Orchestration.Field | backend/src/core/Orchestrator.js:117-118 | a call's error, or the property read of its result (which throws on null) |
| Orchestration.Member | backend/src/core/Orchestrator.js:267 | `res && res.key` is truthy only when `res` is truthy and holds that truthy entry |
| Orchestration.Record | backend/src/core/Orchestrator.js:268-270 | the save plus the announcing events; other agents' entries unchanged |
| Orchestration.AbsorbSlot | backend/src/core/Orchestrator.js:267-271 | a truthy entry is stored in its slot; otherwise nothing changes; other agents untouched |
| Orchestration.WithPreviewUrl | backend/src/core/Orchestrator.js:288 | an object gains `preview_url`; an array is unchanged; a primitive throws |
| Orchestration.Publish | backend/src/core/Orchestrator.js:283-292 | a preview exists exactly when the site was written and the artifact took the address |
| Orchestration.AbsorbTech | backend/src/core/Orchestrator.js:277-294 | a truthy tech entry is stored, with `preview_url` when published; the preview changes only to a generated site's address |
| Orchestration.Absorb | backend/src/core/Orchestrator.js:266-300 | one pass of the merge only appends events, none terminal; the preview comes only from the tech site |
| Orchestration.AbsorbOneSlot | backend/src/core/Orchestrator.js:266-300 | one pass stores a design, marketing or renovation entry exactly when the result carries it |
| Orchestration.AbsorbOneTech | backend/src/core/Orchestrator.js:277-294 | one pass stores the tech entry (with or without the preview address) exactly when the result carries it |
| Orchestration.AbsorbAllSlot | backend/src/core/Orchestrator.js:266-300 | after the merge each slot holds the last result that carried it, or what it held before |
| Orchestration.AbsorbAllTech | backend/src/core/Orchestrator.js:266-300 | after the merge the tech artifact is the last tech result, with `preview_url` when published |
| Orchestration.AbsorbAllPreview | backend/src/core/Orchestrator.js:283-292 | the preview is unchanged or some generated site's address, and unchanged when no site can be generated |
| Orchestration.AbsorbAllEvents | backend/src/core/Orchestrator.js:266-300 | the merge only appends events, and none ends the run |
| Orchestration.MergedPreview | backend/src/core/Orchestrator.js:283-292 | the only preview is the local site of the run's time stamp, and none in production or when writes fail |
| Orchestration.Orchestrator.RecordStep | backend/src/core/Orchestrator.js:268-270 | the memory and trace become `Record` of the old ones |
| Orchestration.Orchestrator.AbsorbSlotStep | backend/src/core/Orchestrator.js:267-271 | the memory and trace become `AbsorbSlot` of the old ones |
| Orchestration.Orchestrator.AbsorbTechStep | backend/src/core/Orchestrator.js:277-294 | the memory, trace and preview become `AbsorbTech` of the old ones |
| Orchestration.Orchestrator.PublishPreview | backend/src/core/Orchestrator.js:283-292 | when the site is written and the artifact takes the address, the tech entry is stored again with `preview_url`, announced as version 2 with the live-site event, and the preview becomes the address; otherwise nothing changes |
| Orchestration.Orchestrator.Merge | backend/src/core/Orchestrator.js:264-300 | the memory, trace and preview become `AbsorbAll` over the results in array order |
| Orchestration.Orchestrator.AnnounceFanOut | backend/src/core/Orchestrator.js:256-261 | the pending events of the selected agents are appended |
| Orchestration.Orchestrator.FanOut | backend/src/core/Orchestrator.js:242-300 | every enlisted agent is called; any failure is returned with nothing merged; otherwise the merge of all results; the preview is only the run's local site |
| Orchestration.Orchestrator.Gather | backend/src/core/Orchestrator.js:241-300 | every enlisted agent called once, in order; the error is the first failure among their completions, and then only the pending events were added and nothing merged; otherwise every call completed; a preview only outside production with working writes, at the run's site address |
| Orchestration.Orchestrator.Conclude | backend/src/core/Orchestrator.js:302-321 | the synthesis agent is called exactly when there is no preview and the synthesis gate holds; a preview, or a closed gate, completes at once with the default blueprint carrying the preview and no further call; a thrown read of `final_blueprint` fails the run with its message; otherwise the blueprint is stored and completes the run; exactly one terminal event, last |
| Orchestration.Orchestrator.Synthesize | backend/src/core/Orchestrator.js:310-321 | one synthesis call; its `final_blueprint` is stored and completes the run, or the error of reading it fails the run |
| Orchestration.Orchestrator.Deliver | backend/src/core/Orchestrator.js:241-321 | a failed fan-out call fails the run with the first failure's message, after exactly the enlisted calls; a run that does not fail had every call complete; only outputs change; exactly one terminal event, last, agreeing with the result; never a clarification |
| Orchestration.Orchestrator.ConcludeJoined | backend/src/core/Orchestrator.js:302-321 | the conclusion after a fan-out whose calls completed: a run that does not fail had every call since the fan-out began complete |
| Orchestration.Orchestrator.Complete | backend/src/core/Orchestrator.js:319-321 | one completion event; the result is the memory's snapshot |
| Orchestration.Orchestrator.Fail | backend/src/core/Orchestrator.js:325-326 | the rejected System event, then the error completion |
| Orchestration.Orchestrator.Abort | backend/src/core/Orchestrator.js:323-328 | any error gives exactly those two events, last, and the failed result |
| Orchestration.Orchestrator.Execute | backend/src/core/Orchestrator.js:113-328 | planning through delivery: any error fails the run with exactly the error events; one terminal event, last; a run that does not fail had every call complete; intent, images and financial log kept |
| Orchestration.Orchestrator.Run | backend/src/core/Orchestrator.js:51-329 | a fresh memory with the role-prefixed intent and the images; the financial log stays empty; exactly one terminal event, last, agreeing with the result; the run halts with a clarification exactly when the intent answer is readable and its question is truthy, and then reports that question after only the intent call; an unreadable `constraints` gives exactly the error events; a run that does not fail had every call complete, so any failed call, in the fan-out too, fails it |
| LocalSite.SanitizeName | backend/src/core/Orchestrator.js:340 | same length; ASCII letters lower-cased, digits kept, every other character `_` |
| LocalSite.SanitizeNameIdempotent | backend/src/core/Orchestrator.js:340 | sanitising twice is sanitising once |
| LocalSite.SiteName | backend/src/core/Orchestrator.js:340 | the directory name uses only lower-case letters, digits and `_` |
| LocalSite.SiteFiles | backend/src/core/Orchestrator.js:347-369 | the tree's index page and preferred stylesheet, each replaced by its default when missing; it throws exactly when a lookup throws |
| LocalSite.GenerateLocalSite | backend/src/core/Orchestrator.js:331-379 | nothing in production; a site exactly when writes succeed, the lookups do not throw and the index page and stylesheet are strings (the write of anything else throws); then the time-stamped address and those two files |
| FileTree.FindFile | backend/src/core/Orchestrator.js:353-362 | a found value is truthy |
| FileTree.FindFileIsFirstOfWalk | src/components/execution/ArtifactCanvas.jsx:165-174 | the search returns the first entry of the full depth-first, key-ordered listing: the truthy value nearest the root in pre-order, or the first error before it |
| FileTree.FindInIsFirstOfWalkAll | src/components/execution/ArtifactCanvas.jsx:167-173 | the loop over children returns the first entry of their listings |
| FileTree.Stylesheet | src/components/execution/ArtifactCanvas.jsx:178 | styles.css, then style.css, then App.css; not found exactly when all three are not found |
| Events.Message | backend/src/core/Orchestrator.js:52-54 | the `{type, data}` object whose first entry is the event's type name |
| Events.Payload | backend/src/core/Orchestrator.js:125 | the `data` object: an artifact update has unique keys and its `content` is a string exactly when the artifact entry is defined, the stringified entry then and `undefined` otherwise (`JSON.stringify(undefined)` is `undefined`; the same holds at lines 132, 139, 146, 166, 173, 181, 222, 229, 236); a completion has `previewUrl` exactly when a preview address is set and `error` exactly when the run failed |
| Events.ArtifactData | backend/src/core/Orchestrator.js:125 | the five entries of an artifact update name each key once and `content` reads as the given value |
| Events.CompletionData | backend/src/core/Orchestrator.js:304-326 | `previewUrl` and `error` keys present exactly when set |
| Events.Wire | backend/server.js:31 | after one JSON trip the message is still an object with the same type |
| Events.WireData | backend/server.js:31 | the `data` entry on the wire is the JSON copy of the payload |
| Events.WireArtifactContent | backend/server.js:31 | on the wire an artifact update's `data` has a `content` key exactly when the artifact entry was defined, holding the stringified entry; an undefined entry arrives with no `content`, which the canvas then reads as `undefined` |
| EventHub.LastN | backend/server.js:28-29 | the last min(n, \|s\|) elements |
| EventHub.LastNStep | backend/server.js:28-29 | one push and at most one shift keep the history equal to the last 100 |
| EventHub.Hub.constructor | backend/server.js:19-24 | no streams, empty history, no last command |
| EventHub.Hub.Broadcast | backend/server.js:26-32 | the history is the last 100 messages since the reset, and every open stream receives the message in list order |
| EventHub.Hub.BroadcastAll | backend/server.js:83-85 | every event of a run is broadcast in emission order |
| EventHub.Hub.Subscribe | backend/server.js:42-59 | the new stream is appended and has received the connect message, then the whole history in order |
| EventHub.Without | backend/server.js:62 | exactly the streams with another id remain |
| EventHub.WithoutAppend | backend/server.js:62 | filtering keeps the remaining streams in their order |
| EventHub.WithoutAbsent | backend/server.js:62 | closing an unknown id changes nothing |
| EventHub.Hub.Close | backend/server.js:61-63 | the list becomes the filtered list; nothing else changes |
| EventHub.Hub.Start | backend/server.js:66-91 | a missing command gives 400 and changes nothing; otherwise the history is reset, the command kept and the run's events broadcast |
| EventHub.Hub.Launch | backend/server.js:72-88 | the history is emptied, the command kept, and the run's messages are the whole history since the reset and reach every stream in order |
| EventHub.Hub.RunBroadcasting | backend/server.js:81-88 | the run's messages are appended to the history and reach every stream in order; its memory holds the command and images |
| EventHub.ResumeCommand | backend/server.js:103 | the kept command followed by `. Additional Context: ` and the answer |
| EventHub.ResumeAll | backend/server.js:103-105 | repeated replies extend the original command |
| EventHub.ResumeAllLast | backend/server.js:103-105 | each reply appends to the previous combined command |
| EventHub.Hub.Reply | backend/server.js:93-122 | a missing answer or no command gives 400 and changes nothing; otherwise the combined command is kept, the history kept, the reply and resume events broadcast before the run, which gets no role or images |
| EventHub.Hub.AnnounceReply | backend/server.js:110-112 | the reply and resume messages are appended to the history and reach every stream, in that order |
| EventHub.Hub.Resume | backend/server.js:103-119 | the answer joins the kept command; the two announcements and then the run's messages, in order; the run gets the combined command and no images |
| BusinessStore.Stamp | backend/src/core/BusinessState.js:44 | an object gains `last_updated`, every other key kept |
| BusinessStore.Saved | backend/src/core/BusinessState.js:42-49 | the stamped state is written when it is an object or array and the write succeeds; otherwise the file is as before |
| BusinessStore.Loaded | backend/src/core/BusinessState.js:26-40 | the file's contents; a copy of the initial profile when unreadable; the initial profile stamped and saved when missing |
| BusinessStore.Updated | backend/src/core/BusinessState.js:56-61 | the result is always a stamped object |
| BusinessStore.UpdateIsRightBiased | backend/src/core/BusinessState.js:58 | the update reads as the updates on their keys and as the old state elsewhere |
| BusinessStore.Decisions | backend/src/core/BusinessState.js:69 | the spread of `recent_decisions` throws exactly when the entry is unreadable or not iterable |
| BusinessStore.PrependCapped | backend/src/core/BusinessState.js:69 | the new decision first, then the older ones in order, length min(old+1, 50) |
| BusinessStore.PrependCappedIsNewest | backend/src/core/BusinessState.js:69 | capping at each insertion keeps exactly the 50 newest decisions ever added |
| BusinessStore.BusinessState.constructor | backend/src/core/BusinessState.js:21-24 | the state is loaded at once |
| BusinessStore.BusinessState.Load | backend/src/core/BusinessState.js:26-40 | state and file become `Loaded` |
| BusinessStore.BusinessState.Save | backend/src/core/BusinessState.js:42-49 | state and file become `Saved` |
| BusinessStore.BusinessState.Fetch | backend/src/core/BusinessState.js:51-54 | a truthy state is returned unchanged; a falsy one is loaded first |
| BusinessStore.BusinessState.Update | backend/src/core/BusinessState.js:56-61 | state and file become `Updated` |
| BusinessStore.BusinessState.UpdateMetrics | backend/src/core/BusinessState.js:64-66 | an unreadable state throws and changes nothing; otherwise the update of the merged metrics |
| BusinessStore.BusinessState.AddDecision | backend/src/core/BusinessState.js:68-71 | a non-iterable log throws and changes nothing; otherwise the update with the capped, newest-first log |
| BusinessStore.MetricsUpdateKeepsOthers | backend/src/core/BusinessState.js:64-66 | the metrics become old overridden by new, and every other top-level field except the stamp is kept |
| BusinessStore.AddDecisionLog | backend/src/core/BusinessState.js:68-71 | the stored log starts with the decision and holds at most 50 entries |
| Renovation.LastMarker | backend/src/agents/RenovationAgent.js:88 | the last `;base64,` at or before k, or none |
| Renovation.MatchDataUri | backend/src/agents/RenovationAgent.js:88 | a match rebuilds the URI from two non-empty one-line groups, split at the last possible marker; non-`data:` or multi-line strings never match |
| Renovation.MatchOfBuiltUri | backend/src/agents/RenovationAgent.js:88-96 | a URI built from a media type and a base64 payload splits back into exactly those |
| Renovation.ImagePart | backend/src/agents/RenovationAgent.js:87-97 | at most one part per image, which is the image's own data URI; non-strings give none |
| Renovation.ImageParts | backend/src/agents/RenovationAgent.js:86-101 | at most one part per image |
| Renovation.ImagePartsFromImages | backend/src/agents/RenovationAgent.js:86-101 | every part comes from one of the images |
| Renovation.ImagePartsAppend | backend/src/agents/RenovationAgent.js:86-101 | parts follow image order |
| Renovation.RenovationAgent.constructor | backend/src/agents/RenovationAgent.js:4-52 | no model is bound |
| Renovation.RenovationAgent.Initialize | backend/src/agents/RenovationAgent.js:54-64 | a model is bound |
| Renovation.RenovationAgent.PartOf | backend/src/agents/RenovationAgent.js:87-100 | the loop body gives `ImagePart` |
| Renovation.RenovationAgent.AddImages | backend/src/agents/RenovationAgent.js:86-101 | the loop appends `ImageParts` of the images |
| Renovation.Answer | backend/src/agents/RenovationAgent.js:104-120 | one attempt: the generation error, or the parse of the unfenced trimmed text, with no brace slicing |
| Renovation.RateLimitIsNotRetried | backend/src/agents/RenovationAgent.js:117-120 | a rate-limit error ends the run at once |
| Renovation.RenovationAgent.Run | backend/src/agents/RenovationAgent.js:66-121 | uninitialized: throws; absent images count as none; non-array images throw; otherwise the prompt, then one part per matching image (at most 1 + \|images\|), and one attempt |
| ExecutionView.FindContention | src/components/execution/ExecutionMode.jsx:57 | the first index with a strictly equal id, or -1 when none; a list of objects never throws |
| ExecutionView.Upsert | src/components/execution/ExecutionMode.jsx:56-65 | a known id is replaced in place (length kept, others kept); an unknown one is appended |
| ExecutionView.UpsertKeepsIdsDistinct | src/components/execution/ExecutionMode.jsx:54-65 | contention ids that are distinct stay distinct |
| ExecutionView.Apply | src/components/execution/ExecutionMode.jsx:47-85 | per type: timeline appends data; artifact sets `artifacts[id]` only; contention upserts; completion completes and hands over; error appends a revised System entry; clarification sets the question (default) and a pending entry; other types change nothing |
| ExecutionView.Reduce | src/components/execution/ExecutionMode.jsx:42-86 | a null message throws the destructuring error; the typed answer is never touched |
| ExecutionView.CompletionCompletes | src/components/execution/ExecutionMode.jsx:66-68 | the run's completion event marks the view complete and hands its data over |
| ExecutionView.TimelineEventLogged | src/components/execution/ExecutionMode.jsx:47-48 | a run's timeline event adds exactly one entry and nothing else |
| ExecutionView.HandleReply | src/components/execution/ExecutionMode.jsx:17-32 | a blank answer sends nothing; otherwise it is posted, and a delivered reply clears the question and the answer |
| ArtifactView.EscapeLineBreaks | src/components/execution/ArtifactCanvas.jsx:32 | no raw line break remains and no tab is introduced |
| ArtifactView.EscapeTabs | src/components/execution/ArtifactCanvas.jsx:33 | no raw tab remains and no line break is introduced |
| ArtifactView.Sanitize | src/components/execution/ArtifactCanvas.jsx:28-34 | non-strings unchanged; a string loses every raw CR, LF and tab |
| ArtifactView.SanitizeKeepsCleanText | src/components/execution/ArtifactCanvas.jsx:28-34 | text without raw breaks or tabs is unchanged |
| ArtifactView.UnescapeSanitized | src/components/execution/ArtifactCanvas.jsx:31-33 | decoding the escapes gives back text without backslashes or CR |
| ArtifactView.Decoded | src/components/execution/ArtifactCanvas.jsx:37-53 | the direct parse, else the sanitized parse; when both fail, the first error |
| ArtifactView.Render | src/components/execution/ArtifactCanvas.jsx:36-67 | raw text exactly when decoding fails; a string whose parse is an object or array is laid out by the active id with that parsed value, and one whose parse is a number, boolean or `null` is shown as that value's text; a string that fails to parse but parses after sanitising to an object or array is laid out with that value; non-string objects and arrays laid out by the active id; scalars as their text |
| ArtifactView.CleanContentIsRawIffUnparsable | src/components/execution/ArtifactCanvas.jsx:37-53 | clean content is shown raw exactly when it is not JSON |
| ArtifactView.DoubleEncodedIsUnwrappedOnce | src/components/execution/ArtifactCanvas.jsx:56-63 | an encoded object is shown as the object; an encoded string only as its text |
| ArtifactView.InjectStyleAsWritten | src/components/execution/ArtifactCanvas.jsx:180 | html without `</head>` unchanged |
| ArtifactView.InjectStyle | src/components/execution/ArtifactCanvas.jsx:179-181 | html without `</head>` unchanged; otherwise the style element inserted verbatim before the first `</head>` |
| ArtifactView.InjectStyleAsWrittenAgreesWithoutDollar | src/components/execution/ArtifactCanvas.jsx:179-181 | without `$` in the stylesheet the code as written injects as intended |
| ArtifactView.InjectStyleAsWrittenExpandsDollar | src/components/execution/ArtifactCanvas.jsx:180 | for a stylesheet holding `$&`, at the place where the intended injection keeps `$&` the code as written has the matched `</head>`, inside the style element |
| ArtifactView.EmptyHeadShowsDollarExpansion | src/components/execution/ArtifactCanvas.jsx:180 | `<head></head>` with the stylesheet `$&` is injected differently from the intended injection |
| ArtifactView.LocalPage | src/components/execution/ArtifactCanvas.jsx:164-184 | a throwing lookup gives `#`; a missing index gives the placeholder; the index page alone, or with the preferred stylesheet injected by the corrected `InjectStyle` (see Left out); a non-string index with a stylesheet gives `#`, and without one the page is `String(html)` |
| ArtifactView.NoIndexHasNoHead | src/components/execution/ArtifactCanvas.jsx:175-181 | the placeholder never receives a stylesheet |
| ArtifactView.LaunchTarget | src/components/execution/ArtifactCanvas.jsx:163 | a truthy preview URL wins; otherwise the page built from the file tree by `LocalPage` (corrected injection, see Left out) |
| ArtifactView.RootFilesMakeStyledPage | src/components/execution/ArtifactCanvas.jsx:165-181 | a tree with index.html and styles.css at its top opens that page with the style element right before its `</head>`, inserted verbatim by the corrected injection (see Left out) |
| ArtifactView.InjectedBeforeHead | src/components/execution/ArtifactCanvas.jsx:179-181 | the style element directly precedes the first `</head>` |
| ArtifactView.RootFilesFound | src/components/execution/ArtifactCanvas.jsx:165-178 | top-level files are found first |
| ArtifactView.ArtifactList | src/components/execution/ArtifactCanvas.jsx:10 | the artifacts' values, in insertion order |
| ArtifactView.AutoSelect | src/components/execution/ArtifactCanvas.jsx:14-18 | with no active tab and some artifact, the first artifact's id; otherwise unchanged; throws only on a null first artifact |
| ArtifactView.ActiveArtifact | src/components/execution/ArtifactCanvas.jsx:268 | `find`: a found artifact is the first one whose id strictly equals the tab, every earlier one read and different; none found means no id matches; a throwing id read is the first one reached |
| ArtifactView.AutoSelectShowsFirst | src/components/execution/ArtifactCanvas.jsx:14-18 | after auto-select the first artifact is shown, and running the effect again keeps it |
| ArtifactView.StringToNumber | src/components/execution/ArtifactCanvas.jsx:288 | a number exactly for digit strings |
| ArtifactView.NumeralRoundTrip | src/components/execution/ArtifactCanvas.jsx:288 | a version's decimal text reads back as the version |
| ArtifactView.Badge | src/components/execution/ArtifactCanvas.jsx:288 | a numeric version shows `v` + version exactly when it exceeds 1; undefined, null, booleans and objects show none |
| ArtifactView.BadgeOfNumeral | src/components/execution/ArtifactCanvas.jsx:288 | a version sent as text gets the same badge as the number |

## Left out

- The generation service (`generateContent`), the `GoogleGenerativeAI` client and the API key: agent responses are the `gen` and `roster` parameters.
- `_buildPrompt` in `backend/src/core/Agent.js`: a text template; the renovation prompt is the `prompt` parameter.
- The randomized pre-call delay (`Math.random() * 2000`) and the `setTimeout` sleeps: only the backoff values are recorded, in `delays`.
- `JSON.parse` and `JSON.stringify`: parameters; only the round trip's effect on `undefined` entries (`Js.JsonCopy`) is modelled.
- `Promise.all` concurrency: the fan-out is a sequential all-or-nothing join over the calls' completions in issue order; completion interleaving is not modelled.
- Async interleaving between server handlers: a run is atomic inside `/start` and `/reply`, and an orchestrator error escaping `run` (the `.catch` at backend/server.js:85-88) cannot happen in the model because `run` catches everything.
- File system and clock: directory creation, the two site writes and the state-file writes are a `writable` flag; `Date.now()` and `new Date().toISOString()` are parameters.
- The HTTP/SSE transport, `EventSource`, `fetch`, `alert`, `Blob`, `URL.createObjectURL` and `window.open`: a stream is the list of messages written to it; the launch page is the HTML the blob would hold.
- JSX markup and `renderRecursiveValue`: the view is its state; a rendering is the layout and data it lays out.
- Render-time errors inside the structured layouts (e.g. reading fields of an array in the renovation layout) are not modelled; `ArtifactView.Render` covers the parse fallbacks and the double-encoding step.
- Objects keep insertion order; JavaScript's ordering of integer-like keys first is not modelled.
- `Js.Spread`: spreading a string or an array copies nothing here, while JavaScript copies its index keys ("0", "1", …). The intent reply's `constraints` (backend/src/core/Orchestrator.js:85, from backend/src/agents/IntentAnalyzer.js:36) and the values spread in backend/src/core/BusinessState.js:58 and :65 are not checked to be objects, so a reply such as `["budget < 10k"]`, which gains the key "0" in the source, gains nothing in the model.
- `SharedMemory.Memory.GetSnapshot`: the JSON round trip is a plain copy; dropping `undefined` entries on the way is not modelled.
- `Orchestration.Orchestrator.Analyze`: `{...intent.constraints}` is merged through `Js.Spread`, so a string or array reply loses its index keys (see `Js.Spread` above); the role and images of `getSanitizedState` are not part of what the roster sees.
- Orchestration.Orchestrator.Debate: states that every artifact's version lies between 1 and the number of rounds run, not which round announced it; the per-round fact is `DebateRound`'s.
- `ArtifactView.GreaterThanOne`: strings with white space, a sign, a fraction, hex or an exponent are treated as `NaN`.
- `ArtifactView.StringToNumber`: only runs of decimal digits are read; every other string is `NaN`.
- `ArtifactView.Badge`: the same restriction on version strings.
- `Js.Value`: numbers are integers (`Num(n: int)`); fractions, `NaN`, `Infinity` and negative zero are not modelled, because the core only reads counts, versions and status codes.
- `ExecutionView.Reduce`: a handler that throws inside React's functional state updater makes React unmount the view; the model only returns the error as `Threw` and does not model the unmounted view.
- ArtifactView.LocalPage: uses the corrected `ArtifactView.InjectStyle`, so a stylesheet containing `$` patterns is inserted verbatim; the as-written expansion is `ArtifactView.InjectStyleAsWritten` (see Findings).
- ArtifactView.LaunchTarget: builds its page through `LocalPage`, so it also injects the stylesheet verbatim rather than with the `$` expansion of the code as written.
- ArtifactView.RootFilesMakeStyledPage: states the corrected verbatim injection; for a stylesheet holding `$` patterns the code as written gives the page of `InjectStyleAsWritten` instead.
- CommandInput.jsx, the agent roster files and the remaining presentation components: configuration and markup.

## Findings

| source | as written | input that shows it | evidently intended | confidence | as-written member | corrected member |
|---|---|---|---|---|---|---|
| src/components/execution/ArtifactCanvas.jsx:179-181 | ``html.replace('</head>', `<style>${css}</style></head>`)`` passes the stylesheet as a replacement string, so `$&`, `$$`, `` $` `` and `$'` in the CSS are expanded | index page `<head></head>`, stylesheet `$&`: the matched `</head>` is pasted inside the style element, closing the head early | the style element inserted verbatim before the first `</head>` | not executed | ArtifactView.InjectStyleAsWritten, ArtifactView.EmptyHeadShowsDollarExpansion | ArtifactView.InjectStyle |
