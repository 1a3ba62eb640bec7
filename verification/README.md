# Verified model of the workflow kit's run core

The workflow kit compiles a workflow into an executable graph of agents and keeps a run of that
graph resumable: what each agent loop has done is recorded in a ledger file and a checkpoint, and a
later process picks up where a crashed one stopped. This project models that core in Dafny and
proves what the code promises of it.

| part | files |
|---|---|
| two-generation crash protocol of ledger and checkpoint | `Generations`, `Ledger`, `Resume` |
| agent loop: validator, redacted form, controller, runs | `LoopStates`, `SkillInputs`, `LoopValidation`, `Validator`, `Redaction`, `LoopControl`, `LoopAccounting`, `LoopBookkeeping`, `LoopRuns`, `LoopRecovery`, `LoopSystem`, `LoopRedactedRuns`, `LoopCharges`, `LoopReservations`, `LoopFinish`, `LoopAnswers`, `LoopExamples`, `Controller` |
| limits shared by all loops of a run | `Limits`, `Fleet` |
| graph translation and fan-in | `WorkflowIr`, `Reachability`, `Translation`, `TranslationMeaning`, `RouteSelection`, `GuardNames`, `FanInGuard` |
| shared-session admission | `SharedSession`, `SharedOutcomes` |
| length-framed identities | `Content`, `Framing` |
| model streams, routes, usage | `Collector`, `Routes`, `Usage` |
| artifact closure and graph continuation | `Artifacts`, `Continuation` |
| common vocabulary | `Prelude`, `Json`, `Sums`, `Worklist` |

The ledger store, the loop controller and the run status are classes whose methods take what the disk
and the clock do as arguments; loops over collections, worklists and in-place edits are methods with
invariants. Hashes, argument fingerprints, serialized sizes and finish decoding are function
parameters (`Host`, `Setup`), and a theorem that needs an assumption on one of them, such as
injectivity, states it. The crash protocol, the runs of agent loops and the shared session are
transition systems, and their theorems are about all runs.

## What the proofs found

Each is proved in the lemma named, as an exact condition or with the case that shows it.

* A model turn whose content carries a tool *response* is admitted by the controller, and the
  resulting state is refused by `valid_loop_state` on the next resume (`LoopRuns.ModelTurnValidIff`,
  `LoopExamples.ResponseInTurnRefused`).
* A turn that finishes while calls are pending is admitted and leaves a state that is refused, in
  both persistence modes (`LoopBookkeeping.ModelTurnBookedIff`, `LoopExamples.FinishOverOpenCall`).
* Reserving empty pages only for a skill leaves a state that is refused on reopening
  (`LoopRedactedRuns.RedactedRunsAcceptedIff`, `LoopExamples.EmptyPageRefused`).
* Restoring a completed turn of a loop that keeps its transcript repeats calls the transcript
  already holds, and leaves a refused state (`LoopRecovery.RestoredTurnInvalid`).
* Without transcripts, a skill read whose arguments leave out `offset`, or a pending script call,
  makes the written form one that is refused on reopening (`Redaction.RedactedFormAcceptedIff`).
* A read reservation is lost, and the read refused, exactly when the controller writes its own copy
  of the node over the ledger's in the meantime - on a model turn, or when another tool of the same
  turn answers first (`LoopReservations.ReservedIff`, `LoopExamples.OtherToolFirst`).
* At the 64-bit ceiling the saturating counters of the controller and the checked ones of the replay
  part ways; that is part of the exact condition of `LoopSystem.RunsValidateIff`.
* The shared call limits do not count a candidate whose node is not in the store yet
  (`Limits.NewNodeIsNotCounted`).  No run reaches this: a node's first model request stores it
  (`Fleet.RunsEnter`).
* Crash recovery rests on a failed checkpoint save leaving the old checkpoint
  (`Generations.DishonestSaveLosesTheRun`).
* A provenance entry may be read under another target or source when a node id contains a colon;
  which pairs of ids interfere is decided exactly (`FanInGuard.CarriesIff`,
  `FanInGuard.InterfereIff`), and the guard then writes a key nobody wrote
  (`FanInGuard.ColonInIdLeaks`).
* A node named like the guard of a fan-in target, which graph validation does not refuse, takes on
  the guard's edge: the graph loses traces of the workflow and gains others, and this is the only
  reason why it would (`GuardNames.TracesPreservedIff`, `GuardNames.CollidingLosesTraces`).
* After a shared session has failed one more turn may still be accepted: that of a task already past
  the admission check, and no other (`SharedSession.TurnAfterFailureIff`,
  `SharedSession.EntersAfterFailure`).

## Model

| member | source | states |
|---|---|---|
| Generations.CrashRecovery | crates/workflow-adk/src/execution.rs:589-694 | In every run of ledger writes, checkpoint saves, publishes, final saves, crashes and reopens whose saves leave the old checkpoint when they fail: the generation `open` selects is exactly the one the checkpoint was last bound to, which is the published one or the one in flight and was the target of some write; between operations, also after failed persists, the in-memory proof is what the checkpoint names and is in the ledger file |
| Generations.RunsRecoverIff | crates/workflow-adk/src/execution.rs:241-294 | Allowing saves that report failure after landing too: selection returns the last bound generation at every moment exactly when no final save of the run bound a generation the ledger file no longer held |
| Generations.OpenSucceedsIff | crates/workflow-adk/src/execution.rs:255-272 | With memory lost at any moment, reopening succeeds exactly when the last bound generation passes validation, and restores it |
| Generations.BoundWasWritten | crates/workflow-adk/src/execution.rs:589-655 | The bound, proven and in-flight generations are each the empty one or the target of an earlier write; nothing is a mix |
| Generations.SafeRunsRecoverable | crates/workflow-adk/src/execution.rs:657-694 | As long as final saves bind a generation in the file, the checkpoint names a generation the file holds, and a write under way is the newest one in it |
| Generations.HonestRunsMirror | crates/workflow-adk/src/execution.rs:634-654 | With honest saves the proof equals the bound generation in every idle state and every final save is safe |
| Generations.DishonestSaveLosesTheRun | crates/workflow-adk/src/execution.rs:754-760 | A concrete five-event run: a save that lands and reports failure, a persist whose save does not land, then the final save - and no generation can be selected any more |
| Ledger.LoopLedgerStore.Persist | crates/workflow-adk/src/execution.rs:574-655 | Redaction check, ledger write, checkpoint save and publish in this order; disk and proof afterwards for every outcome of the two writes, the proof moving only when both landed |
| Ledger.PersistIsProtocol | crates/workflow-adk/src/execution.rs:574-655 | What one persist leaves is the run write, save, publish of the generation protocol from idle to idle, so the protocol theorems hold of stores |
| Ledger.LoopLedgerStore.Open | crates/workflow-adk/src/execution.rs:241-294 | Opens exactly when the selected generation exists and is valid, with nodes and proof equal to it; it is the protocol's Open step |
| Ledger.LoopLedgerStore.RetainedGeneration | crates/workflow-adk/src/execution.rs:657-685 | The generation kept beside the new one is the one the checkpoint digest names, newest first; the empty one for an unbound checkpoint over an empty ledger; none otherwise |
| Ledger.LoopLedgerStore.FinalSave | crates/workflow-adk/src/execution.rs:754-760 | The final save binds the digest of the proof, never of the nodes in memory |
| Ledger.RedactAll | crates/workflow-adk/src/execution.rs:594-620 | The loops over nodes and calls produce the redacted form of every node |
| Ledger.LoopLedgerStore.ToolCallLimit | crates/workflow-adk/src/execution.rs:312-359 | A candidate over a limit leaves the whole store unchanged and reports which limit; otherwise the node is replaced and persisted, and a failed persist leaves the store ahead of the disk |
| Ledger.LoopLedgerStore.OutputByteLimit | crates/workflow-adk/src/execution.rs:361-383 | A candidate over the byte limit leaves the store unchanged; otherwise replaced and persisted |
| Ledger.LoopLedgerStore.CompletePendingCall | crates/workflow-adk/src/execution.rs:475-568 | Unknown nodes and refused completions are reported without touching disk or proof; otherwise the node's state after the move is stored and persisted, and its transcript has grown by the call's response, behind the call itself, which is put back exactly when no part of the transcript made it |
| Ledger.LoopLedgerStore.ReserveSkillRead | crates/workflow-adk/src/execution.rs:797-853 | Replays and repetitions charge nothing and write nothing; a new charge is stored and persisted; errors change nothing |
| Ledger.LoopLedgerStore.RestoreCompletedTurn | crates/workflow-adk/src/execution.rs:426-473 | Succeeds exactly for a known node and calls it has completed, and changes memory only |
| Ledger.ActivationIsStep | crates/workflow-adk/src/execution.rs:773-784 | What activating a skill stores is the node's step in the fleet: one more activated skill in the ledger's copy |
| Ledger.ReservationIsStep | crates/workflow-adk/src/execution.rs:797-853 | What a reservation for a pending read stores is the node's step in the fleet |
| Ledger.RecoveryIsStep | crates/workflow-adk/src/execution.rs:426-568 | What replays and restored turns store on resume is the step of both copies |
| Resume.GoodRunsReopen | crates/workflow-adk/src/execution.rs:241-294 | Any interleaving of all nodes' good steps with kept transcripts, crashed anywhere in a persist: the last bound generation is found, every loop state in it is valid, and reopening succeeds |
| Resume.RedactedRunsReopenIff | crates/workflow-adk/src/execution.rs:594-620 | Without transcripts a crashed run reopens when nothing was ever bound; otherwise the bound generation is the written form of the store at some moment of the run, and it reopens exactly when every call in that store had canonical arguments and no skill had only empty pages in reserve |
| Validator.CheckLoopState | crates/workflow-adk/src/execution.rs:1091-1278 | The validator's loops and early exits, in both branches, decide exactly the predicate the run theorems are about |
| Validator.CheckAccounting | crates/workflow-adk/src/execution.rs:950-987 | The per-skill tally of reservations with its overflow check decides the read-accounting predicate |
| Validator.CheckAdmissions | crates/workflow-adk/src/execution.rs:1105-1160 | The comparisons of ordinals, ids and call pairs decide agreement of the seen sets and totals with pending and completed calls |
| LoopValidation.ScanConversation | crates/workflow-adk/src/execution.rs:1178-1246 | The nested scan over contents and parts computes the replay of the transcript, or rejects it |
| LoopSystem.RunsValidateIff | crates/workflow-adk/src/execution.rs:1091-1278 | For every run of requests, model turns, tool results, reservations, activations, replays and restored turns that keeps its transcript: all states of controller and ledger pass the validator exactly when every step was good (plain first contents; no response part in model content; no finish over open calls; calls and bytes that can be counted in 64 bits; no skill left with only empty pages in reserve; no restored turn over a kept transcript) |
| LoopSystem.StepPreserves | crates/workflow-adk/src/execution.rs:1398-1690 | Each good step keeps the invariant on both copies, and each other step leaves a state the validator refuses |
| LoopSystem.RunsMayStart | crates/workflow-adk/src/execution.rs:1372-1388 | Runs may start from a fresh node or from what the ledger held in an earlier run |
| LoopRuns.ModelTurnValidIff | crates/workflow-adk/src/execution.rs:1450-1556 | A model turn leaves an acceptable state exactly when its content has no tool response, it does not finish over pending calls, and the total of calls stays within 64 bits |
| LoopExamples.ResponseInTurnRefused | crates/workflow-adk/src/execution.rs:1450-1556 | A content with a call and its own result: admitted from a fit state within all limits, refused afterwards |
| LoopRuns.BeforeModelValidIff | crates/workflow-adk/src/execution.rs:1398-1448 | First request contents leave an acceptable state exactly when none of them counts as a turn or carries a call or response |
| LoopRuns.PlainReplaysToNothing | crates/workflow-adk/src/execution.rs:1178-1246 | Contents replay to no calls, bytes or iterations exactly when every one of them is plain |
| LoopRuns.ToolDoneValidIff | crates/workflow-adk/src/execution.rs:1559-1689 | Answering a tool call leaves an acceptable state exactly when the output bytes stay within 64 bits and, for a read, the other reservations of its skill, if any, still hold bytes |
| LoopRuns.TurnReplays | crates/workflow-adk/src/execution.rs:1466-1520 | After a model turn the replay of the longer transcript equals every counter, set and queue of the state, order and ordinals included |
| LoopRuns.PendingUnanswered | crates/workflow-adk/src/execution.rs:1248-1273 | Each pending call is one the transcript admitted and has not answered, and removing it removes exactly it from the replayed queue |
| LoopRecovery.CompletePendingValidIff | crates/workflow-adk/src/execution.rs:475-568 | Replaying a pending call of a kept transcript leaves an acceptable state under exactly the same condition |
| LoopRecovery.CompletePendingAllOrNothing | crates/workflow-adk/src/execution.rs:515-565 | In a loop whose books are in order the failures after the call was moved cannot happen: a replay completes the call or leaves the state untouched |
| LoopRecovery.CompletePendingIff | crates/workflow-adk/src/execution.rs:475-568 | A replay completes exactly when the call is still pending, a read gets the page reserved for it, and the output bytes of all nodes stay within the limit; the failure is the output limit exactly when they do not, and an invalid run state otherwise |
| LoopAnswers.ReplayedTranscript | crates/workflow-adk/src/execution.rs:536-565 | For any transcript: a completed replay keeps it as a prefix, ends it with the call's response, and puts the call, with its pending arguments, in between exactly when no part carried its id |
| LoopAnswers.RunsAnswerWhatWasAsked | crates/workflow-adk/src/execution.rs:475-568 | Over every run, resumed ones and those without kept transcripts included: each tool response in the transcripts of controller and ledger has its call in a content before it |
| LoopAnswers.MayStartInStep | crates/workflow-adk/src/execution.rs:1372-1388 | Such runs may start from a fresh node, or, where transcripts are not kept, from any state that carries none |
| LoopAnswers.ReconstructedIff | crates/workflow-adk/src/execution.rs:1436-1443 | Over every run, the transcript is marked to be put behind the next request exactly when a turn was restored since the last request: never lost, never repeated |
| LoopAnswers.TurnContentsAre | crates/workflow-adk/src/execution.rs:426-473 | A restored turn appends each of its calls with that call's own name, arguments and id, and behind them each completed call's own response |
| LoopAnswers.TurnCallsAre | crates/workflow-adk/src/execution.rs:437-462 | The calls of a restored turn are those given as completed and those of the same iteration still pending, and no others |
| LoopRecovery.RestoredTurnInvalid | crates/workflow-adk/src/execution.rs:426-473 | Putting a completed turn back into a kept transcript always leaves a state the validator refuses |
| LoopRecovery.RestoredTurnKeepsRedacted | crates/workflow-adk/src/execution.rs:426-473 | Without transcripts a restored turn changes nothing of what is persisted next but the reconstruction flag |
| LoopRecovery.SortKeeps | crates/workflow-adk/src/execution.rs:452-462 | The restored turn's calls come in admission order, none lost and none added |
| LoopRecovery.BookedDistinctPairs | crates/workflow-adk/src/execution.rs:1120-1160 | No two pending calls share tool name and argument fingerprint |
| LoopBookkeeping.ModelTurnBookedIff | crates/workflow-adk/src/execution.rs:1450-1556 | With or without transcripts a turn keeps ids, call pairs, ordinals 1..n, per-tool counts and totals in agreement exactly when it does not finish over pending calls and the total of calls stays within 64 bits |
| LoopExamples.FinishOverOpenCall | crates/workflow-adk/src/execution.rs:1450-1556 | A finish message while a read is pending: admitted from a state with its books in order, out of order afterwards |
| LoopBookkeeping.OneMoreAdmission | crates/workflow-adk/src/execution.rs:1487-1506 | Admitting one call with a fresh id, a fresh pair and the next ordinal keeps the agreement of all redundant sets |
| LoopBookkeeping.CompletePendingBooked | crates/workflow-adk/src/execution.rs:475-568 | Replaying a pending call keeps the books in order |
| LoopBookkeeping.AcceptedRedactionBooked | crates/workflow-adk/src/execution.rs:255-272 | A redacted form that reopens is itself a state with its books in order |
| Controller.LoopController.BeforeModel | crates/workflow-adk/src/execution.rs:1398-1448 | Cancelled and exhausted loops change nothing but the run's status; otherwise the state is that of the node's step, stored only for the first request. What is sent is the first request as it is, later the transcript kept so far, and behind the new request where the transcript was reconstructed |
| Controller.LoopController.ObserveModel | crates/workflow-adk/src/execution.rs:1450-1556 | All or nothing: refused content or limits leave controller, store and disk alone, and content that neither finishes nor asks for tools is refused as invalid output; an accepted turn is the node's model step in the fleet, moves both copies, and ends the loop with an output exactly when the visible text of its parts, joined in order, is the finish message for it; a failed persist leaves the store ahead of controller and disk |
| LoopFinish.FinishIff | crates/workflow-adk/src/execution.rs:1048-1069 | A response finishes a loop with an output exactly when its role is the assistant's or model's, no part is a call, some part is text, and the text parts joined in order are not blank and decode to that output |
| LoopFinish.AsksIff | crates/workflow-adk/src/execution.rs:1048-1069 | It goes on without finishing exactly when it makes calls and its joined text is absent or blank |
| LoopFinish.RefusedIff | crates/workflow-adk/src/execution.rs:1048-1069 | Everything else is refused |
| LoopFinish.ModelTextJoins | crates/workflow-adk/src/lib.rs:1791-1799 | The visible text is the concatenation of the text parts in order, and absent exactly when there is none |
| Controller.LoopController.ObserveTool | crates/workflow-adk/src/execution.rs:1559-1689 | The same for a tool result and the node's tool step, with time limit, cancellation and failure checked first |
| Controller.AdmitAll | crates/workflow-adk/src/execution.rs:1479-1509 | The loop over parts admits calls in order or stops at the first missing id, unknown tool, malformed arguments or repeated call |
| Controller.ProjectTranscript | crates/workflow-adk/src/execution.rs:1634-1660 | The backwards search replaces the admitted arguments by their durable form in place, and fails when name or fingerprint differ |
| Controller.RunStatus.Fail | crates/workflow-adk/src/execution.rs:1361-1370 | The first failure stays, except that a tool failure gives way to the tool time limit |
| Redaction.DurableArgsIdempotent | crates/workflow-adk/src/execution.rs:876-919 | Redacting arguments twice is redacting them once, for every tool and every input, malformed ones included |
| Redaction.DurableFields | crates/workflow-adk/src/execution.rs:876-919 | What is written of a call's arguments, field by field: an activation keeps its skill id, a read skill, resource, offset (zero if left out) and limit, a script call skill id, script id and its fingerprint, each under its own key, and any other tool its fingerprint alone; only a call without a name cannot be written |
| SkillInputs.ActivateIff | crates/workflow-runtime/src/tool.rs:15-18 | Arguments are accepted for an activation exactly when they are the JSON form of a skill id |
| SkillInputs.ReadIff | crates/workflow-runtime/src/tool.rs:23-33 | For a read exactly when they are the JSON form of skill, resource, limit and, if given, offset, both 64-bit numbers |
| SkillInputs.ScriptIff | crates/workflow-runtime/src/tool.rs:38-45 | For a script exactly when they are the JSON form of skill, script and input |
| SkillInputs.WireInjective | crates/workflow-runtime/src/tool.rs:13-45 | Equal JSON forms are forms of equal inputs |
| SkillInputs.PageIff | crates/workflow-adk/src/execution.rs:1029-1033 | A response has a page size exactly when the number at `/payload/page_byte_len` is a 64-bit one, and then it is that |
| Redaction.RedactIdempotent | crates/workflow-adk/src/execution.rs:594-620 | Redacting a whole state twice is redacting it once |
| Redaction.RedactedFormAcceptedIff | crates/workflow-adk/src/execution.rs:1098-1165 | A state whose books are in order has a redacted form that `valid_loop_state` accepts exactly when no script call with real input is pending, every skill call has canonical arguments (no omitted offset), and no skill has only empty pages in reserve |
| Redaction.PendingAcceptedIff | crates/workflow-adk/src/execution.rs:1136-1142 | A pending call survives redaction exactly when its arguments are canonical; a pending script call with real input never does |
| Redaction.CompletedAcceptedIff | crates/workflow-adk/src/execution.rs:940-948 | The same for completed calls, where redacted script arguments are accepted |
| Redaction.RedactKeepsAccounting | crates/workflow-adk/src/execution.rs:950-987 | Redaction keeps every reservation attached to its pending read, and what each skill holds in reserve |
| LoopRedactedRuns.RedactedRunsAcceptedIff | crates/workflow-adk/src/execution.rs:574-620 | In every run of orderly turns, what would be written without transcripts at any state is accepted on reopening exactly when every call in it is canonical and no skill has only empty pages in reserve; a turn that finishes over open calls, or whose calls cannot be counted, always writes a refused form |
| LoopExamples.EmptyPageRefused | crates/workflow-adk/src/execution.rs:797-853 | A three-step run from a fresh node whose only read reserves an empty page: every call is canonical, and what is written is refused |
| LoopRedactedRuns.ReopenedMayStart | crates/workflow-adk/src/execution.rs:255-281 | An accepted redacted form is a state from which the next run may start |
| LoopCharges.RunsCharged | crates/workflow-adk/src/execution.rs:797-853 | From a fresh node, in every interleaving of orderly turns, reservations, tool results and replays, with or without transcripts: bytes charged to a skill are its completed reads plus its outstanding reservations and at most 64 KiB, and each reservation belongs to a pending read |
| LoopCharges.RunsKeepCharges | crates/workflow-adk/src/execution.rs:797-853 | Wherever a run starts, resumed ones included, a skill's charge less its completed reads and reservations never changes |
| LoopAccounting.ReserveValidIff | crates/workflow-adk/src/execution.rs:797-853 | A new reservation keeps the accounting valid exactly when the page is not empty or the skill has other bytes outstanding; a first empty page makes the persisted state unacceptable |
| LoopExamples.EmptyReservationInvalid | crates/workflow-adk/src/execution.rs:797-853 | An empty page reserved for the only open read of a skill |
| LoopAccounting.ReserveAgainIsFree | crates/workflow-adk/src/execution.rs:812-835 | Repeating a reservation for the same fingerprint and size, or replaying a finished read, charges nothing and changes nothing |
| LoopAccounting.ReserveIff | crates/workflow-adk/src/execution.rs:797-853 | A reservation is refused exactly for a repetition with another size or a new page over 64 KiB of the skill's charge; otherwise exactly its fingerprint and charge are added |
| LoopAccounting.PagesUpToLimit | crates/workflow-adk/src/execution.rs:797-853 | Any pages of one skill with fresh fingerprints are accepted one after another exactly as long as they fit into what is left of its 64 KiB |
| LoopAccounting.UnaccountedReadDone | crates/workflow-adk/src/execution.rs:1612-1632 | A finished read moves exactly its bytes from reservations to completed reads |
| LoopReservations.ReservedIff | crates/workflow-adk/src/execution.rs:1450-1690 | Over every run, a read reservation is in the ledger exactly when no step since it was made answered the read or put a controller's copy without it in place of the ledger's (a model turn, another tool's result, a first request) |
| LoopReservations.DroppedReadRefused | crates/workflow-adk/src/execution.rs:1612-1632 | Once such a step has come between, the result of the read is refused |
| LoopReservations.InterleavedReadRefused | crates/workflow-adk/src/execution.rs:1612-1632 | The shortest case: another tool's result between a reservation and its own read result |
| LoopExamples.OtherToolFirst | crates/workflow-adk/src/execution.rs:1559-1689 | A four-step run from a fresh node, for every host: a turn asks for a page and another tool, the page is reserved, the other tool answers first; the read stays open and no page is accepted for it |
| Limits.SaturatingTotal | crates/workflow-adk/src/execution.rs:325-330 | The saturating fold over the nodes equals the true sum clamped to 64 bits, in any order of nodes |
| Limits.PerTool | crates/workflow-adk/src/execution.rs:334-343 | The accumulated per-tool counts equal the true per-tool sums over all nodes, clamped |
| Limits.CheckToolCalls | crates/workflow-adk/src/execution.rs:325-352 | The decision is: clamped total over the limit, else some clamped per-tool sum over the limit, else none |
| Limits.CallVerdictExact | crates/workflow-adk/src/execution.rs:325-352 | For every limit below the 64-bit ceiling the decision is that on true sums |
| Limits.NewNodeIsNotCounted | crates/workflow-adk/src/execution.rs:321-333 | A candidate whose node is not in the store is not counted: it passes whatever it holds, and the limits hold afterwards exactly when its own calls fit as well |
| Fleet.RunsEnter | crates/workflow-adk/src/execution.rs:1398-1448 | In a run where a node's model and tool callbacks come after a model request, every such callback finds its node in the store, so no uncounted candidate is ever checked |
| Fleet.LimitsHold | crates/workflow-adk/src/execution.rs:312-383 | Over any interleaving of steps from any number of nodes, total calls, calls of each tool and output bytes, summed without clamping, stay within the limits, and controllers and store agree on them |
| Fleet.FleetStepProjects | crates/workflow-adk/src/execution.rs:312-383 | A step of the fleet is exactly one step of its own node and no step of any other, and within the shared limits the node stays within its own |
| Fleet.FleetsValidate | crates/workflow-adk/src/execution.rs:1091-1278 | When every step is good every node's two copies stay acceptable, whatever other nodes do |
| Fleet.ReplayWithin | crates/workflow-adk/src/execution.rs:484-508 | A replay is charged with the output of all other nodes and keeps the byte limit |
| Framing.LexOfJoin | crates/workflow-adk/src/execution.rs:3963-3965 | Framed text has exactly one reading as labelled values, whatever bytes the values hold |
| Framing.DecodeOfRequest | crates/workflow-adk/src/execution.rs:3948-4129 | A decoder recovers the whole ordered conversation - roles, parts, optional fields, nested data, hex bytes - from the framed text |
| Framing.FramedTextDeterminesRequest | crates/workflow-adk/src/execution.rs:3948-4129 | Equal framed texts mean equal requests, when distinct JSON values render to distinct texts |
| Framing.RequestInputText | crates/workflow-adk/src/execution.rs:3948-3960 | The pushing loops build exactly the joined frames the decoder is about |
| Framing.MaterialDeterminesInvocation | crates/workflow-adk/src/model_invocation.rs:1023-1066 | The joined frames of an invocation identity determine every field, and whether a session history was part of it |
| Reachability.BuildAdjacency | crates/workflow-adk/src/lib.rs:1240-1268 | Successors and predecessors hold exactly the authored edges and route targets |
| Reachability.CanReachBeforeTarget | crates/workflow-adk/src/lib.rs:1269-1287 | The worklist search terminates and answers exactly whether a walk exists on which only the last node may be the target |
| Reachability.ClassifyFanIn | crates/workflow-adk/src/lib.rs:1289-1313 | Fan-in targets are those with more than one source and a diverging ancestor; the sources are the predecessors incomparable to some other predecessor |
| Reachability.FanInIff | crates/workflow-adk/src/lib.rs:1289-1313 | A target fans in exactly when some node leads to two different sources of it before the target |
| Reachability.SourcesComeInPairs | crates/workflow-adk/src/lib.rs:1293-1312 | There is never exactly one source |
| Reachability.BindWriter | crates/workflow-adk/src/lib.rs:1314-1335 | A writer is bound to a target and source exactly when that source is the only one it reaches |
| Reachability.BoundOnce | crates/workflow-adk/src/lib.rs:1319-1334 | A writer has at most one source per target, and reaches it |
| Reachability.SourceBindsItself | crates/workflow-adk/src/lib.rs:1319-1334 | A source writes for itself exactly when it reaches no other source of the target |
| Translation.UnusedNodeId | crates/workflow-adk/src/lib.rs:426-438 | The search ends and returns the preferred name if free, else the first free numbered one |
| Translation.UnknownRouteName | crates/workflow-adk/src/lib.rs:1648-1656 | The search ends with the first numbered name that is neither an id nor a case key, continuing from the last index |
| Translation.CheckTargets | crates/workflow-adk/src/lib.rs:1336-1366 | No error exactly when the entry and every edge, case and default target are nodes |
| Translation.BuildConditionals | crates/workflow-adk/src/lib.rs:1636-1714 | Every route gets its conditional edge, and routes without default a fresh failing node of their own |
| Translation.Translate | crates/workflow-adk/src/lib.rs:1605-1717 | The graph has exactly the required edges, guards, admit node and conditional edges |
| TranslationMeaning.TranslateIr | crates/workflow-adk/src/lib.rs:1238-1717 | Adjacency, classification and translation together, for any workflow whose targets are known |
| TranslationMeaning.TranslationPreservesTraces | crates/workflow-adk/src/lib.rs:1605-1717 | Where no node is named like a guard, the traces of the workflow are exactly the graph's traces with inserted nodes erased; `GuardNames.TracesPreservedIff` covers the other workflows |
| TranslationMeaning.GraphTracesErase | crates/workflow-adk/src/lib.rs:1605-1717 | Any graph trace erases to a workflow trace and stands where the workflow allows: on a node it may reach next, on the way to it, or on the failure of an unknown route |
| TranslationMeaning.IrTracesLift | crates/workflow-adk/src/lib.rs:1605-1717 | Any workflow trace is the erasure of a graph trace that ends where it does and is at most three times as long |
| TranslationMeaning.ViaIsTheWay | crates/workflow-adk/src/lib.rs:1612-1635 | Before each workflow node stand none, one or two inserted nodes, entered at the rewritten target and linked unconditionally |
| TranslationMeaning.RouteAgrees | crates/workflow-adk/src/lib.rs:1675-1713 | The conditional edge leads where the route does in every state; which entry of the state decides is in the rows of `RouteSelection` |
| RouteSelection.NodeEntryIgnored | crates/workflow-adk/src/lib.rs:1700-1713 | Where the state has an entry `route:n`, adding, changing or removing `node:n` changes no move from n, of the workflow or of any graph |
| RouteSelection.EntryDecides | crates/workflow-adk/src/lib.rs:1700-1713 | For a node whose one way on is a route: `route:n`, or `node:n` in its absence, leads workflow and graph to the target of the case it names, and nowhere else; if it names none or is no string, to the default, or else the route fails and the graph goes to the node that reports it |
| RouteSelection.NoEntryFallsBack | crates/workflow-adk/src/lib.rs:1700-1713 | With neither entry the route takes its default, or fails |
| TranslationMeaning.UnknownRouteIff | crates/workflow-adk/src/lib.rs:1657-1674 | A route fails as unknown exactly when the graph moves to a node that reports the failure of that route's node |
| TranslationMeaning.DefaultKeyShadowsIff | crates/workflow-adk/src/lib.rs:1685-1690 | A case keyed like the default is taken correctly only if it leads where the default does |
| GuardNames.TracesPreservedIff | crates/workflow-adk/src/lib.rs:1372-1409 | For workflows as graph validation admits them, with every node reached from the entry: the traces of the workflow are exactly the erased traces of the graph if and only if no node is named like the guard of a fan-in target |
| GuardNames.MovesFaithfullyIff | crates/workflow-adk/src/lib.rs:1372-1409 | From all workflow nodes in all states the graph makes exactly the workflow's moves, rewritten, if and only if each node named like a guard makes, in every state, a move that is rewritten to the guard's edge |
| TranslationMeaning.MovesExactly | crates/workflow-adk/src/lib.rs:1605-1717 | The graph's moves from any workflow node are the rewritten moves of the workflow, the failures of its routes, and the guard's edge if the node is named like a guard |
| GuardNames.EntryIsLost | crates/workflow-adk/src/lib.rs:1372-1409 | With such a node, a workflow trace that enters the fan-in target from any other node is the erasure of no graph trace |
| GuardNames.CollidingLosesTraces | crates/workflow-adk/src/lib.rs:1289-1409 | A concrete workflow of five nodes: its join is classified as fan-in, the trace through a branch is lost, and a trace the workflow does not have is gained |
| FanInGuard.RunGuard | crates/workflow-adk/src/lib.rs:1382-1408 | The guard fails exactly when two contributions name one key, and otherwise writes exactly their union and nulls exactly their entries, in any order |
| FanInGuard.ConflictIffTwoEntries | crates/workflow-adk/src/lib.rs:1385-1399 | When no source's id and colon begin another's (colon-free ids suffice), it fails exactly when two live entries of its target name the same key |
| FanInGuard.ColonFreeSeparate | crates/workflow-adk/src/lib.rs:1384-1388 | Colon-free source ids are separate in that sense |
| FanInGuard.EntryReadsBack | crates/workflow-adk/src/lib.rs:1495-1509 | An entry written for a source reads back as its key, whatever the key holds |
| FanInGuard.CarriesIff | crates/workflow-adk/src/lib.rs:1384-1388 | For all ids, generations and keys: an entry written for one target and source is read under another exactly when `target:source:` of the other begins that of the entry, or goes on from it into the entry's generation and key and leaves a colon behind |
| FanInGuard.InterfereIff | crates/workflow-adk/src/lib.rs:1384-1388 | Some entry of one target and source is read under another exactly when `target:source:` of the other begins its own, or goes on from it with a number and a colon |
| FanInGuard.ColonFreeIsOwn | crates/workflow-adk/src/lib.rs:1384-1388 | With colon-free ids an entry is read under no other target or source |
| FanInGuard.ColonInIdLeaks | crates/workflow-adk/src/lib.rs:1382-1408 | With sources "a" and "a:0" the guard itself, run on one entry of "a:0", writes both its key and a key nobody wrote |
| FanInGuard.StripIsInvisible | crates/workflow-adk/src/lib.rs:997-1004 | Stripping drops nulled provenance entries and leaves every other entry as it is; twice is once, and no guard can tell a stripped state from the original |
| FanInGuard.GuardConsumes | crates/workflow-adk/src/lib.rs:1400-1406 | After the output is merged nothing is left to gather, and stripping drops the consumed entries, unless a branch wrote a provenance key itself |
| SharedSession.MutualExclusion | crates/workflow-adk/src/shared_session.rs:135-160 | At most one task holds the history in every reachable state |
| SharedSession.NoLostWakeUpKept | crates/workflow-adk/src/shared_session.rs:136-158 | Whoever parked and could go on has been woken, or someone still owes a notification - across failures, confirmations and cancellation at every await |
| SharedSession.QuietMeansBlocked | crates/workflow-adk/src/shared_session.rs:136-158 | When every task is done or parked unwoken, parked tasks wait for another node's recovered turn and the run has not failed; `SharedOutcomes.NobodyWaitsForATask` says whose |
| SharedSession.AlwaysAStep | crates/workflow-adk/src/shared_session.rs:119-229 | Otherwise some step other than cancellation is possible |
| SharedSession.HistoryGrows | crates/workflow-adk/src/shared_session.rs:188-205 | The history changes only by exactly one turn at its end, numbered next, on a final answer of the lock's holder |
| SharedSession.OneTurnPerFinalAnswer | crates/workflow-adk/src/shared_session.rs:194-204 | Without a ledger the history has exactly one turn per final answer |
| SharedSession.TurnAfterFailureIff | crates/workflow-adk/src/shared_session.rs:231-241 | From a failed state a turn can still be accepted in some continuation exactly when some task past the check is at work |
| SharedSession.AtMostOneTurnAfterFailure | crates/workflow-adk/src/shared_session.rs:231-241 | Once the run has failed at most one more turn is ever accepted |
| SharedSession.EntersAfterFailure | crates/workflow-adk/src/shared_session.rs:119-241 | A seven-action run in which a task past the check enters the agent after the run has failed, and its turn is accepted |
| SharedSession.RunsKeepInv | crates/workflow-adk/src/shared_session.rs:82-241 | Exclusion, wake-ups, numbering, and the history being a prefix of the ledger hold in every reachable state |
| SharedOutcomes.FailedIff | crates/workflow-adk/src/shared_session.rs:161-241 | A run has failed exactly when some task has gone without an answer or, with a ledger, some agent has asked for a confirmation |
| SharedOutcomes.ConfirmationFails | crates/workflow-adk/src/shared_session.rs:165-181 | A confirmation fails a durable run at once and for good, and leaves a run without ledger as it was |
| SharedOutcomes.NobodyWaitsAfterConfirmation | crates/workflow-adk/src/shared_session.rs:165-181 | After a confirmation in a durable run, every task is done in a state where nothing but cancellation can happen |
| SharedOutcomes.NobodyWaitsForATask | crates/workflow-adk/src/shared_session.rs:136-181 | In such a state of any run, whoever is parked waits for a node no task of the run belongs to, so no waiter hangs behind a finished owner |
| SharedOutcomes.OutcomeIff | crates/workflow-adk/src/shared_session.rs:161-229 | A task is on its way out with success exactly when its agent gave a final answer or asked for a confirmation |
| SharedOutcomes.LosersStayOut | crates/workflow-adk/src/shared_session.rs:207-241 | A task that was cancelled, or whose agent or ledger failed, never works again, and once it is done the run has failed |
| SharedOutcomes.WokenIff | crates/workflow-adk/src/shared_session.rs:136-158 | A task waiting for the lock or parked is woken exactly when a notification came after its latest registration: none is missed, none from before counts |
| SharedOutcomes.RegistersAgain | crates/workflow-adk/src/shared_session.rs:136-158 | After a wake-up a task waits again only once it has registered again |
| SharedOutcomes.CancelFails | crates/workflow-adk/src/shared_session.rs:119-241 | Wherever a task waits - for the lock, a notification, the ledger or the agent - it can be cancelled, and its own next steps, which nobody can block, fail the run and wake everyone |
| SharedOutcomes.PreparesIff | crates/workflow-adk/src/execution/shared.rs:60-107 | Whoever is let in may go to work only if no turn was recorded that the run could not read back: on a new turn exactly while no other node's is pending in the ledger, on a recorded one exactly when its own is not |
| SharedOutcomes.TurnsRecordedOnce | crates/workflow-adk/src/execution/shared.rs:147-228 | The ledger gets exactly one turn, with the node, number, input and output of the answer, when it takes an answer whose turn it did not have, and none otherwise; the history of the run follows it on a final answer only |
| SharedOutcomes.PendingTurnComesFirst | crates/workflow-adk/src/execution/shared.rs:60-107 | A turn left pending by a crash is the next one recorded, and until then no task of another node works on an unrecorded turn |
| Collector.InvokeCollect | crates/workflow-adk/src/model_invocation.rs:1165-1306 | Succeeds exactly when an attempt within the budget is accepted after attempts only validation refused; any other ending stops it with its own error; attempts are counted, and the reasoning buffer holds the accepted bytes or nothing |
| Collector.CollectAttempt | crates/workflow-adk/src/model_invocation.rs:1182-1283 | The chunk loop with its early exits equals the fold, and completion is required |
| Collector.AddItemsMeans | crates/workflow-adk/src/model_invocation.rs:1196-1275 | The fold succeeds exactly when no chunk is broken or failing and all parts are allowed and within bounds; its text and reasoning are the concatenations, its completion and usage those of the last chunks that carry any |
| Collector.SuccessMeans | crates/workflow-adk/src/model_invocation.rs:1276-1300 | What an accepted attempt guarantees of its raw stream |
| Routes.Invoke | crates/workflow-adk/src/model_routes.rs:865-984 | The loop does exactly the effects determined by candidates and session, numbers its attempts 1, 2, ..., and succeeds exactly when the first candidate not passed over wins. Any other end is reported as what it was: cancelled or past the deadline exactly when that is what stopped the last operation or what its call failed with, denied, misconfigured, a session failure, a mismatch, a protocol or provider failure exactly when that happened in time, and exhausted exactly when all were passed over; the last attempt is of the matching kind |
| Routes.TraceIsOrderly | crates/workflow-adk/src/model_routes.rs:878-984 | Of every invocation, failed preparations included: binds and calls are for authorized candidates, each after candidates that all asked to retry; the user turn is appended once before any of them, the assistant turn only as the last effect of an accepted session call |
| Routes.TraceHas | crates/workflow-adk/src/model_routes.rs:878-984 | Which effects an invocation has had: a candidate is bound or called exactly when it was passed over or its own operation was begun, and the assistant turn is appended exactly when an accepted call's append took effect, also if that was noticed too late |
| Routes.UnpreparedHas | crates/workflow-adk/src/model_routes.rs:986-1093 | When preparation fails only the session has been touched, and the user turn is in it exactly when its append took effect |
| Routes.SuccessAppendsBoth | crates/workflow-adk/src/model_routes.rs:951-966 | A successful session invocation has appended both turns, one at each end |
| Routes.PrepareSession | crates/workflow-adk/src/model_sessions.rs:36-84 | History is loaded before the user turn is appended; preparation succeeds exactly when both succeed in time, and otherwise fails as cancelled, past the deadline or refused by the session, whichever it was |
| Routes.TryCandidate | crates/workflow-adk/src/model_routes.rs:911-976 | One candidate's effects, attempt record and result in every way its bind, call and append can end, each error exactly in its own case |
| Usage.UsageComposes | crates/workflow-adk/src/model_profiles.rs:1458-1493 | For every accepted stream, collecting and attaching leaves payload chunks in order with their contents, puts telemetry on the last only, and reports exactly the counters of the last chunk of the raw stream with a valid snapshot |
| Usage.CollectPayloads | crates/workflow-adk/src/model_profiles.rs:1458-1493 | Succeeds exactly for sound streams with a payload; keeps payloads in order and the newest whole usage snapshot on the last |
| Usage.LatestUsageIsLast | crates/workflow-adk/src/model_profiles.rs:1470-1480 | The kept snapshot is that of the last chunk with a valid one, contentless chunks included |
| Usage.Attach | crates/workflow-adk/src/model_telemetry.rs:65-168 | The in-place edit strips look-alike keys everywhere and puts telemetry on the last response |
| Usage.AttachKeepsMetadata | crates/workflow-adk/src/model_telemetry.rs:65-168 | Attaching leaves every other provider metadata field of every response as it was |
| Artifacts.CollectEventRefs | crates/workflow-adk/src/execution.rs:6588-6632 | From the events' envelopes and the references already held, every readable artifact reachable through trusted envelopes is kept, and only reachable ones |
| Artifacts.Collect | crates/workflow-adk/src/execution.rs:6596-6632 | The worklist terminates on cyclic envelopes and keeps exactly that |
| Artifacts.TrustedIff | crates/workflow-adk/src/execution.rs:6634-6668 | Which references of an envelope are followed, field by field, and that no others are |
| Continuation.RoundTrip | crates/workflow-adk/src/execution.rs:1822-1854 | Restoring fails exactly when the checkpoint or earlier retries name an unknown node; otherwise step, pending nodes and attempts come back, this checkpoint's attempts over earlier ones |
| Continuation.RestoreIff | crates/workflow-adk/src/execution.rs:1735-1761 | Any stored state is restored exactly when it has a continuation of version 1 whose pending nodes, attempts, routes and visits all name known nodes |
| Continuation.RoundTripState | crates/workflow-adk/src/execution.rs:1703-1762 | Every route entry and every integer visit count comes back, and nothing else in the state moves |

## Left out

Deliberate limits of single members:

- LoopSystem.RunsValidateIff: assumes that serialized values and argument fingerprints are never empty.
- Ledger.LoopLedgerStore.Open: leaves out the schema version, the checkpoint's identity, and that audit tokens are not repeated, which the source also checks on opening.
- Validator.CheckLoopState: leaves out the checks on a state's isolated invocation and on its audit tokens.
- Controller.LoopController.BeforeModel: leaves out the branch of isolated invocations, and the previous response id put on the request.
- Fleet.LimitsHold: is about limits below the 64-bit ceiling; at the ceiling a clamped sum never exceeds the limit.
- Generations.CrashRecovery: assumes injective digests and saves that leave the old checkpoint when they fail; `Generations.RunsRecoverIff` covers the other saves.
- Framing.FramedTextDeterminesRequest: takes JSON values by their rendered text, and a UTF-8 text as one character a byte.
- TranslationMeaning.TranslationPreservesTraces: is about the sequence of nodes visited along one branch; how the graph executor schedules parallel branches is not part of this model.
- Artifacts.Collect: says nothing of unreadable references, one of which may stay in the set when a later envelope names it again after it was dropped.
- Resume.GoodRunsReopen: is about selecting and validating a generation; a resumed run may still be refused for other reasons, such as a repeated event id, because the manifest's resume count is written after the checkpoint.
- Routes.Invoke: takes a session append that reports an error in time as not made.
- Collector.InvokeCollect: measures texts in characters, one a byte.
- Limits.AddCounts: models the per-tool accumulation with counts that may exceed 64 bits, which the store never holds.

Parts of the repository that the model does not have:

- The `isolated`, `tool_audit`, `effect_audit` and `stream_identity` modules: invocation ownership, audit tokens and effect receipts are not part of the loop state here. Of the `shared` module (`crates/workflow-adk/src/execution/shared.rs`) the model has the checks that preparing a turn makes and the turn it records; the ledger is a history, without digests.
- Poisoned locks, JSON and SQLite encodings, schema version and identity checks of the ledger file, artifact syncing before a persist, and byte-level file writes.
- Wall-clock time: deadlines, idle time and tool time are arguments; the retry on a provider's rate limit and its deadline are not modelled.
- `previous_response_id` on outgoing requests, and the SDK's own request and event types.
- Graph validation itself: its effect appears as the preconditions `TranslationMeaning.WellFormed` and `GuardNames.AllReached`.
- What nodes compute: agent input and output mapping, pure transforms, visit bounds, recursion limits, firewall and sentinel checks.
- The agent's generation counter of the fan-in keys, which the guard never reads.
- Shared sessions: the map from session id to run, and the projection of the history into a new session.
- Profile parsing, credentials, provider adapters, skill packages, tool sandboxing, event redaction, error-kind tables, receipts and the command-line programs: single-branch checks or plumbing that would only add easy members.
