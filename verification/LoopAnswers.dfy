/** Every tool result in a transcript stands behind the call it answers, however the transcript came
    about: turn by turn, by replaying pending calls, or by restoring a turn after a crash. */
module LoopAnswers {
  import opened Prelude
  import opened Json
  import opened LoopStates
  import opened LoopValidation
  import opened LoopControl
  import opened LoopBookkeeping
  import opened LoopRecovery
  import opened LoopSystem
  import C = Content

  predicate CallsFor(c: Content, id: string) {
    exists j :: 0 <= j < |c.parts| && c.parts[j].FunctionCall? && c.parts[j].id == Some(id)
  }

  predicate RespondsTo(c: Content, id: string) {
    exists j :: 0 <= j < |c.parts| && c.parts[j].FunctionResponse? && c.parts[j].id == Some(id)
  }

  /** Some content before the `k`-th makes the call. */
  predicate CalledBefore(conversation: seq<Content>, k: nat, id: string)
    requires k <= |conversation|
  {
    exists i :: 0 <= i < k && CallsFor(conversation[i], id)
  }

  ghost predicate AllAsked(conversation: seq<Content>) {
    forall k, id :: 0 <= k < |conversation| && RespondsTo(conversation[k], id) ==> CalledBefore(conversation, k, id)
  }

  predicate PendingCalled(s: LoopState) {
    forall c <- s.pendingCalls :: CalledBefore(s.conversation, |s.conversation|, c.id)
  }

  lemma {:induction false} FindCallPartIff(parts: seq<Part>, id: string)
    ensures FindCallPart(parts, id).Some? <==> CallsFor(C.Content("", parts), id)
  {
    if parts != [] {
      var front := parts[..|parts| - 1];
      FindCallPartIff(front, id);
      if CallsFor(C.Content("", front), id) {
        var j :| 0 <= j < |front| && front[j].FunctionCall? && front[j].id == Some(id);
        assert parts[j].FunctionCall? && parts[j].id == Some(id);
      }
      if CallsFor(C.Content("", parts), id) && FindCallPart(parts, id) != Some(|parts| - 1) {
        var j :| 0 <= j < |parts| && parts[j].FunctionCall? && parts[j].id == Some(id);
        assert front[j] == parts[j];
      }
    }
  }

  lemma MentionsIff(conversation: seq<Content>, id: string)
    ensures MentionsCall(conversation, id) <==> CalledBefore(conversation, |conversation|, id)
  {
    forall k | 0 <= k < |conversation|
      ensures FindCallPart(conversation[k].parts, id).Some? <==> CallsFor(conversation[k], id)
    {
      FindCallPartIff(conversation[k].parts, id);
    }
  }

  // ---- One replayed call ----

  /** The transcript afterwards: the result of the call at its end, and before that the call itself, with
      the arguments it is pending with, exactly when the transcript did not have it. */
  predicate AnswersAtEnd(s: LoopState, call: PendingCall, response: Json, after: seq<Content>) {
    var before := s.conversation;
    && before <= after
    && |after| == |before| + (if CalledBefore(before, |before|, call.id) then 1 else 2)
    && after[|after| - 1] == C.Content("function",
         [C.FunctionResponse(C.FunctionResponseData(call.name, response, [], []), Some(call.id), None)])
    && CalledBefore(after, |after| - 1, call.id)
    && (!CalledBefore(before, |before|, call.id) ==>
          exists pending <- s.pendingCalls :: SameCall(pending, call)
            && after[|before|] == C.Content("model", [C.FunctionCall(call.name, pending.args, Some(call.id), None)]))
  }

  /** Replaying a pending call puts its result behind the call. */
  lemma ReplayedTranscript(host: Host, s: LoopState, otherBytes: nat, call: PendingCall, response: Json, limit: nat)
    requires CompletePending(host, s, otherBytes, call, response, limit).1.None?
    ensures AnswersAtEnd(s, call, response, CompletePending(host, s, otherBytes, call, response, limit).0.conversation)
  {
    var after := CompletePending(host, s, otherBytes, call, response, limit).0.conversation;
    var i := ReplayAnswers(host, s, otherBytes, call, response, limit);
    var pending := s.pendingCalls[i];
    assert pending in s.pendingCalls;
    MentionsIff(s.conversation, pending.id);
    if CalledBefore(s.conversation, |s.conversation|, call.id) {
      var k :| 0 <= k < |s.conversation| && CallsFor(s.conversation[k], call.id);
      assert CallsFor(after[k], call.id);
    } else {
      CallContentCalls(pending);
      assert after[|s.conversation|] == ToolCallContent(pending);
    }
  }

  lemma CallContentCalls(call: PendingCall)
    ensures CallsFor(ToolCallContent(call), call.id)
    ensures forall id :: !RespondsTo(ToolCallContent(call), id)
  {
    assert ToolCallContent(call).parts[0].FunctionCall?;
  }

  lemma ResponseContentResponds(call: PendingCall, response: Json)
    ensures forall id :: RespondsTo(ToolResponseContent(call, response), id) <==> id == call.id
  {
    assert ToolResponseContent(call, response).parts[0].FunctionResponse?;
  }

  // ---- Transcripts in order ----

  lemma CalledGrows(conversation: seq<Content>, more: seq<Content>, id: string)
    requires CalledBefore(conversation, |conversation|, id)
    ensures CalledBefore(conversation + more, |conversation|, id)
    ensures CalledBefore(conversation + more, |conversation| + |more|, id)
  {
    var i :| 0 <= i < |conversation| && CallsFor(conversation[i], id);
    assert (conversation + more)[i] == conversation[i];
  }

  lemma AskedJoins(first: seq<Content>, second: seq<Content>)
    requires AllAsked(first)
    requires forall k, id :: 0 <= k < |second| && RespondsTo(second[k], id) ==>
      CalledBefore(second, k, id) || CalledBefore(first, |first|, id)
    ensures AllAsked(first + second)
  {
    var all := first + second;
    forall k, id | 0 <= k < |all| && RespondsTo(all[k], id) ensures CalledBefore(all, k, id) {
      if k < |first| {
        var i :| 0 <= i < k && CallsFor(first[i], id);
        assert all[i] == first[i];
      } else if CalledBefore(first, |first|, id) {
        var i :| 0 <= i < |first| && CallsFor(first[i], id);
        assert all[i] == first[i];
      } else {
        assert all[k] == second[k - |first|];
        var i :| 0 <= i < k - |first| && CallsFor(second[i], id);
        assert all[|first| + i] == second[i];
      }
    }
  }

  /** One more content, whose results answer calls made before. */
  lemma AskedSnoc(conversation: seq<Content>, c: Content)
    requires AllAsked(conversation)
    requires forall id :: RespondsTo(c, id) ==> CalledBefore(conversation, |conversation|, id)
    ensures AllAsked(conversation + [c])
  {
    AskedJoins(conversation, [c]);
  }

  /** The same calls and results in the same places. */
  predicate SameShape(a: seq<Content>, b: seq<Content>) {
    |a| == |b| && forall k :: 0 <= k < |a| ==> SameParts(a[k], b[k])
  }

  predicate SameParts(a: Content, b: Content) {
    && |a.parts| == |b.parts|
    && forall j :: 0 <= j < |a.parts| ==>
         && (a.parts[j].FunctionCall? <==> b.parts[j].FunctionCall?)
         && (a.parts[j].FunctionResponse? <==> b.parts[j].FunctionResponse?)
         && (a.parts[j].FunctionCall? ==> a.parts[j].id == b.parts[j].id)
         && (a.parts[j].FunctionResponse? ==> a.parts[j].id == b.parts[j].id)
  }

  lemma SamePartsSame(a: Content, b: Content, id: string)
    requires SameParts(a, b)
    ensures CallsFor(a, id) <==> CallsFor(b, id)
    ensures RespondsTo(a, id) <==> RespondsTo(b, id)
  {
  }

  lemma SameShapeAsked(a: seq<Content>, b: seq<Content>)
    requires SameShape(a, b) && AllAsked(a)
    ensures AllAsked(b)
    ensures forall id :: CalledBefore(a, |a|, id) ==> CalledBefore(b, |b|, id)
  {
    forall k, id | 0 <= k < |a|
      ensures (CallsFor(a[k], id) <==> CallsFor(b[k], id)) && (RespondsTo(a[k], id) <==> RespondsTo(b[k], id))
    {
      SamePartsSame(a[k], b[k], id);
    }
    forall k, id | 0 <= k < |b| && RespondsTo(b[k], id) ensures CalledBefore(b, k, id) {
      assert CalledBefore(a, k, id);
    }
  }

  /** Projecting arguments keeps every call and result in place, and needs the call to be there. */
  lemma {:induction false} ProjectKeepsShape(host: Host, conversation: seq<Content>, call: PendingCall)
    requires Project(host, conversation, call).Some?
    ensures SameShape(conversation, Project(host, conversation, call).value)
    ensures CalledBefore(conversation, |conversation|, call.id)
  {
    var front, last := conversation[..|conversation| - 1], conversation[|conversation| - 1];
    FindCallPartIff(last.parts, call.id);
    if FindCallPart(last.parts, call.id).None? {
      ProjectKeepsShape(host, front, call);
      assert conversation == front + [last];
      CalledGrows(front, [last], call.id);
    } else {
      assert CallsFor(conversation[|conversation| - 1], call.id);
    }
  }

  // ---- Runs ----

  /** The transcript is in order, and where it is kept the open calls are in it. */
  ghost predicate InStep(g: Setting, s: LoopState) {
    AllAsked(s.conversation) && (g.raw ==> PendingCalled(s))
  }

  /** Requests answer only what they ask themselves, and models answer nothing. */
  ghost predicate Answering(e: Event) {
    match e
    case Before(contents) => AllAsked(contents)
    case Model(content, _) => !HasResponse(content)
    case _ => true
  }

  lemma BeforeInStep(g: Setting, s: LoopState, contents: seq<Content>)
    requires InStep(g, s) && AllAsked(contents)
    ensures InStep(g, BeforeModel(s, contents).0)
  {
    if s.conversation != [] && s.conversationReconstructed {
      AskedJoins(contents, s.conversation);
      forall c | c in s.pendingCalls && g.raw
        ensures CalledBefore(contents + s.conversation, |contents + s.conversation|, c.id)
      {
        var i :| 0 <= i < |s.conversation| && CallsFor(s.conversation[i], c.id);
        assert (contents + s.conversation)[|contents| + i] == s.conversation[i];
      }
    }
  }

  lemma {:induction false} AdmittedAreCalled(host: Host, allowed: set<string>, s: LoopState, parts: seq<Part>)
    requires AdmitParts(host, allowed, s, parts).Ok?
    ensures var t := AdmitParts(host, allowed, s, parts).value;
      && t.conversation == s.conversation
      && forall c <- t.pendingCalls :: c in s.pendingCalls || CallsFor(C.Content("", parts), c.id)
  {
    if parts != [] {
      var front, last := parts[..|parts| - 1], parts[|parts| - 1];
      AdmittedAreCalled(host, allowed, s, front);
      var before, t := AdmitParts(host, allowed, s, front).value, AdmitParts(host, allowed, s, parts).value;
      forall c | c in t.pendingCalls ensures c in s.pendingCalls || CallsFor(C.Content("", parts), c.id) {
        if c in before.pendingCalls {
          if CallsFor(C.Content("", front), c.id) {
            var j :| 0 <= j < |front| && front[j].FunctionCall? && front[j].id == Some(c.id);
            assert parts[j].FunctionCall? && parts[j].id == Some(c.id);
          }
        } else {
          assert parts[|parts| - 1].FunctionCall? && parts[|parts| - 1].id == Some(c.id);
        }
      }
    }
  }

  lemma ModelInStep(g: Setting, s: LoopState, content: Content, interactionId: Option<string>)
    requires InStep(g, s) && !HasResponse(content)
    requires ModelTurn(g.host, g.allowed, s, content, interactionId).Ok?
    ensures InStep(g, ModelTurn(g.host, g.allowed, s, content, interactionId).value)
  {
    var t := ModelTurn(g.host, g.allowed, s, content, interactionId).value;
    AdmittedAreCalled(g.host, g.allowed, s, content.parts);
    AskedSnoc(s.conversation, content);
    forall c | c in t.pendingCalls && g.raw ensures CalledBefore(t.conversation, |t.conversation|, c.id) {
      if c in s.pendingCalls {
        CalledGrows(s.conversation, [content], c.id);
      } else {
        PartsOnly(content, C.Content("", content.parts), c.id);
        assert CallsFor(t.conversation[|s.conversation|], c.id);
      }
    }
  }

  lemma PartsOnly(a: Content, b: Content, id: string)
    requires a.parts == b.parts
    ensures CallsFor(a, id) <==> CallsFor(b, id)
  {
  }

  /** A result behind its call, one open call fewer. */
  lemma AnswerInStep(g: Setting, s: LoopState, i: nat, conversation: seq<Content>, response: Json, t: LoopState)
    requires InStep(g, s) && i < |s.pendingCalls| && t.pendingCalls == Without(s.pendingCalls, i)
    requires AllAsked(conversation) && CalledBefore(conversation, |conversation|, s.pendingCalls[i].id)
    requires forall id :: CalledBefore(s.conversation, |s.conversation|, id) ==> CalledBefore(conversation, |conversation|, id)
    requires t.conversation == conversation + [ToolResponseContent(s.pendingCalls[i], response)]
    ensures InStep(g, t)
  {
    var c := ToolResponseContent(s.pendingCalls[i], response);
    ResponseContentResponds(s.pendingCalls[i], response);
    AskedSnoc(conversation, c);
    forall call | call in t.pendingCalls && g.raw ensures CalledBefore(t.conversation, |t.conversation|, call.id) {
      assert call in s.pendingCalls;
      CalledGrows(conversation, [c], call.id);
    }
  }

  lemma ToolInStep(g: Setting, s: LoopState, persisted: LoopState, name: string, input: Json, response: Json)
    requires InStep(g, s) && ToolDone(g.host, g.raw, s, persisted, name, input, response).Ok?
    ensures InStep(g, ToolDone(g.host, g.raw, s, persisted, name, input, response).value)
  {
    var t := ToolDone(g.host, g.raw, s, persisted, name, input, response).value;
    var i := Position(s.pendingCalls, name, g.host.fingerprint(input)).value;
    assert s.pendingCalls[i] in s.pendingCalls;
    if g.raw {
      AnswerInStep(g, s, i, s.conversation, response, t);
    } else {
      var projected := Project(g.host, s.conversation, s.pendingCalls[i]).value;
      ProjectKeepsShape(g.host, s.conversation, s.pendingCalls[i]);
      SameShapeAsked(s.conversation, projected);
      AnswerInStep(g, s, i, projected, response, t);
    }
  }

  lemma ReplayInStep(g: Setting, s: LoopState, otherBytes: nat, call: PendingCall, response: Json, limit: nat)
    requires InStep(g, s) && CompletePending(g.host, s, otherBytes, call, response, limit).1.None?
    ensures InStep(g, CompletePending(g.host, s, otherBytes, call, response, limit).0)
  {
    var t := CompletePending(g.host, s, otherBytes, call, response, limit).0;
    var i := ReplayAnswers(g.host, s, otherBytes, call, response, limit);
    var pending := s.pendingCalls[i];
    MentionsIff(s.conversation, pending.id);
    var called := if MentionsCall(s.conversation, pending.id) then s.conversation
                  else s.conversation + [ToolCallContent(pending)];
    if !MentionsCall(s.conversation, pending.id) {
      CallContentCalls(pending);
      AskedSnoc(s.conversation, ToolCallContent(pending));
      assert CallsFor(called[|s.conversation|], pending.id);
      forall id | CalledBefore(s.conversation, |s.conversation|, id) ensures CalledBefore(called, |called|, id) {
        CalledGrows(s.conversation, [ToolCallContent(pending)], id);
      }
    }
    AnswerInStep(g, s, i, called, response, t);
  }

  // ---- A restored turn ----

  lemma RestoredCallIsThere(s: LoopState, completed: seq<(CompletedCall, Json)>, i: nat)
    requires completed != [] && i < |completed|
    ensures exists k :: 0 <= k < |TurnCalls(s, completed)| && TurnCalls(s, completed)[k] == completed[i].0.call
  {
    var input := TurnInput(s, completed);
    SortKeeps(input);
    assert input[i] == completed[i].0.call;
    assert completed[i].0.call in multiset(input);
    assert completed[i].0.call in TurnCalls(s, completed);
  }

  /** The contents a restored turn appends: all calls of the turn with their own arguments, then each
      completed call's own result, in the order given. */
  lemma TurnContentsAre(s: LoopState, completed: seq<(CompletedCall, Json)>, i: nat, k: nat)
    requires completed != [] && i < |completed| && k < |TurnCalls(s, completed)|
    ensures var contents, calls := TurnContents(s, completed), TurnCalls(s, completed);
      && |contents| == |calls| + |completed|
      && contents[k] == C.Content("model", [C.FunctionCall(calls[k].name, calls[k].args, Some(calls[k].id), None)])
      && contents[|calls| + i] == C.Content("function",
           [C.FunctionResponse(C.FunctionResponseData(completed[i].0.call.name, completed[i].1, [], []),
                               Some(completed[i].0.call.id), None)])
      && CalledBefore(contents, |calls| + i, completed[i].0.call.id)
  {
    var contents, calls := TurnContents(s, completed), TurnCalls(s, completed);
    RestoredCallIsThere(s, completed, i);
    var at :| 0 <= at < |calls| && calls[at] == completed[i].0.call;
    CallContentCalls(calls[at]);
    assert contents[at] == ToolCallContent(calls[at]);
  }

  lemma InTurnInput(s: LoopState, completed: seq<(CompletedCall, Json)>, call: PendingCall)
    requires completed != []
    ensures call in TurnInput(s, completed) <==>
      || (exists i :: 0 <= i < |completed| && completed[i].0.call == call)
      || call in OfIteration(s.pendingCalls, completed[0].0.call.modelIteration)
  {
    var input, open := TurnInput(s, completed), OfIteration(s.pendingCalls, completed[0].0.call.modelIteration);
    assert forall k :: 0 <= k < |completed| ==> input[k] == completed[k].0.call;
    assert forall k :: 0 <= k < |open| ==> input[|completed| + k] == open[k];
    assert forall k :: |completed| <= k < |input| ==> input[k] == open[k - |completed|];
  }

  lemma SortMembers(calls: seq<PendingCall>, call: PendingCall)
    ensures call in SortByOrdinal(calls) <==> call in calls
  {
    SortKeeps(calls);
    assert call in SortByOrdinal(calls) <==> call in multiset(SortByOrdinal(calls));
  }

  /** The calls of the turn are those completed and those of the same iteration still open. */
  lemma TurnCallsAre(s: LoopState, completed: seq<(CompletedCall, Json)>, call: PendingCall)
    requires completed != []
    ensures call in TurnCalls(s, completed) <==>
      || (exists i :: 0 <= i < |completed| && completed[i].0.call == call)
      || (call in s.pendingCalls && call.modelIteration == completed[0].0.call.modelIteration)
  {
    SortMembers(TurnInput(s, completed), call);
    InTurnInput(s, completed, call);
    OfIterationIff(s.pendingCalls, completed[0].0.call.modelIteration, call);
  }

  lemma {:induction false} OfIterationIff(pending: seq<PendingCall>, iteration: nat, call: PendingCall)
    ensures call in OfIteration(pending, iteration) <==> call in pending && call.modelIteration == iteration
  {
    if pending != [] {
      OfIterationIff(pending[1..], iteration, call);
      assert pending == [pending[0]] + pending[1..];
    }
  }

  lemma TurnContentsAsked(s: LoopState, completed: seq<(CompletedCall, Json)>)
    requires completed != []
    ensures AllAsked(TurnContents(s, completed))
  {
    var contents, calls := TurnContents(s, completed), TurnCalls(s, completed);
    forall k, id | 0 <= k < |contents| && RespondsTo(contents[k], id) ensures CalledBefore(contents, k, id) {
      if k < |calls| {
        CallContentCalls(calls[k]);
      } else {
        var i := k - |calls|;
        RestoredCallIsThere(s, completed, i);
        TurnContentsAre(s, completed, i, 0);
        ResponseContentResponds(completed[i].0.call, completed[i].1);
      }
    }
  }

  lemma RestoreInStep(g: Setting, s: LoopState, completed: seq<(CompletedCall, Json)>)
    requires InStep(g, s) && RestoreTurn(s, completed).Ok?
    ensures InStep(g, RestoreTurn(s, completed).value)
  {
    var t := RestoreTurn(s, completed).value;
    TurnContentsAsked(s, completed);
    AskedJoins(s.conversation, TurnContents(s, completed));
    forall c | c in t.pendingCalls && g.raw ensures CalledBefore(t.conversation, |t.conversation|, c.id) {
      CalledGrows(s.conversation, TurnContents(s, completed), c.id);
    }
  }

  // ---- Every step ----

  lemma RecordsInStep(g: Setting, s: LoopState, t: LoopState)
    requires InStep(g, s) && t.conversation == s.conversation && t.pendingCalls == s.pendingCalls
    ensures InStep(g, t)
  {
  }

  lemma StepInStep(g: Setting, sys: System, e: Event, next: System)
    requires InStep(g, sys.controller) && InStep(g, sys.ledger) && Answering(e) && Step(g, sys, e) == Some(next)
    ensures InStep(g, next.controller) && InStep(g, next.ledger)
  {
    match e {
      case Before(contents) => BeforeInStep(g, sys.controller, contents);
      case Model(content, interactionId) => ModelInStep(g, sys.controller, content, interactionId);
      case Tool(name, input, response) => ToolInStep(g, sys.controller, sys.ledger, name, input, response);
      case Replay(call, result, otherBytes) =>
        ReplayInStep(g, sys.ledger, otherBytes, call, result, g.limits.maxToolOutputBytes);
      case Restore(completed) => RestoreInStep(g, sys.controller, completed);
      case _ => RecordsInStep(g, sys.ledger, next.ledger);
    }
  }

  /** In every run, from a fresh node or from what a resume reads back, with or without transcripts on
      disk: each tool result in the transcript of controller and ledger has its call before it. */
  lemma RunsAnswerWhatWasAsked(g: Setting, events: seq<Event>, states: seq<System>, n: nat)
    requires IsRun(g, events, states) && n < |states|
    requires InStep(g, states[0].controller) && InStep(g, states[0].ledger)
    requires forall i :: 0 <= i < n ==> Answering(events[i])
    ensures AllAsked(states[n].controller.conversation) && AllAsked(states[n].ledger.conversation)
    ensures InStep(g, states[n].controller) && InStep(g, states[n].ledger)
  {
    for i := 0 to n
      invariant InStep(g, states[i].controller) && InStep(g, states[i].ledger)
    {
      StepInStep(g, states[i], events[i], states[i + 1]);
    }
  }

  /** Where such a run may start. */
  lemma MayStartInStep(g: Setting, s: LoopState)
    ensures InStep(g, FRESH) && !FRESH.conversationReconstructed
    ensures !g.raw && s.conversation == [] ==> InStep(g, s)
  {
  }
  // ---- Which transcripts wait for their request ----

  /** A transcript put together from the ledger is one. */
  predicate FlagInPlace(s: LoopState) {
    s.conversationReconstructed ==> s.conversation != []
  }

  predicate FlagMoved(s: LoopState, e: Event, t: LoopState) {
    FlagInPlace(t) && (t.conversationReconstructed <==> e.Restore? || (s.conversationReconstructed && !e.Before?))
  }

  lemma AnswerKeepsFlag(g: Setting, s: LoopState, persisted: LoopState, e: Event)
    requires FlagInPlace(s) && e.Tool? && ToolDone(g.host, g.raw, s, persisted, e.name, e.input, e.response).Ok?
    ensures FlagMoved(s, e, ToolDone(g.host, g.raw, s, persisted, e.name, e.input, e.response).value)
  {
    var i := ToolDoneAnswers(g.host, g.raw, s, persisted, e.name, e.input, e.response);
  }

  lemma ReplayKeepsFlag(g: Setting, s: LoopState, e: Event, limit: nat)
    requires FlagInPlace(s) && e.Replay? && CompletePending(g.host, s, e.otherBytes, e.call, e.result, limit).1.None?
    ensures FlagMoved(s, e, CompletePending(g.host, s, e.otherBytes, e.call, e.result, limit).0)
  {
    var i := ReplayAnswers(g.host, s, e.otherBytes, e.call, e.result, limit);
  }

  lemma FlagMoves(g: Setting, sys: System, e: Event, next: System)
    requires FlagInPlace(sys.controller) && Step(g, sys, e) == Some(next)
    ensures FlagMoved(sys.controller, e, next.controller)
  {
    match e {
      case Model(content, interactionId) => TurnFrame(g.host, g.allowed, sys.controller, content, interactionId);
      case Tool(_, _, _) => AnswerKeepsFlag(g, sys.controller, sys.ledger, e);
      case Replay(_, _, _) => ReplayKeepsFlag(g, sys.ledger, e, g.limits.maxToolOutputBytes);
      case Restore(completed) => TurnContentsAre(sys.controller, completed, 0, 0);
      case _ =>
    }
  }

  /** Over every run, the transcript is put behind the next request exactly when a turn has been
      restored since the last one: never lost, and never repeated. */
  lemma {:induction false} ReconstructedIff(g: Setting, events: seq<Event>, states: seq<System>, n: nat)
    requires IsRun(g, events, states) && n < |states| && !states[0].controller.conversationReconstructed
    ensures FlagInPlace(states[n].controller)
    ensures states[n].controller.conversationReconstructed <==>
      exists i :: 0 <= i < n && events[i].Restore? && forall j :: i < j < n ==> !events[j].Before?
  {
    if n > 0 {
      ReconstructedIff(g, events, states, n - 1);
      FlagMoves(g, states[n - 1], events[n - 1], states[n]);
      RestoredMore(events, n);
    }
  }

  lemma RestoredMore(events: seq<Event>, n: nat)
    requires 0 < n <= |events|
    ensures (exists i :: 0 <= i < n && events[i].Restore? && forall j :: i < j < n ==> !events[j].Before?) <==>
      || events[n - 1].Restore?
      || (!events[n - 1].Before?
          && exists i :: 0 <= i < n - 1 && events[i].Restore? && forall j :: i < j < n - 1 ==> !events[j].Before?)
  {
    if i :| 0 <= i < n - 1 && events[i].Restore? && forall j :: i < j < n - 1 ==> !events[j].Before? {
      if !events[n - 1].Before? {
        assert forall j :: i < j < n ==> !events[j].Before?;
      }
    }
  }
}
