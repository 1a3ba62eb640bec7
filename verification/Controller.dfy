/** `LoopController`: the callbacks around one agent's model and tool calls, updating the
    controller's copy of the loop state and the ledger's. */
module Controller {
  import opened Prelude
  import opened Json
  import opened LoopStates
  import opened LoopValidation
  import opened Redaction
  import opened LoopControl
  import opened LoopBookkeeping
  import opened LoopFinish
  import opened LoopSystem
  import opened Limits
  import C = Content
  import F = Fleet
  import opened Ledger

  /** What the controllers of a run share: why it ended, and that it should stop. */
  class RunStatus {
    var terminal: Option<Failure>
    var cancelled: bool

    constructor ()
      ensures terminal == None && !cancelled
    {
      terminal, cancelled := None, false;
    }

    /** The first reason stays, but a tool's failure gives way to its time limit. */
    method Fail(kind: Failure)
      modifies this
      ensures cancelled
      ensures terminal ==
        if old(terminal).None? || (old(terminal) == Some(ToolFailed) && kind == ToolTimeLimit) then Some(kind)
        else old(terminal)
    {
      if terminal.None? || (terminal == Some(ToolFailed) && kind == ToolTimeLimit) {
        terminal := Some(kind);
      }
      cancelled := true;
    }
  }

  lemma {:induction false} AdmissionRefused(host: Host, allowed: set<string>, s: LoopState, parts: seq<Part>, k: nat)
    requires k <= |parts| && AdmitParts(host, allowed, s, parts[..k]).Err?
    ensures AdmitParts(host, allowed, s, parts) == AdmitParts(host, allowed, s, parts[..k])
    decreases |parts| - k
  {
    if k == |parts| {
      assert parts[..k] == parts;
    } else {
      assert parts[..k + 1][..k] == parts[..k];
      AdmissionRefused(host, allowed, s, parts, k + 1);
    }
  }

  /** The loop over the parts of a model response. */
  method AdmitAll(host: Host, allowed: set<string>, s: LoopState, parts: seq<Part>)
    returns (r: Result<LoopState, Failure>)
    ensures r == AdmitParts(host, allowed, s, parts)
  {
    var next := s;
    for j := 0 to |parts|
      invariant AdmitParts(host, allowed, s, parts[..j]) == Ok(next)
    {
      assert parts[..j + 1][..j] == parts[..j];
      assert AdmitParts(host, allowed, s, parts[..j + 1]) == AdmitPart(host, allowed, next, parts[j]);
      match parts[j] {
        case FunctionCall(name, args, id, _) =>
          var refused := None;
          if id.None? || id.value == "" {
            refused := Some(MissingId);
          } else if name !in allowed {
            refused := Some(UnknownTool);
          } else if !args.Obj? {
            refused := Some(MalformedTool);
          } else if id.value in next.seenIds || (name, host.fingerprint(args)) in next.seenCalls {
            refused := Some(NonProgress);
          }
          if refused.Some? {
            AdmissionRefused(host, allowed, s, parts, j + 1);
            return Err(refused.value);
          }
          var fingerprint := host.fingerprint(args);
          next := next.(seenIds := next.seenIds + {id.value}, seenCalls := next.seenCalls + {(name, fingerprint)});
          next := next.(totalToolCalls := SaturatingAdd(next.totalToolCalls, 1));
          next := next.(toolCalls := next.toolCalls[name := CountOf(next.toolCalls, name) + 1]);
          next := next.(pendingCalls := next.pendingCalls +
                          [PendingCall(id.value, name, args, fingerprint, next.modelIterations + 1,
                                       next.totalToolCalls, None)]);
        case _ =>
      }
    }
    assert parts[..|parts|] == parts;
    r := Ok(next);
  }

  method FindPosition(pending: seq<PendingCall>, name: string, fingerprint: string) returns (i: Option<nat>)
    ensures i == Position(pending, name, fingerprint)
  {
    for k := 0 to |pending|
      invariant Position(pending, name, fingerprint) ==
        match Position(pending[k..], name, fingerprint) case None => None case Some(j) => Some(j + k)
    {
      if pending[k].name == name && pending[k].fingerprint == fingerprint {
        return Some(k);
      }
      assert pending[k..][1..] == pending[k + 1..];
    }
    i := None;
  }

  // ---- The durable arguments put into the transcript ----

  method FindLastCall(parts: seq<Part>, id: string) returns (j: Option<nat>)
    ensures j == FindCallPart(parts, id)
  {
    var k := |parts|;
    assert parts[..k] == parts;
    while k > 0
      invariant k <= |parts| && FindCallPart(parts, id) == FindCallPart(parts[..k], id)
    {
      k := k - 1;
      assert parts[..k + 1][..k] == parts[..k];
      if parts[k].FunctionCall? && parts[k].id == Some(id) {
        return Some(k);
      }
    }
    j := None;
  }

  /** The transcript with its contents from `k` on put back after what `p` has in front. */
  function WithRest(p: Option<seq<Content>>, conversation: seq<Content>, k: nat): Option<seq<Content>>
    requires k <= |conversation|
  {
    match p case None => None case Some(front) => Some(front + conversation[k..])
  }

  lemma NoRest(p: Option<seq<Content>>, conversation: seq<Content>)
    ensures WithRest(p, conversation, |conversation|) == p
  {
    if p.Some? {
      assert p.value + conversation[|conversation|..] == p.value;
    }
  }

  /** Contents after the admitting one stay as they are. */
  lemma ProjectStep(host: Host, conversation: seq<Content>, k: nat, call: PendingCall)
    requires k < |conversation| && FindCallPart(conversation[k].parts, call.id).None?
    ensures WithRest(Project(host, conversation[..k + 1], call), conversation, k + 1) ==
      WithRest(Project(host, conversation[..k], call), conversation, k)
  {
    assert conversation[..k + 1][..k] == conversation[..k];
    var front := Project(host, conversation[..k], call);
    if front.Some? {
      assert front.value + [conversation[k]] + conversation[k + 1..] == front.value + conversation[k..];
    }
  }

  /** The content of the call with its arguments in durable form, when they are the admitted ones. */
  function ProjectPart(host: Host, content: Content, j: nat, call: PendingCall): Option<Content>
    requires j < |content.parts| && content.parts[j].FunctionCall?
  {
    var part := content.parts[j];
    if part.name != call.name || host.fingerprint(part.args) != call.fingerprint || DurableArgs(call).None? then None
    else Some(content.(parts := content.parts[j := part.(args := DurableArgs(call).value)]))
  }

  lemma ProjectFound(host: Host, conversation: seq<Content>, k: nat, j: nat, call: PendingCall)
    requires k < |conversation| && FindCallPart(conversation[k].parts, call.id) == Some(j)
    ensures WithRest(Project(host, conversation[..k + 1], call), conversation, k + 1) ==
      match ProjectPart(host, conversation[k], j, call)
      case None => None
      case Some(projected) => Some(conversation[k := projected])
  {
    assert conversation[..k + 1][..k] == conversation[..k];
    var projected := ProjectPart(host, conversation[k], j, call);
    if projected.Some? {
      assert conversation[..k] + [projected.value] + conversation[k + 1..] == conversation[k := projected.value];
    }
  }

  method ProjectTranscript(host: Host, conversation: seq<Content>, call: PendingCall) returns (r: Option<seq<Content>>)
    ensures r == Project(host, conversation, call)
  {
    var k := |conversation|;
    assert conversation[..k] == conversation;
    NoRest(Project(host, conversation, call), conversation);
    while k > 0
      invariant k <= |conversation|
      invariant Project(host, conversation, call) == WithRest(Project(host, conversation[..k], call), conversation, k)
    {
      k := k - 1;
      var content := conversation[k];
      var j := FindLastCall(content.parts, call.id);
      if j.Some? {
        ProjectFound(host, conversation, k, j.value, call);
        var part := content.parts[j.value];
        if part.name != call.name || host.fingerprint(part.args) != call.fingerprint || DurableArgs(call).None? {
          return None;
        }
        return Some(conversation[k := content.(parts := content.parts[j.value := part.(args := DurableArgs(call).value)])]);
      }
      ProjectStep(host, conversation, k, call);
    }
    r := None;
  }

  /** The call leaves the queue for the completed calls, with its bytes, skill records and
      response. */
  method MoveCall(host: Host, s: LoopState, i: nat, response: Json, skill: Option<SkillRecords>,
                  conversation: Option<seq<Content>>)
    returns (r: Result<LoopState, Failure>)
    requires i < |s.pendingCalls|
    ensures r == Answer(host, s, i, response, skill, conversation)
  {
    if skill.None? || conversation.None? {
      return Err(ToolFailed);
    }
    var call := s.pendingCalls[i];
    var next := s.(toolOutputBytes := SaturatingAdd(s.toolOutputBytes, host.size(response)));
    next := next.(pendingCalls := next.pendingCalls[..i] + next.pendingCalls[i + 1..]);
    next := next.(activatedSkills := skill.value.activated, skillReadBytes := skill.value.charged,
                  skillReservations := skill.value.reserved);
    next := next.(completedCalls := next.completedCalls + [Completed(call, response)],
                  conversation := conversation.value + [ToolResponseContent(call, response)]);
    r := Ok(next);
  }

  // ---- The controller ----

  class LoopController {
    const host: Host
    const limits: RunLimits
    const node: string
    const ledger: LoopLedgerStore
    const status: RunStatus
    var state: LoopState

    constructor (host: Host, limits: RunLimits, node: string, ledger: LoopLedgerStore, status: RunStatus)
      ensures this.host == host && this.limits == limits && this.node == node
      ensures this.ledger == ledger && this.status == status
      ensures state == F.Snapshot(ledger.nodes, node)
    {
      this.host, this.limits, this.node, this.ledger, this.status := host, limits, node, ledger, status;
      state := if node in ledger.nodes then ledger.nodes[node] else FRESH;
    }

    function Setup(allowed: set<string>): Setting
      reads this
    {
      Setting(host, limits, allowed, ledger.raw)
    }

    /** Calls whose redacted form can be made when it is needed. */
    predicate Ready()
      reads this, ledger`nodes
    {
      CompletedsDurable(ledger.nodes) && Redactable(state)
    }

    lemma ReadyToStore(s: LoopState)
      requires CompletedsDurable(ledger.nodes) && forall c <- s.completedCalls :: DurableArgs(c.call).Some?
      ensures CompletedsDurable(ledger.nodes[node := s])
    {
    }

    /** Nothing but the run's status has changed. */
    twostate predicate Untouched()
      reads this, ledger
    {
      unchanged(this) && unchanged(ledger)
    }

    /** What goes to the model: the first request as it is, then the transcript kept so far - behind the
        new request when it was put together from a ledger. */
    predicate Sends(before: LoopState, contents: seq<Content>, sent: seq<Content>, after: LoopState) {
      && sent == after.conversation
      && if before.conversation == [] then sent == contents
         else if before.conversationReconstructed then
           && contents <= sent && sent[|contents|..] == before.conversation && !after.conversationReconstructed
         else sent == before.conversation
    }

    /** `before_model`: the contents to send, or why not.  The first request of a loop becomes its
        transcript; a reconstructed transcript follows the request it was made for. */
    method BeforeModel(contents: seq<Content>, io: Io) returns (r: Result<seq<Content>, Failure>)
      requires Ready()
      modifies this`state, ledger`nodes, ledger`disk, ledger`durable, status
      ensures if old(status.cancelled) then r == Err(Cancelled) && Untouched()
              else if old(state).modelIterations >= limits.maxModelTurns then r == Err(ModelIterationsLimit) && Untouched()
              else
                var c := F.NodeStep(Setup({}), old(ledger.nodes), node, old(state), Before(contents));
                && c.Some? && state == c.value.controller
                && (if c.value.stored.None? then
                      r == Ok(LoopControl.BeforeModel(old(state), contents).1) && unchanged(ledger)
                    else
                      && ledger.nodes == old(ledger.nodes)[node := state]
                      && CompletedsDurable(ledger.nodes)
                      && ledger.PersistedAs(ledger.nodes, io, old(ledger.disk), old(ledger.durable),
                                            Effect(ledger.disk, ledger.durable, r.Ok?))
                      && r == if r.Ok? then Ok(contents) else Err(Persistence))
      ensures r.Ok? ==> Sends(old(state), contents, r.value, state)
      ensures r.Ok? ==> unchanged(status)
    {
      if status.cancelled {
        status.Fail(Cancelled);
        return Err(Cancelled);
      }
      if state.modelIterations >= limits.maxModelTurns {
        status.Fail(ModelIterationsLimit);
        return Err(ModelIterationsLimit);
      }
      if state.conversation == [] {
        state := state.(conversation := contents);
        ReadyToStore(state);
        var ok := ledger.Replace(node, state, io);
        if !ok {
          status.Fail(Persistence);
          return Err(Persistence);
        }
        return Ok(contents);
      }
      if state.conversationReconstructed {
        state := state.(conversation := contents + state.conversation, conversationReconstructed := false);
      }
      assert state == state.(conversationReconstructed := false);
      r := Ok(state.conversation);
    }

    /** The candidate state of a model turn. */
    method TakeTurn(content: Content, interactionId: Option<string>, allowed: set<string>)
      returns (r: Result<LoopState, Failure>)
      ensures r == ModelTurn(host, allowed, state, content, interactionId)
    {
      var finish := AdmittedFinish(host, content);
      if finish.Err? {
        return Err(InvalidOutput);
      }
      var admitted := AdmitAll(host, allowed, state, content.parts);
      if admitted.Err? {
        return Err(admitted.error);
      }
      var next := admitted.value;
      next := next.(finishAdmitted := finish.value.Some?, finishSuccessor := finish.value, finishedOutput := finish.value);
      next := next.(modelIterations := next.modelIterations + 1);
      next := next.(conversation := next.conversation + [content], previousResponseId := interactionId);
      ConversationKept(host, allowed, state, content.parts);
      r := Ok(next);
    }

    /** The loop has the output of the response, if that was a finish message, and goes on if it asked
        for tools. */
    ghost predicate EndsWith(s: LoopState, content: Content) {
      && (s.finishedOutput.None? <==> AsksForTools(host, content))
      && (forall output :: s.finishedOutput == Some(output) <==> Finishes(host, content, output))
      && s.finishAdmitted == s.finishedOutput.Some? && s.finishSuccessor == s.finishedOutput
    }

    lemma TurnEndsWith(allowed: set<string>, s: LoopState, content: Content, interactionId: Option<string>)
      ensures var turn := ModelTurn(host, allowed, s, content, interactionId);
        if turn.Ok? then EndsWith(turn.value, content) && !SaysNeither(host, content)
        else SaysNeither(host, content) ==> turn.error == InvalidOutput
    {
      RefusedIff(host, content);
      AsksIff(host, content);
      forall output { FinishIff(host, content, output); }
    }

    /** `observe_model`: all or nothing.  An accepted response becomes one step of the node in the
        fleet; a refused one leaves both copies alone; a failed persist leaves the store ahead of
        controller and disk. */
    method ObserveModel(content: Option<Content>, interactionId: Option<string>, allowed: set<string>, idle: bool, io: Io)
      returns (r: Option<Failure>)
      requires Ready()
      modifies this`state, ledger`nodes, ledger`disk, ledger`durable, status
      ensures content.None? ==> r == Some(InvalidOutput) && Untouched()
      ensures content.Some? && idle ==> r == Some(IdleTimeLimit) && Untouched()
      ensures content.Some? && !idle ==>
        match ModelTurn(host, allowed, old(state), content.value, interactionId)
        case Err(e) => r == Some(e) && Untouched()
        case Ok(next) =>
          var verdict := CallVerdict(Counted(old(ledger.nodes), node, next), limits.maxToolCalls, limits.maxCallsPerTool);
          if verdict.Some? then r == verdict && Untouched()
          else
            && (old(state).modelIterations < limits.maxModelTurns ==>
                  F.NodeStep(Setup(allowed), old(ledger.nodes), node, old(state), Model(content.value, interactionId))
                    == Some(F.Both(next)))
            && ledger.nodes == old(ledger.nodes)[node := next] && CompletedsDurable(ledger.nodes)
            && ledger.PersistedAs(ledger.nodes, io, old(ledger.disk), old(ledger.durable),
                                  Effect(ledger.disk, ledger.durable, r.None?))
            && (if r.None? then state == next else r == Some(Persistence) && state == old(state))
      ensures content.Some? && !idle && SaysNeither(host, content.value) ==> r == Some(InvalidOutput)
      ensures content.Some? && r.None? ==> EndsWith(state, content.value)
      ensures r.None? || r == Some(MissingId) ==> unchanged(status)
    {
      if content.None? {
        status.Fail(InvalidOutput);
        return Some(InvalidOutput);
      }
      if idle {
        status.Fail(IdleTimeLimit);
        return Some(IdleTimeLimit);
      }
      TurnEndsWith(allowed, state, content.value, interactionId);
      var candidate := TakeTurn(content.value, interactionId, allowed);
      if candidate.Err? {
        if candidate.error != MissingId {
          status.Fail(candidate.error);
        }
        return Some(candidate.error);
      }
      var next := candidate.value;
      TurnFrame(host, allowed, state, content.value, interactionId);
      AcceptedTurn(Setup(allowed), ledger.nodes, node, state, content.value, interactionId, next);
      ReadyToStore(next);
      var checked := ledger.ToolCallLimit(node, next, limits, io);
      if checked.Err? {
        status.Fail(Persistence);
        return Some(Persistence);
      }
      if checked.value.Some? {
        status.Fail(checked.value.value);
        return checked.value;
      }
      state := next;
      r := None;
    }

    /** The answer of one open call with this name and input: the call is closed and kept with the
        response, its result is the last thing in the transcript, and a skill is activated if that was
        asked for. */
    predicate TookAnswer(before: LoopState, name: string, input: Json, response: Json, after: LoopState) {
      && (exists i :: 0 <= i < |before.pendingCalls| && ClosesCall(before, before.pendingCalls[i], name, input, response, after)
            && after.pendingCalls == before.pendingCalls[..i] + before.pendingCalls[i + 1..])
      && (if name == ACTIVATE then
            && input.Get("skill_id").Some? && input.Get("skill_id").value.Str?
            && after.activatedSkills == before.activatedSkills + {input.Get("skill_id").value.s}
          else after.activatedSkills == before.activatedSkills)
    }

    predicate ClosesCall(before: LoopState, call: PendingCall, name: string, input: Json, response: Json, after: LoopState) {
      && call.name == name && call.fingerprint == host.fingerprint(input)
      && after.completedCalls ==
           before.completedCalls + [if name == ACTIVATE || name == READ || name == SCRIPT then SkillCall(call.(response := Some(response)))
                                     else OrdinaryCall(call.(response := Some(response)))]
      && after.conversation != []
      && after.conversation[|after.conversation| - 1] == C.Content("function",
           [C.FunctionResponse(C.FunctionResponseData(name, response, [], []), Some(call.id), None)])
    }

    lemma AnswerTaken(before: LoopState, persisted: LoopState, raw: bool, name: string, input: Json, response: Json)
      requires ToolDone(host, raw, before, persisted, name, input, response).Ok?
      ensures TookAnswer(before, name, input, response, ToolDone(host, raw, before, persisted, name, input, response).value)
    {
      var i := Position(before.pendingCalls, name, host.fingerprint(input)).value;
      var after := ToolDone(host, raw, before, persisted, name, input, response).value;
      assert ClosesCall(before, before.pendingCalls[i], name, input, response, after);
    }

    /** `observe_tool`, for a callback that carries the tool's name, input and outcome. */
    method ObserveTool(name: string, input: Json, response: Json, overTime: bool, success: bool, io: Io)
      returns (r: Option<Failure>)
      requires Ready()
      modifies this`state, ledger`nodes, ledger`disk, ledger`durable, status
      ensures overTime ==> r == Some(ToolTimeLimit) && Untouched()
      ensures !overTime && old(status.cancelled) ==> r == Some(Cancelled) && Untouched()
      ensures !overTime && !old(status.cancelled) && !success ==> r == Some(ToolFailed) && Untouched()
      ensures !overTime && !old(status.cancelled) && success ==>
        match ToolDone(host, ledger.raw, old(state), F.Snapshot(old(ledger.nodes), node), name, input, response)
        case Err(e) => r == Some(e) && Untouched()
        case Ok(next) =>
          if Min(Total(Counted(old(ledger.nodes), node, next), BYTES), U64_MAX) > limits.maxToolOutputBytes then
            r == Some(ToolOutputBytesLimit) && Untouched()
          else
            && F.NodeStep(Setup({}), old(ledger.nodes), node, old(state), Tool(name, input, response)) == Some(F.Both(next))
            && ledger.nodes == old(ledger.nodes)[node := next] && CompletedsDurable(ledger.nodes)
            && ledger.PersistedAs(ledger.nodes, io, old(ledger.disk), old(ledger.durable),
                                  Effect(ledger.disk, ledger.durable, r.None?))
            && (if r.None? then state == next else r == Some(Persistence) && state == old(state))
      ensures r.None? ==> TookAnswer(old(state), name, input, response, state)
      ensures r.None? ==> unchanged(status)
    {
      if overTime {
        status.Fail(ToolTimeLimit);
        return Some(ToolTimeLimit);
      }
      if status.cancelled {
        status.Fail(Cancelled);
        return Some(Cancelled);
      }
      if !success {
        status.Fail(ToolFailed);
        return Some(ToolFailed);
      }
      var done := AnswerCall(name, input, response);
      if done.Err? {
        status.Fail(done.error);
        return Some(done.error);
      }
      var next := done.value;
      CompletedStaysDurable(name, input, response);
      AcceptedResult(Setup({}), ledger.nodes, node, state, name, input, response, next);
      ReadyToStore(next);
      var checked := ledger.OutputByteLimit(node, next, limits.maxToolOutputBytes, io);
      if checked.Err? {
        status.Fail(Persistence);
        return Some(Persistence);
      }
      if checked.value {
        status.Fail(ToolOutputBytesLimit);
        return Some(ToolOutputBytesLimit);
      }
      state := next;
      r := None;
    }

    lemma CompletedStaysDurable(name: string, input: Json, response: Json)
      requires Redactable(state)
      requires ToolDone(host, ledger.raw, state, F.Snapshot(ledger.nodes, node), name, input, response).Ok?
      ensures var next := ToolDone(host, ledger.raw, state, F.Snapshot(ledger.nodes, node), name, input, response).value;
              forall c <- next.completedCalls :: DurableArgs(c.call).Some?
    {
      var i := Position(state.pendingCalls, name, host.fingerprint(input)).value;
      assert state.pendingCalls[i] in state.pendingCalls;
    }

    method UpdateSkill(name: string, input: Json, response: Json) returns (r: Option<SkillRecords>)
      ensures r == RecordSkill(state, F.Snapshot(ledger.nodes, node), name, host.fingerprint(input), input, response)
    {
      var records := SkillRecords(state.activatedSkills, state.skillReadBytes, state.skillReservations);
      if name == ACTIVATE {
        if !IsActivateInput(input) {
          return None;
        }
        records := records.(activated := records.activated + {SkillId(input)});
      }
      if name == READ {
        var fingerprint, page := host.fingerprint(input), PageByteLen(response);
        var persisted := ledger.Snapshot(node);
        if !IsReadInput(input) || page.None? || fingerprint !in persisted.skillReservations
           || persisted.skillReservations[fingerprint] != page.value {
          return None;
        }
        records := records.(charged := persisted.skillReadBytes,
                            reserved := persisted.skillReservations - {fingerprint});
      }
      r := Some(records);
    }

    /** The transcript so far, as it is kept once the call is answered. */
    method KeptTranscript(call: PendingCall) returns (r: Option<seq<Content>>)
      ensures r == if ledger.raw then Some(state.conversation) else Project(host, state.conversation, call)
    {
      if ledger.raw {
        r := Some(state.conversation);
      } else {
        r := ProjectTranscript(host, state.conversation, call);
      }
    }

    /** The candidate state with the call answered. */
    method AnswerCall(name: string, input: Json, response: Json) returns (r: Result<LoopState, Failure>)
      ensures r == ToolDone(host, ledger.raw, state, F.Snapshot(ledger.nodes, node), name, input, response)
      ensures r.Ok? ==> TookAnswer(state, name, input, response, r.value)
    {
      var i := FindPosition(state.pendingCalls, name, host.fingerprint(input));
      if i.None? {
        return Err(ToolFailed);
      }
      var call := state.pendingCalls[i.value];
      var skill := UpdateSkill(name, input, response);
      var conversation := KeptTranscript(call);
      r := MoveCall(host, state, i.value, response, skill, conversation);
      if r.Ok? {
        AnswerTaken(state, F.Snapshot(ledger.nodes, node), ledger.raw, name, input, response);
      }
    }
  }

  // ---- A callback that succeeds is a step of the fleet ----

  lemma AcceptedTurn(g: Setting, nodes: Nodes, node: string, s: LoopState,
                     content: Content, interactionId: Option<string>, next: LoopState)
    requires ModelTurn(g.host, g.allowed, s, content, interactionId) == Ok(next)
    ensures s.modelIterations < g.limits.maxModelTurns ==>
      CallVerdict(Counted(nodes, node, next), g.limits.maxToolCalls, g.limits.maxCallsPerTool).None? ==>
      F.NodeStep(g, nodes, node, s, Model(content, interactionId)) == Some(F.Both(next))
  {
  }

  lemma AcceptedResult(g: Setting, nodes: Nodes, node: string, s: LoopState,
                       name: string, input: Json, response: Json, next: LoopState)
    requires ToolDone(g.host, g.raw, s, F.Snapshot(nodes, node), name, input, response) == Ok(next)
    ensures Min(Total(Counted(nodes, node, next), BYTES), U64_MAX) <= g.limits.maxToolOutputBytes ==>
      F.NodeStep(g, nodes, node, s, Tool(name, input, response)) == Some(F.Both(next))
  {
  }

  lemma {:induction false} ConversationKept(host: Host, allowed: set<string>, s: LoopState, parts: seq<Part>)
    requires AdmitParts(host, allowed, s, parts).Ok?
    ensures AdmitParts(host, allowed, s, parts).value.conversation == s.conversation
    ensures AdmitParts(host, allowed, s, parts).value.modelIterations == s.modelIterations
  {
    if parts != [] {
      ConversationKept(host, allowed, s, parts[..|parts| - 1]);
    }
  }
}
