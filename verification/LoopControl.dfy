/** What one step of an agent loop computes from the previous state: `before_model`,
    `observe_model`, `observe_tool`, and the ledger's own `complete_pending` and
    `reserve_skill_resource_read`. */
module LoopControl {
  import opened Prelude
  import opened Json
  import opened LoopStates
  import opened LoopValidation
  import opened Redaction
  import C = Content

  datatype Failure =
    | MissingId | UnknownTool | MalformedTool | NonProgress | InvalidOutput
    | ModelIterationsLimit | TotalToolCallsLimit | ToolCallsPerToolLimit | ToolOutputBytesLimit
    | IdleTimeLimit | ToolTimeLimit
    | ToolFailed | InvalidRunState | Persistence | Cancelled

  // ---- before_model ----

  /** The state and the request contents after the start of a model turn. */
  function BeforeModel(s: LoopState, contents: seq<Content>): (LoopState, seq<Content>) {
    if s.conversation == [] then (s.(conversation := contents), contents)
    else
      var conversation := if s.conversationReconstructed then contents + s.conversation else s.conversation;
      (s.(conversation := conversation, conversationReconstructed := false), conversation)
  }

  // ---- observe_model ----

  function AdmitCall(host: Host, allowed: set<string>, s: LoopState,
                     name: string, args: Json, id: Option<string>): Result<LoopState, Failure> {
    if id.None? || id.value == "" then Err(MissingId)
    else if name !in allowed then Err(UnknownTool)
    else if !args.Obj? then Err(MalformedTool)
    else
      var fingerprint := host.fingerprint(args);
      if id.value in s.seenIds || (name, fingerprint) in s.seenCalls then Err(NonProgress)
      else
        var total := SaturatingAdd(s.totalToolCalls, 1);
        var call := PendingCall(id.value, name, args, fingerprint, s.modelIterations + 1, total, None);
        Ok(s.(seenIds := s.seenIds + {id.value},
              seenCalls := s.seenCalls + {(name, fingerprint)},
              totalToolCalls := total,
              toolCalls := s.toolCalls[name := CountOf(s.toolCalls, name) + 1],
              pendingCalls := s.pendingCalls + [call]))
  }

  function AdmitPart(host: Host, allowed: set<string>, s: LoopState, part: Part): Result<LoopState, Failure> {
    match part
    case FunctionCall(name, args, id, _) => AdmitCall(host, allowed, s, name, args, id)
    case _ => Ok(s)
  }

  function AdmitParts(host: Host, allowed: set<string>, s: LoopState, parts: seq<Part>): Result<LoopState, Failure> {
    if parts == [] then Ok(s)
    else
      match AdmitParts(host, allowed, s, parts[..|parts| - 1])
      case Err(e) => Err(e)
      case Ok(before) => AdmitPart(host, allowed, before, parts[|parts| - 1])
  }

  function EndTurn(s: LoopState, content: Content, finish: Option<Json>, interactionId: Option<string>): LoopState {
    s.(finishAdmitted := finish.Some?, finishSuccessor := finish, finishedOutput := finish,
       modelIterations := s.modelIterations + 1,
       conversation := s.conversation + [content],
       previousResponseId := interactionId)
  }

  /** The candidate state of a model turn, before the shared call limits are consulted. */
  function ModelTurn(host: Host, allowed: set<string>, s: LoopState, content: Content,
                     interactionId: Option<string>): Result<LoopState, Failure> {
    match AdmittedFinish(host, content)
    case Err(_) => Err(InvalidOutput)
    case Ok(finish) =>
      match AdmitParts(host, allowed, s, content.parts)
      case Err(e) => Err(e)
      case Ok(next) => Ok(EndTurn(next, content, finish, interactionId))
  }

  // ---- observe_tool ----

  /** The first pending call with this tool name and argument fingerprint. */
  function Position(pending: seq<PendingCall>, name: string, fingerprint: string): (i: Option<nat>)
    ensures i.Some? ==>
      && i.value < |pending|
      && pending[i.value].name == name && pending[i.value].fingerprint == fingerprint
      && forall j :: 0 <= j < i.value ==> !(pending[j].name == name && pending[j].fingerprint == fingerprint)
    ensures i.None? ==>
      forall j :: 0 <= j < |pending| ==> !(pending[j].name == name && pending[j].fingerprint == fingerprint)
  {
    if pending == [] then None
    else if pending[0].name == name && pending[0].fingerprint == fingerprint then Some(0)
    else
      var rest :- Position(pending[1..], name, fingerprint);
      Some(rest + 1)
  }

  function Without(pending: seq<PendingCall>, i: nat): seq<PendingCall>
    requires i < |pending|
  {
    pending[..i] + pending[i + 1..]
  }

  /** Moves pending call `i` to the completed calls with its response. */
  function Complete(host: Host, s: LoopState, i: nat, response: Json): LoopState
    requires i < |s.pendingCalls|
  {
    var call := s.pendingCalls[i];
    s.(pendingCalls := Without(s.pendingCalls, i),
       completedCalls := s.completedCalls + [Completed(call, response)],
       toolOutputBytes := SaturatingAdd(s.toolOutputBytes, host.size(response)))
  }

  /** The part that admitted a call, searched from the end of the transcript. */
  function FindCallPart(parts: seq<Part>, id: string): (j: Option<nat>)
    ensures j.Some? ==> j.value < |parts| && parts[j.value].FunctionCall? && parts[j.value].id == Some(id)
  {
    if parts == [] then None
    else
      var last := parts[|parts| - 1];
      if last.FunctionCall? && last.id == Some(id) then Some(|parts| - 1)
      else FindCallPart(parts[..|parts| - 1], id)
  }

  /** Outside raw persistence the admitted arguments are replaced by their durable form as soon
      as the call is answered. */
  function Project(host: Host, conversation: seq<Content>, call: PendingCall): Option<seq<Content>> {
    if conversation == [] then None
    else
      var front, last := conversation[..|conversation| - 1], conversation[|conversation| - 1];
      match FindCallPart(last.parts, call.id)
      case None =>
        var projected :- Project(host, front, call);
        Some(projected + [last])
      case Some(j) =>
        var part := last.parts[j];
        if part.name != call.name || host.fingerprint(part.args) != call.fingerprint || DurableArgs(call).None? then None
        else Some(front + [last.(parts := last.parts[j := part.(args := DurableArgs(call).value)])])
  }

  /** What skill tools keep beside the transcript. */
  datatype SkillRecords = SkillRecords(activated: set<string>, charged: map<string, nat>, reserved: map<string, nat>)

  /** The skill records after a tool answered; `None` when its input or page is not in order.
      `persisted` is the ledger's copy of this node, which holds the read reservations. */
  function RecordSkill(s: LoopState, persisted: LoopState, name: string, fingerprint: string,
                       input: Json, response: Json): Option<SkillRecords> {
    if name == ACTIVATE then
      if !IsActivateInput(input) then None
      else Some(SkillRecords(s.activatedSkills + {SkillId(input)}, s.skillReadBytes, s.skillReservations))
    else if name == READ then
      if IsReadInput(input) && PageByteLen(response).Some? && fingerprint in persisted.skillReservations
         && persisted.skillReservations[fingerprint] == PageByteLen(response).value then
        Some(SkillRecords(s.activatedSkills, persisted.skillReadBytes, persisted.skillReservations - {fingerprint}))
      else None
    else Some(SkillRecords(s.activatedSkills, s.skillReadBytes, s.skillReservations))
  }

  /** The state with call `i` answered, once its skill records and transcript are in order. */
  function Answer(host: Host, s: LoopState, i: nat, response: Json, skill: Option<SkillRecords>,
                  conversation: Option<seq<Content>>): Result<LoopState, Failure>
    requires i < |s.pendingCalls|
  {
    if skill.None? || conversation.None? then Err(ToolFailed)
    else
      Ok(Complete(host, s, i, response).(
        activatedSkills := skill.value.activated, skillReadBytes := skill.value.charged,
        skillReservations := skill.value.reserved,
        conversation := conversation.value + [ToolResponseContent(s.pendingCalls[i], response)]))
  }

  /** The candidate state after a tool answered, before the shared output limit is consulted. */
  function ToolDone(host: Host, raw: bool, s: LoopState, persisted: LoopState,
                    name: string, input: Json, response: Json): Result<LoopState, Failure> {
    var fingerprint := host.fingerprint(input);
    match Position(s.pendingCalls, name, fingerprint)
    case None => Err(ToolFailed)
    case Some(i) =>
      Answer(host, s, i, response, RecordSkill(s, persisted, name, fingerprint, input, response),
             if raw then Some(s.conversation) else Project(host, s.conversation, s.pendingCalls[i]))
  }

  /** `t` is `s` with call `i` answered; skill records and transcript may have moved too. */
  predicate Answers(host: Host, s: LoopState, persisted: LoopState, i: nat, response: Json, t: LoopState) {
    && i < |s.pendingCalls|
    && t == Complete(host, s, i, response).(
              activatedSkills := t.activatedSkills, skillReadBytes := t.skillReadBytes,
              skillReservations := t.skillReservations, conversation := t.conversation)
    && (if s.pendingCalls[i].name == READ then
          && t.skillReadBytes == persisted.skillReadBytes
          && t.skillReservations == persisted.skillReservations - {s.pendingCalls[i].fingerprint}
        else t.skillReadBytes == s.skillReadBytes && t.skillReservations == s.skillReservations)
  }

  lemma ToolDoneAnswers(host: Host, raw: bool, s: LoopState, persisted: LoopState,
                        name: string, input: Json, response: Json) returns (i: nat)
    requires ToolDone(host, raw, s, persisted, name, input, response).Ok?
    ensures Answers(host, s, persisted, i, response, ToolDone(host, raw, s, persisted, name, input, response).value)
    ensures s.pendingCalls[i].name == name && s.pendingCalls[i].fingerprint == host.fingerprint(input)
    ensures name == READ ==>
      && host.fingerprint(input) in persisted.skillReservations
      && PageByteLen(response) == Some(persisted.skillReservations[host.fingerprint(input)])
    ensures var t := ToolDone(host, raw, s, persisted, name, input, response).value;
            raw ==> t.conversation == s.conversation + [ToolResponseContent(s.pendingCalls[i], response)]
  {
    i := Position(s.pendingCalls, name, host.fingerprint(input)).value;
  }

  // ---- complete_pending ----

  predicate SameCall(a: PendingCall, b: PendingCall) {
    a.id == b.id && a.name == b.name && a.fingerprint == b.fingerprint
  }

  function PositionOf(pending: seq<PendingCall>, call: PendingCall): (i: Option<nat>)
    ensures i.Some? ==> i.value < |pending| && SameCall(pending[i.value], call)
  {
    if pending == [] then None
    else if SameCall(pending[0], call) then Some(0)
    else
      var rest :- PositionOf(pending[1..], call);
      Some(rest + 1)
  }

  predicate MentionsCall(conversation: seq<Content>, id: string) {
    exists k :: 0 <= k < |conversation| && FindCallPart(conversation[k].parts, id).Some?
  }

  /** The transcript after a replayed call: its call content if missing, then the response. */
  function Answered(conversation: seq<Content>, call: PendingCall, response: Json): seq<Content> {
    (if MentionsCall(conversation, call.id) then conversation else conversation + [ToolCallContent(call)])
    + [ToolResponseContent(call, response)]
  }

  /** What replaying a pending call leaves in the store: the node's state and, on failure, why.
      Checks made after the call was moved fail with the move already made. */
  function CompletePending(host: Host, s: LoopState, otherBytes: nat, call: PendingCall,
                           response: Json, maxOutputBytes: nat): (LoopState, Option<Failure>) {
    var total := SaturatingAdd(s.toolOutputBytes, host.size(response));
    if SaturatingAdd(otherBytes, total) > maxOutputBytes then (s, Some(ToolOutputBytesLimit))
    else
      match PositionOf(s.pendingCalls, call)
      case None => (s, Some(InvalidRunState))
      case Some(i) =>
        var pending := s.pendingCalls[i];
        var page := PageByteLen(response);
        if pending.name == READ && !(page.Some? && pending.fingerprint in s.skillReservations
                                     && s.skillReservations[pending.fingerprint] == page.value) then
          (s, Some(InvalidRunState))
        else
          var moved := Complete(host, s, i, response);
          if pending.name != READ then
            (moved.(conversation := Answered(s.conversation, pending, response)), None)
          else if !IsReadInput(pending.args) || CountOf(s.skillReadBytes, SkillId(pending.args)) < page.value then
            var conversation := if MentionsCall(s.conversation, pending.id) then s.conversation
                                else s.conversation + [ToolCallContent(pending)];
            (moved.(conversation := conversation), Some(InvalidRunState))
          else
            (moved.(skillReservations := s.skillReservations - {pending.fingerprint},
                    conversation := Answered(s.conversation, pending, response)), None)
  }

  // ---- reserve_skill_resource_read ----

  /** The charged total of the skill afterwards, and the state if it changed. */
  function Reserve(s: LoopState, replaying: bool, skill: string, fingerprint: string, pageBytes: nat)
    : Result<(LoopState, nat), Failure>
  {
    var charged := CountOf(s.skillReadBytes, skill);
    if replaying then Ok((s, charged))
    else if fingerprint in s.skillReservations then
      if s.skillReservations[fingerprint] != pageBytes then Err(InvalidRunState) else Ok((s, charged))
    else if charged + pageBytes > U64_MAX || charged + pageBytes > SKILL_RESOURCE_READ_LIMIT then Err(ToolFailed)
    else
      Ok((s.(skillReadBytes := s.skillReadBytes[skill := charged + pageBytes],
             skillReservations := s.skillReservations[fingerprint := pageBytes]),
          charged + pageBytes))
  }
}
