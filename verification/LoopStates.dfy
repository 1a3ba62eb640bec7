/** The durable state of one agent loop and the contents its tool calls put in the transcript. */
module LoopStates {
  import opened Prelude
  import opened Json
  import C = Content

  type Part = C.Part<Json>
  type Content = C.Content<Json>

  const ACTIVATE := "activate_skill"
  const READ := "read_skill_resource"
  const SCRIPT := "run_skill_script"
  const SKILL_RESOURCE_READ_LIMIT: nat := 64 * 1024

  predicate IsSkill(name: string) {
    name == ACTIVATE || name == READ || name == SCRIPT
  }

  datatype PendingCall = PendingCall(
    id: string, name: string, args: Json, fingerprint: string,
    modelIteration: nat, admissionOrdinal: nat, response: Option<Json>)

  /** `CompletedCall`: a finished call, tagged by the kind of tool that answered it. */
  datatype CompletedCall =
    | SkillCall(call: PendingCall)
    | OrdinaryCall(call: PendingCall)

  datatype LoopState = LoopState(
    modelIterations: nat,
    totalToolCalls: nat,
    toolOutputBytes: nat,
    toolCalls: map<string, nat>,
    seenIds: set<string>,
    seenCalls: set<(string, string)>,
    conversation: seq<Content>,
    conversationReconstructed: bool,
    previousResponseId: Option<string>,
    pendingCalls: seq<PendingCall>,
    completedCalls: seq<CompletedCall>,
    finishAdmitted: bool,
    finishedOutput: Option<Json>,
    finishSuccessor: Option<Json>,
    activatedSkills: set<string>,
    skillReadBytes: map<string, nat>,
    skillReservations: map<string, nat>)

  const FRESH: LoopState := LoopState(
    0, 0, 0, map[], {}, {}, [], false, None, [], [], false, None, None, {}, map[], map[])

  // ---- Transcript entries ----

  function ToolCallContent(call: PendingCall): Content {
    C.Content("model", [C.FunctionCall(call.name, call.args, Some(call.id), None)])
  }

  function ToolResponseContent(call: PendingCall, response: Json): Content {
    C.Content("function",
      [C.FunctionResponse(C.FunctionResponseData(call.name, response, [], []), Some(call.id), None)])
  }

  /** `EffectAudits::completed`, without the advisory effect receipt. */
  function Completed(call: PendingCall, response: Json): CompletedCall {
    var done := call.(response := Some(response));
    if IsSkill(call.name) then SkillCall(done) else OrdinaryCall(done)
  }

  predicate HasCall(c: Content) {
    exists i :: 0 <= i < |c.parts| && c.parts[i].FunctionCall?
  }

  predicate HasResponse(c: Content) {
    exists i :: 0 <= i < |c.parts| && c.parts[i].FunctionResponse?
  }

  /** `model_text`: the visible text parts joined in order, `None` when there is none. */
  function ModelText(parts: seq<Part>): Option<string> {
    if parts == [] then None
    else
      var rest := ModelText(parts[1..]);
      if parts[0].Text? then Some(parts[0].text + (if rest.Some? then rest.value else "")) else rest
  }

  /** `admitted_finish`: `Ok(None)` for a turn of tool calls, `Ok(Some(output))` for a finish
      message, an error for everything else. */
  function AdmittedFinish(host: Host, c: Content): Result<Option<Json>, ()> {
    if c.role != "assistant" && c.role != "model" then Err(())
    else
      var text := ModelText(c.parts);
      var visible := text.Some? && !host.isBlank(text.value);
      if HasCall(c) && !visible then Ok(None)
      else if !HasCall(c) && visible then
        match host.parseFinish(text.value)
        case Some(output) => Ok(Some(output))
        case None => Err(())
      else Err(())
  }

  predicate IsFinish(host: Host, c: Content) {
    AdmittedFinish(host, c).Ok? && AdmittedFinish(host, c).value.Some?
  }

  // ---- Skill tool arguments (strict typed inputs) ----

  predicate StringField(args: Json, key: string) {
    args.Get(key).Some? && args.Get(key).value.Str?
  }

  predicate U64Field(args: Json, key: string) {
    AsU64(args.Get(key)).Some?
  }

  predicate IsActivateInput(args: Json) {
    args.Obj? && args.fields.Keys == {"skill_id"} && StringField(args, "skill_id")
  }

  /** `offset` may be left out and then reads as zero. */
  predicate IsReadInput(args: Json) {
    && args.Obj?
    && {"skill_id", "resource_id", "limit"} <= args.fields.Keys
    && args.fields.Keys <= {"skill_id", "resource_id", "offset", "limit"}
    && StringField(args, "skill_id") && StringField(args, "resource_id") && U64Field(args, "limit")
    && ("offset" in args.fields ==> U64Field(args, "offset"))
  }

  predicate IsScriptInput(args: Json) {
    && args.Obj? && args.fields.Keys == {"skill_id", "script_id", "input"}
    && StringField(args, "skill_id") && StringField(args, "script_id")
  }

  function SkillId(args: Json): string
    requires StringField(args, "skill_id")
  {
    args.Get("skill_id").value.s
  }

  /** `skill_page_byte_len`: the number at `/payload/page_byte_len`. */
  function PageByteLen(response: Json): Option<nat> {
    var payload :- response.Get("payload");
    AsU64(payload.Get("page_byte_len"))
  }
}
