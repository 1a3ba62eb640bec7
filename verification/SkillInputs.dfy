/** The inputs of the three skill tools: typed values on one side, their JSON form on the other. */
module SkillInputs {
  import opened Prelude
  import opened Json
  import opened LoopStates

  datatype SkillInput =
    | ActivateInput(skill: string)
    | ReadInput(skill: string, resource: string, offset: Option<nat>, limit: nat)
    | ScriptInput(skill: string, script: string, input: Json)

  /** Offset and limit are 64-bit numbers. */
  predicate InRange(i: SkillInput) {
    i.ReadInput? ==> i.limit <= U64_MAX && (i.offset.Some? ==> i.offset.value <= U64_MAX)
  }

  function Wire(i: SkillInput): Json {
    match i
    case ActivateInput(skill) => Obj(map["skill_id" := Str(skill)])
    case ReadInput(skill, resource, offset, limit) =>
      var required := map["skill_id" := Str(skill), "resource_id" := Str(resource), "limit" := Num(limit)];
      Obj(if offset.Some? then required["offset" := Num(offset.value)] else required)
    case ScriptInput(skill, script, input) =>
      Obj(map["skill_id" := Str(skill), "script_id" := Str(script), "input" := input])
  }

  /** The JSON form determines the input. */
  lemma WireInjective(a: SkillInput, b: SkillInput)
    requires Wire(a) == Wire(b)
    ensures a == b
  {
    var fields := Wire(a).fields;
    assert a.ActivateInput? <==> "limit" !in fields && "input" !in fields;
    assert a.ReadInput? <==> "limit" in fields;
    if a.ReadInput? {
      assert a.offset.Some? <==> "offset" in fields;
      assert a.offset.Some? ==> fields["offset"] == Num(a.offset.value) == Num(b.offset.value);
      assert fields["limit"] == Num(a.limit) == Num(b.limit);
      assert fields["resource_id"] == Str(a.resource) == Str(b.resource);
    }
    if a.ScriptInput? {
      assert fields["script_id"] == Str(a.script) == Str(b.script);
      assert fields["input"] == a.input == b.input;
    }
    assert fields["skill_id"] == Str(a.skill) == Str(b.skill);
  }

  lemma OneField(fields: map<string, Json>, key: string)
    requires fields.Keys == {key}
    ensures fields == map[key := fields[key]]
  {
  }

  /** Arguments are accepted as the input of an activation exactly when they are the JSON form of one. */
  lemma ActivateIff(args: Json)
    ensures IsActivateInput(args) <==> exists i: SkillInput :: i.ActivateInput? && Wire(i) == args
    ensures IsActivateInput(args) ==> Wire(ActivateInput(SkillId(args))) == args
  {
    if IsActivateInput(args) {
      OneField(args.fields, "skill_id");
      assert Wire(ActivateInput(SkillId(args))) == args;
    }
  }

  /** The read input these arguments stand for. */
  function ReadOf(args: Json): SkillInput
    requires IsReadInput(args)
  {
    ReadInput(SkillId(args), args.fields["resource_id"].s, AsU64(args.Get("offset")), args.fields["limit"].n)
  }

  lemma ReadWire(args: Json)
    requires IsReadInput(args)
    ensures InRange(ReadOf(args)) && Wire(ReadOf(args)) == args
  {
    var fields := Wire(ReadOf(args)).fields;
    assert forall k :: k in args.fields <==> k in fields;
    assert fields == args.fields;
  }

  /** The same for a page read, whose offset may be left out, and for a script. */
  lemma ReadIff(args: Json)
    ensures IsReadInput(args) <==> exists i: SkillInput :: i.ReadInput? && InRange(i) && Wire(i) == args
    ensures IsReadInput(args) ==> ReadOf(args).skill == SkillId(args)
  {
    if IsReadInput(args) {
      ReadWire(args);
    }
    if i: SkillInput :| i.ReadInput? && InRange(i) && Wire(i) == args {
      assert args.fields.Keys <= {"skill_id", "resource_id", "offset", "limit"};
    }
  }

  lemma ScriptIff(args: Json)
    ensures IsScriptInput(args) <==> exists i: SkillInput :: i.ScriptInput? && Wire(i) == args
  {
    if IsScriptInput(args) {
      var i := ScriptInput(SkillId(args), args.fields["script_id"].s, args.fields["input"]);
      assert forall k :: k in args.fields <==> k in Wire(i).fields;
      assert Wire(i).fields == args.fields;
    }
    if i: SkillInput :| i.ScriptInput? && Wire(i) == args {
      assert args.fields.Keys == {"skill_id", "script_id", "input"};
    }
  }

  /** The size of a page is the number at `/payload/page_byte_len` of the response. */
  lemma PageIff(response: Json, n: nat)
    ensures PageByteLen(response) == Some(n) <==>
      && n <= U64_MAX && response.Obj? && "payload" in response.fields && response.fields["payload"].Obj?
      && "page_byte_len" in response.fields["payload"].fields
      && response.fields["payload"].fields["page_byte_len"] == Num(n)
  {
  }
}
