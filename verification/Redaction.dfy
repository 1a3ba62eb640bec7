/** The redacted on-disk form of a loop state: no transcript, tool arguments reduced to what a
    replay needs.  `valid_loop_state` checks it in its branch for an empty conversation. */
module Redaction {
  import opened Prelude
  import opened Json
  import opened Sums
  import opened LoopStates
  import opened LoopValidation

  const FINGERPRINT := "argument_fingerprint"
  const INVALID: Json := Obj(map["invalid" := Bool(true)])

  /** The exact shape `durable_pending_args` gives to the arguments of a script call. */
  predicate IsRedactedScriptArgs(args: Json, fingerprint: string) {
    && args.Obj? && |args.fields| == 3
    && StringField(args, "skill_id") && StringField(args, "script_id")
    && args.Get(FINGERPRINT) == Some(Str(fingerprint))
  }

  function ReadOffset(args: Json): Json {
    if args.Get("offset").Some? then args.Get("offset").value else Num(0)
  }

  /** `durable_pending_args`. */
  function DurableArgs(call: PendingCall): Option<Json> {
    var args := call.args;
    if call.name == ACTIVATE then
      Some(if IsActivateInput(args) then Obj(map["skill_id" := Str(SkillId(args))]) else INVALID)
    else if call.name == READ then
      Some(if IsReadInput(args) then
             Obj(map["skill_id" := Str(SkillId(args)), "resource_id" := args.fields["resource_id"],
                     "offset" := ReadOffset(args), "limit" := args.fields["limit"]])
           else INVALID)
    else if call.name == SCRIPT then
      Some(if IsScriptInput(args) then
             Obj(map["skill_id" := Str(SkillId(args)), "script_id" := args.fields["script_id"],
                     FINGERPRINT := Str(call.fingerprint)])
           else if IsRedactedScriptArgs(args, call.fingerprint) then args
           else INVALID)
    else if call.name != "" then Some(Obj(map[FINGERPRINT := Str(call.fingerprint)]))
    else None
  }

  predicate IsRedactedOrdinary(call: PendingCall) {
    && !IsSkill(call.name)
    && call.args.Obj? && |call.args.fields| == 1
    && call.args.Get(FINGERPRINT) == Some(Str(call.fingerprint))
  }

  predicate IsRedactedScript(call: PendingCall) {
    call.name == SCRIPT && AsStr(call.args.Get(FINGERPRINT)) == Some(call.fingerprint)
  }

  predicate ValidPending(host: Host, call: PendingCall) {
    && DurableArgs(call) == Some(call.args)
    && (IsRedactedOrdinary(call) || host.fingerprint(call.args) == call.fingerprint)
  }

  predicate ValidCompleted(host: Host, completed: CompletedCall) {
    var call := completed.call;
    && DurableArgs(call) == Some(call.args)
    && match completed
       case SkillCall(_) => IsRedactedScript(call) || host.fingerprint(call.args) == call.fingerprint
       case OrdinaryCall(_) => IsRedactedOrdinary(call)
  }

  function Calls(completed: seq<CompletedCall>): seq<PendingCall> {
    seq(|completed|, i requires 0 <= i < |completed| => completed[i].call)
  }

  /** Every admitted call: those still pending, then those completed. */
  function Disposed(s: LoopState): seq<PendingCall> {
    s.pendingCalls + Calls(s.completedCalls)
  }

  /** The part of a call that admission fixed for good. */
  datatype Admission = Admission(id: string, name: string, fingerprint: string, iteration: nat, ordinal: nat)

  function AdmissionOf(c: PendingCall): Admission {
    Admission(c.id, c.name, c.fingerprint, c.modelIteration, c.admissionOrdinal)
  }

  function Admissions(calls: seq<PendingCall>): seq<Admission> {
    seq(|calls|, i requires 0 <= i < |calls| => AdmissionOf(calls[i]))
  }

  ghost function Admitted(s: LoopState): multiset<Admission> {
    multiset(Admissions(Disposed(s)))
  }

  /** The numbers 1, 2, ..., n. */
  ghost function UpTo(n: nat): set<nat> {
    if n == 0 then {} else UpTo(n - 1) + {n}
  }

  /** What the validator checks of the admitted calls against the counters and seen sets. */
  ghost predicate AdmissionsAgree(m: multiset<Admission>, iterations: nat, total: nat,
                                  seenIds: set<string>, seenCalls: set<(string, string)>) {
    && |m| == total == |seenIds| == |seenCalls|
    && (set a | a in m :: a.ordinal) == UpTo(total)
    && (set a | a in m :: a.id) == seenIds
    && (set a | a in m :: (a.name, a.fingerprint)) == seenCalls
    && (forall a | a in m :: 0 < a.iteration <= iterations)
    && (forall id <- seenIds :: id != "")
    && (forall pair <- seenCalls :: pair.0 != "" && pair.1 != "")
  }

  /** The per-tool counts are positive and add up to the total. */
  ghost predicate CountsAgree(toolCalls: map<string, nat>, total: nat) {
    && total == Sum(toolCalls) <= U64_MAX
    && (forall name <- toolCalls :: name != "" && toolCalls[name] > 0)
  }

  ghost predicate DisposedAgree(s: LoopState) {
    && CountsAgree(s.toolCalls, s.totalToolCalls)
    && AdmissionsAgree(Admitted(s), s.modelIterations, s.totalToolCalls, s.seenIds, s.seenCalls)
  }

  predicate FinishAgrees(s: LoopState) {
    && s.finishAdmitted == s.finishSuccessor.Some?
    && (s.finishAdmitted ==> s.modelIterations > 0 && s.pendingCalls == [])
  }

  /** `valid_loop_state`, both branches. */
  ghost predicate ValidLoopState(host: Host, s: LoopState) {
    if s.conversation == [] then
      && ValidReadAccounting(s)
      && s.finishedOutput.None?
      && FinishAgrees(s)
      && (forall c <- s.pendingCalls :: ValidPending(host, c))
      && (forall c <- s.completedCalls :: ValidCompleted(host, c))
      && DisposedAgree(s)
    else ValidTranscript(host, s)
  }

  // ---- The projection ----

  function RedactPending(call: PendingCall): PendingCall
    requires DurableArgs(call).Some?
  {
    call.(args := DurableArgs(call).value)
  }

  function RedactCompleted(completed: CompletedCall): CompletedCall
    requires DurableArgs(completed.call).Some?
  {
    var call := RedactPending(completed.call);
    completed.(call := if IsSkill(call.name) then call.(response := None) else call)
  }

  /** Every call has durable arguments; `persist_generation` refuses the state otherwise. */
  predicate Redactable(s: LoopState) {
    && (forall c <- s.pendingCalls :: DurableArgs(c).Some?)
    && (forall c <- s.completedCalls :: DurableArgs(c.call).Some?)
  }

  /** What `persist_generation` writes for this state when raw transcripts are not kept. */
  function Redact(s: LoopState): LoopState
    requires Redactable(s)
  {
    s.(conversation := [], finishedOutput := None,
       pendingCalls := seq(|s.pendingCalls|, i requires 0 <= i < |s.pendingCalls| => RedactPending(s.pendingCalls[i])),
       completedCalls := seq(|s.completedCalls|,
         i requires 0 <= i < |s.completedCalls| => RedactCompleted(s.completedCalls[i])))
  }

  /** What is written of a call's arguments: a skill tool keeps the fields that identify the skill and
      what is asked of it, each with its own value, and no other field; anything else is reduced to
      its fingerprint, or to a mark that it was malformed. */
  lemma DurableFields(call: PendingCall)
    ensures DurableArgs(call).Some? <==> call.name != ""
    ensures DurableArgs(call).Some? ==> DurableArgs(call).value.Obj?
    ensures DurableArgs(call).Some? ==>
      var args, kept := call.args, DurableArgs(call).value.fields;
      && (call.name == ACTIVATE && IsActivateInput(args) ==>
            kept.Keys == {"skill_id"} && kept["skill_id"] == args.fields["skill_id"])
      && (call.name == READ && IsReadInput(args) ==>
            && kept.Keys == {"skill_id", "resource_id", "offset", "limit"}
            && kept["skill_id"] == args.fields["skill_id"] && kept["resource_id"] == args.fields["resource_id"]
            && kept["limit"] == args.fields["limit"]
            && kept["offset"] == if "offset" in args.fields then args.fields["offset"] else Num(0))
      && (call.name == SCRIPT && IsScriptInput(args) ==>
            && kept.Keys == {"skill_id", "script_id", FINGERPRINT}
            && kept["skill_id"] == args.fields["skill_id"] && kept["script_id"] == args.fields["script_id"]
            && kept[FINGERPRINT] == Str(call.fingerprint))
      && (!IsSkill(call.name) ==> kept == map[FINGERPRINT := Str(call.fingerprint)])
      && ((call.name == ACTIVATE && !IsActivateInput(args)) || (call.name == READ && !IsReadInput(args))
          || (call.name == SCRIPT && !IsScriptInput(args) && !IsRedactedScriptArgs(args, call.fingerprint)) ==>
            kept == map["invalid" := Bool(true)])
      && (call.name == SCRIPT && IsRedactedScriptArgs(args, call.fingerprint) && !IsScriptInput(args) ==>
            kept == args.fields)
  {
  }

  /** Redacting arguments a second time changes nothing. */
  lemma DurableArgsIdempotent(call: PendingCall)
    requires DurableArgs(call).Some?
    ensures DurableArgs(RedactPending(call)) == DurableArgs(call)
  {
    var once := RedactPending(call);
    if call.name == ACTIVATE && IsActivateInput(call.args) {
      assert IsActivateInput(once.args);
    } else if call.name == READ && IsReadInput(call.args) {
      assert IsReadInput(once.args);
    } else if call.name == SCRIPT && IsScriptInput(call.args) {
      assert FINGERPRINT in once.args.fields && "skill_id" in once.args.fields && "script_id" in once.args.fields;
      assert once.args.fields.Keys == {"skill_id", "script_id", FINGERPRINT};
      assert |once.args.fields| == |once.args.fields.Keys| == 3;
      assert !IsScriptInput(once.args);
      assert IsRedactedScriptArgs(once.args, once.fingerprint);
    } else if call.name == SCRIPT && IsRedactedScriptArgs(call.args, call.fingerprint) {
    } else {
      assert INVALID.fields.Keys == {"invalid"};
    }
  }

  /** Redacting a whole state is idempotent as well. */
  lemma RedactIdempotent(s: LoopState)
    requires Redactable(s)
    ensures Redactable(Redact(s)) && Redact(Redact(s)) == Redact(s)
  {
    var once := Redact(s);
    forall i | 0 <= i < |s.pendingCalls|
      ensures DurableArgs(once.pendingCalls[i]) == Some(once.pendingCalls[i].args)
    {
      DurableArgsIdempotent(s.pendingCalls[i]);
    }
    forall i | 0 <= i < |s.completedCalls|
      ensures DurableArgs(once.completedCalls[i].call) == Some(once.completedCalls[i].call.args)
    {
      var call := s.completedCalls[i].call;
      DurableArgsIdempotent(call);
      assert DurableArgs(RedactPending(call).(response := None)) == DurableArgs(RedactPending(call));
    }
    assert Redact(once).pendingCalls == once.pendingCalls;
    assert Redact(once).completedCalls == once.completedCalls;
  }

  // ---- When the redacted form is accepted ----

  /** Fingerprints tell argument values apart and are never empty. */
  ghost predicate CollisionFree(host: Host) {
    && (forall a, b :: host.fingerprint(a) == host.fingerprint(b) ==> a == b)
    && (forall a :: host.fingerprint(a) != "")
  }

  /** The recorded fingerprint is the one of the arguments; a script call may instead already
      carry redacted arguments, and ordinary arguments are never compared again. */
  predicate Fingerprinted(host: Host, call: PendingCall) {
    IsSkill(call.name) ==>
      || host.fingerprint(call.args) == call.fingerprint
      || (call.name == SCRIPT && IsRedactedScriptArgs(call.args, call.fingerprint))
  }

  /** Arguments that redaction leaves as they are: all keys spelled out and none besides. */
  predicate CanonicalPending(call: PendingCall) {
    if call.name == ACTIVATE then IsActivateInput(call.args) || call.args == INVALID
    else if call.name == READ then
      (IsReadInput(call.args) && "offset" in call.args.fields) || call.args == INVALID
    else if call.name == SCRIPT then call.args == INVALID
    else call.name != ""
  }

  /** A finished script call may have had proper script input. */
  predicate CanonicalCompleted(call: PendingCall) {
    if call.name == SCRIPT then
      || IsScriptInput(call.args)
      || IsRedactedScriptArgs(call.args, call.fingerprint)
      || call.args == INVALID
    else CanonicalPending(call)
  }

  /** No arguments contain their own fingerprint. */
  ghost predicate NoSelfReference(host: Host) {
    forall args :: !IsRedactedScriptArgs(args, host.fingerprint(args))
  }

  lemma CanonicalUnchanged(call: PendingCall)
    requires call.name == ACTIVATE || call.name == READ
    ensures CanonicalPending(call) <==> DurableArgs(call) == Some(call.args)
  {
    if call.name == ACTIVATE && IsActivateInput(call.args) {
      assert call.args.fields == map["skill_id" := Str(SkillId(call.args))];
    } else if call.name == READ && IsReadInput(call.args) {
      if "offset" in call.args.fields {
        assert call.args.fields.Keys == {"skill_id", "resource_id", "offset", "limit"};
        assert DurableArgs(call).value.fields == call.args.fields;
      } else {
        assert "offset" in DurableArgs(call).value.fields;
      }
    }
  }

  /** A pending call survives redaction exactly when its arguments are canonical; a pending
      script call with real input never does. */
  lemma PendingAcceptedIff(host: Host, call: PendingCall)
    requires CollisionFree(host) && NoSelfReference(host)
    requires call.name != "" && Fingerprinted(host, call)
    requires call.name == SCRIPT ==> host.fingerprint(call.args) == call.fingerprint
    ensures ValidPending(host, RedactPending(call)) <==> CanonicalPending(call)
  {
    var once := RedactPending(call);
    DurableArgsIdempotent(call);
    if call.name == ACTIVATE || call.name == READ {
      CanonicalUnchanged(call);
    } else if call.name == SCRIPT {
      if IsScriptInput(call.args) {
        assert FINGERPRINT in once.args.fields && FINGERPRINT !in call.args.fields;
      }
      assert INVALID.fields.Keys == {"invalid"};
    } else {
      assert once.args.fields.Keys == {FINGERPRINT};
      assert |once.args.fields| == |once.args.fields.Keys|;
    }
  }

  lemma CompletedAcceptedIff(host: Host, completed: CompletedCall)
    requires CollisionFree(host)
    requires completed.call.name != "" && Fingerprinted(host, completed.call)
    requires completed.SkillCall? <==> IsSkill(completed.call.name)
    ensures ValidCompleted(host, RedactCompleted(completed)) <==> CanonicalCompleted(completed.call)
  {
    var call := completed.call;
    var once := RedactCompleted(completed).call;
    DurableArgsIdempotent(call);
    assert DurableArgs(once) == Some(once.args);
    if call.name == ACTIVATE || call.name == READ {
      CanonicalUnchanged(call);
    } else if call.name == SCRIPT {
      assert INVALID.fields.Keys == {"invalid"};
    } else {
      assert once.args.fields.Keys == {FINGERPRINT};
      assert |once.args.fields| == |once.args.fields.Keys|;
    }
  }

  // ---- Accounting survives redaction ----

  lemma {:induction false} FindReadRedacted(pending: seq<PendingCall>, redacted: seq<PendingCall>, fp: string)
    requires |redacted| == |pending|
    requires forall i :: 0 <= i < |pending| ==>
      DurableArgs(pending[i]).Some? && redacted[i] == RedactPending(pending[i])
    ensures FindRead(pending, fp).None? ==> FindRead(redacted, fp).None?
    ensures FindRead(pending, fp).Some? ==>
      && FindRead(pending, fp).value.name == READ
      && FindRead(redacted, fp) == Some(RedactPending(FindRead(pending, fp).value))
  {
    if pending != [] {
      FindReadRedacted(pending[1..], redacted[1..], fp);
    }
  }

  lemma RedactedReservation(s: LoopState, fp: string)
    requires Redactable(s) && ReservationOf(s.pendingCalls, fp).Some?
    ensures ReservationOf(Redact(s).pendingCalls, fp) == ReservationOf(s.pendingCalls, fp)
  {
    FindReadRedacted(s.pendingCalls, Redact(s).pendingCalls, fp);
    var call := FindRead(s.pendingCalls, fp).value;
    DurableArgsIdempotent(call);
    assert IsReadInput(RedactPending(call).args);
  }

  lemma RedactKeepsHeld(s: LoopState, skill: string)
    requires Redactable(s) && ReadsTracked(s)
    ensures Held(Redact(s), skill) == Held(s, skill)
  {
    forall fp | fp in s.skillReservations
      ensures ReservationOf(Redact(s).pendingCalls, fp) == ReservationOf(s.pendingCalls, fp)
    {
      RedactedReservation(s, fp);
    }
  }

  lemma RedactKeepsAccounting(s: LoopState)
    requires Redactable(s) && ReadsTracked(s)
    ensures ReadsTracked(Redact(s)) && (HoldsBytes(Redact(s)) <==> HoldsBytes(s))
  {
    var r := Redact(s);
    forall fp | fp in s.skillReservations
      ensures ReservationOf(r.pendingCalls, fp) == ReservationOf(s.pendingCalls, fp)
      ensures Held(r, ReservationOf(s.pendingCalls, fp).value) == Held(s, ReservationOf(s.pendingCalls, fp).value)
    {
      RedactedReservation(s, fp);
      RedactKeepsHeld(s, ReservationOf(s.pendingCalls, fp).value);
    }
  }

  // ---- The bookkeeping every run keeps, whatever form the transcript has ----

  /** The bookkeeping on a loop state: the validator's checks on admitted calls, plus what they
      rest on in memory. */
  ghost predicate Booked(host: Host, s: LoopState) {
    && DisposedAgree(s)
    && FinishAgrees(s)
    && (forall c <- s.pendingCalls :: c.name != "" && Fingerprinted(host, c))
    && (forall c <- s.pendingCalls :: c.name == SCRIPT ==> host.fingerprint(c.args) == c.fingerprint)
    && (forall c <- s.completedCalls :: c.call.name != "" && Fingerprinted(host, c.call))
    && (forall c <- s.completedCalls :: c.SkillCall? <==> IsSkill(c.call.name))
  }

  lemma BookedRedactable(host: Host, s: LoopState)
    requires Booked(host, s)
    ensures Redactable(s)
  {
  }

  lemma RedactKeepsAdmissions(s: LoopState)
    requires Redactable(s)
    ensures Admitted(Redact(s)) == Admitted(s)
  {
    assert Admissions(Disposed(Redact(s))) == Admissions(Disposed(s));
  }

  lemma PendingsAcceptedIff(host: Host, s: LoopState)
    requires CollisionFree(host) && NoSelfReference(host) && Booked(host, s) && Redactable(s)
    ensures (forall c <- Redact(s).pendingCalls :: ValidPending(host, c)) <==>
            (forall c <- s.pendingCalls :: CanonicalPending(c))
  {
    var r := Redact(s).pendingCalls;
    forall i | 0 <= i < |r| ensures ValidPending(host, r[i]) <==> CanonicalPending(s.pendingCalls[i]) {
      assert s.pendingCalls[i] in s.pendingCalls;
      PendingAcceptedIff(host, s.pendingCalls[i]);
    }
    assert forall i :: 0 <= i < |r| ==> r[i] in r && s.pendingCalls[i] in s.pendingCalls;
  }

  lemma CompletedsAcceptedIff(host: Host, s: LoopState)
    requires CollisionFree(host) && Booked(host, s) && Redactable(s)
    ensures (forall c <- Redact(s).completedCalls :: ValidCompleted(host, c)) <==>
            (forall c <- s.completedCalls :: CanonicalCompleted(c.call))
  {
    var r := Redact(s).completedCalls;
    forall i | 0 <= i < |r| ensures ValidCompleted(host, r[i]) <==> CanonicalCompleted(s.completedCalls[i].call) {
      assert s.completedCalls[i] in s.completedCalls;
      CompletedAcceptedIff(host, s.completedCalls[i]);
    }
    assert forall i :: 0 <= i < |r| ==> r[i] in r && s.completedCalls[i] in s.completedCalls;
  }

  /** A state whose bookkeeping is in order has an acceptable redacted form exactly when no
      script call is pending, every skill call was made with canonical arguments, and no skill has
      only empty pages in reserve. */
  lemma RedactedFormAcceptedIff(host: Host, s: LoopState)
    requires CollisionFree(host) && NoSelfReference(host)
    requires Booked(host, s) && ReadsTracked(s)
    ensures Redactable(s)
    ensures ValidLoopState(host, Redact(s)) <==>
      && (forall c <- s.pendingCalls :: CanonicalPending(c))
      && (forall c <- s.completedCalls :: CanonicalCompleted(c.call))
      && HoldsBytes(s)
  {
    BookedRedactable(host, s);
    RedactKeepsAccounting(s);
    RedactKeepsAdmissions(s);
    PendingsAcceptedIff(host, s);
    CompletedsAcceptedIff(host, s);
  }
}
