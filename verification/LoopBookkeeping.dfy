/** The bookkeeping invariant of an agent loop: every step of the controller and of the ledger
    keeps ids, call pairs, ordinals and counters in agreement, in raw and in redacted runs. */
module LoopBookkeeping {
  import opened Prelude
  import opened Json
  import opened Sums
  import opened LoopStates
  import opened LoopValidation
  import opened Redaction
  import opened LoopControl
  import opened LoopAccounting

  lemma AdmissionsConcat(a: seq<PendingCall>, b: seq<PendingCall>)
    ensures Admissions(a + b) == Admissions(a) + Admissions(b)
  {
  }

  lemma AdmittedSplit(s: LoopState)
    ensures Admitted(s) == multiset(Admissions(s.pendingCalls)) + multiset(Admissions(Calls(s.completedCalls)))
  {
    AdmissionsConcat(s.pendingCalls, Calls(s.completedCalls));
  }

  /** The bookkeeping of a turn under way, whose calls already carry the next iteration number. */
  ghost predicate Booking(host: Host, s: LoopState, iterations: nat) {
    && CountsAgree(s.toolCalls, s.totalToolCalls)
    && AdmissionsAgree(Admitted(s), iterations, s.totalToolCalls, s.seenIds, s.seenCalls)
    && CallsBooked(host, s)
  }

  ghost predicate CallsBooked(host: Host, s: LoopState) {
    && (forall c <- s.pendingCalls :: c.name != "" && Fingerprinted(host, c))
    && (forall c <- s.pendingCalls :: c.name == SCRIPT ==> host.fingerprint(c.args) == c.fingerprint)
    && (forall c <- s.completedCalls :: c.call.name != "" && Fingerprinted(host, c.call))
    && (forall c <- s.completedCalls :: c.SkillCall? <==> IsSkill(c.call.name))
  }

  lemma BookedIsBooking(host: Host, s: LoopState)
    ensures Booked(host, s) <==> Booking(host, s, s.modelIterations) && FinishAgrees(s)
  {
  }

  lemma LaterIteration(host: Host, s: LoopState, i: nat, j: nat)
    requires Booking(host, s, i) && i <= j
    ensures Booking(host, s, j)
  {
  }

  /** The ordinals, ids and call pairs of one more admission. */
  lemma OneMoreOrdinal(m: multiset<Admission>, a: Admission)
    ensures (set x | x in m + multiset{a} :: x.ordinal) == (set x | x in m :: x.ordinal) + {a.ordinal}
  {
    assert forall x :: x in m + multiset{a} <==> x in m || x == a;
  }

  lemma OneMoreId(m: multiset<Admission>, a: Admission)
    ensures (set x | x in m + multiset{a} :: x.id) == (set x | x in m :: x.id) + {a.id}
  {
    assert forall x :: x in m + multiset{a} <==> x in m || x == a;
  }

  lemma OneMorePair(m: multiset<Admission>, a: Admission)
    ensures (set x | x in m + multiset{a} :: (x.name, x.fingerprint)) ==
      (set x | x in m :: (x.name, x.fingerprint)) + {(a.name, a.fingerprint)}
  {
    assert forall x :: x in m + multiset{a} <==> x in m || x == a;
  }

  /** Adding one admission with fresh id, fresh pair and the next ordinal. */
  lemma OneMoreAdmission(m: multiset<Admission>, a: Admission, iterations: nat, total: nat,
                         seenIds: set<string>, seenCalls: set<(string, string)>)
    requires AdmissionsAgree(m, iterations, total, seenIds, seenCalls)
    requires a.id !in seenIds && a.id != "" && a.name != "" && a.fingerprint != ""
    requires (a.name, a.fingerprint) !in seenCalls
    requires a.ordinal == total + 1 && 0 < a.iteration <= iterations
    ensures AdmissionsAgree(m + multiset{a}, iterations, total + 1,
                            seenIds + {a.id}, seenCalls + {(a.name, a.fingerprint)})
  {
    OneMoreOrdinal(m, a);
    OneMoreId(m, a);
    OneMorePair(m, a);
  }

  lemma AdmittedSnoc(s: LoopState, t: LoopState, call: PendingCall)
    requires t.pendingCalls == s.pendingCalls + [call] && t.completedCalls == s.completedCalls
    ensures Admitted(t) == Admitted(s) + multiset{AdmissionOf(call)}
  {
    AdmittedSplit(s);
    AdmittedSplit(t);
    AdmissionsConcat(s.pendingCalls, [call]);
  }

  lemma CountOneMore(counts: map<string, nat>, total: nat, name: string)
    requires CountsAgree(counts, total) && total < U64_MAX && name != ""
    ensures CountsAgree(counts[name := CountOf(counts, name) + 1], total + 1)
  {
    SumUpdate(counts, name, CountOf(counts, name) + 1);
  }

  /** `s` with one more pending call on the books. */
  function WithCall(s: LoopState, call: PendingCall): LoopState {
    s.(seenIds := s.seenIds + {call.id}, seenCalls := s.seenCalls + {(call.name, call.fingerprint)},
       totalToolCalls := s.totalToolCalls + 1, pendingCalls := s.pendingCalls + [call],
       toolCalls := s.toolCalls[call.name := CountOf(s.toolCalls, call.name) + 1])
  }

  lemma WithCallAgrees(s: LoopState, iterations: nat, call: PendingCall)
    requires AdmissionsAgree(Admitted(s), iterations, s.totalToolCalls, s.seenIds, s.seenCalls)
    requires call.id !in s.seenIds && call.id != "" && call.name != "" && call.fingerprint != ""
    requires (call.name, call.fingerprint) !in s.seenCalls
    requires call.admissionOrdinal == s.totalToolCalls + 1 && 0 < call.modelIteration <= iterations
    ensures var t := WithCall(s, call);
            AdmissionsAgree(Admitted(t), iterations, t.totalToolCalls, t.seenIds, t.seenCalls)
  {
    var a := AdmissionOf(call);
    AdmittedSnoc(s, WithCall(s, call), call);
    OneMoreAdmission(Admitted(s), a, iterations, s.totalToolCalls, s.seenIds, s.seenCalls);
  }

  lemma WithCallCalls(host: Host, s: LoopState, call: PendingCall)
    requires CallsBooked(host, s) && call.name != "" && host.fingerprint(call.args) == call.fingerprint
    ensures CallsBooked(host, WithCall(s, call))
  {
  }

  lemma WithCallCounts(s: LoopState, call: PendingCall)
    requires CountsAgree(s.toolCalls, s.totalToolCalls) && s.totalToolCalls < U64_MAX && call.name != ""
    ensures CountsAgree(WithCall(s, call).toolCalls, WithCall(s, call).totalToolCalls)
  {
    CountOneMore(s.toolCalls, s.totalToolCalls, call.name);
  }

  lemma WithCallBooked(host: Host, s: LoopState, iterations: nat, call: PendingCall)
    requires Booking(host, s, iterations) && s.totalToolCalls < U64_MAX
    requires call.id !in s.seenIds && call.id != "" && call.name != "" && call.fingerprint != ""
    requires (call.name, call.fingerprint) !in s.seenCalls
    requires call.admissionOrdinal == s.totalToolCalls + 1 && 0 < call.modelIteration <= iterations
    requires host.fingerprint(call.args) == call.fingerprint
    ensures Booking(host, WithCall(s, call), iterations)
  {
    WithCallCounts(s, call);
    WithCallAgrees(s, iterations, call);
    WithCallCalls(host, s, call);
  }

  /** The call an admitted function call part becomes. */
  function NewCall(host: Host, s: LoopState, name: string, args: Json, id: string): PendingCall {
    PendingCall(id, name, args, host.fingerprint(args), s.modelIterations + 1, s.totalToolCalls + 1, None)
  }

  lemma AdmitCallIs(host: Host, allowed: set<string>, s: LoopState, name: string, args: Json, id: Option<string>)
    requires AdmitCall(host, allowed, s, name, args, id).Ok? && s.totalToolCalls < U64_MAX
    ensures id.Some? && id.value != "" && name in allowed && args.Obj?
    ensures id.value !in s.seenIds && (name, host.fingerprint(args)) !in s.seenCalls
    ensures AdmitCall(host, allowed, s, name, args, id) == Ok(WithCall(s, NewCall(host, s, name, args, id.value)))
  {
  }

  /** The tool calls among the parts of a response. */
  function CallCount(parts: seq<Part>): nat {
    if parts == [] then 0
    else CallCount(parts[..|parts| - 1]) + if parts[|parts| - 1].FunctionCall? then 1 else 0
  }

  /** The calls of a response can be counted in 64 bits. */
  predicate CallsFit(s: LoopState, content: Content) {
    s.totalToolCalls + CallCount(content.parts) <= U64_MAX
  }

  /** What admitting calls leaves alone, and the queue it extends by one entry per call. */
  lemma {:induction false} AdmitPartsFrame(host: Host, allowed: set<string>, s: LoopState, parts: seq<Part>)
    requires AdmitParts(host, allowed, s, parts).Ok?
    ensures var t := AdmitParts(host, allowed, s, parts).value;
            && t == s.(seenIds := t.seenIds, seenCalls := t.seenCalls, totalToolCalls := t.totalToolCalls,
                       toolCalls := t.toolCalls, pendingCalls := t.pendingCalls)
            && s.pendingCalls <= t.pendingCalls && |t.pendingCalls| == |s.pendingCalls| + CallCount(parts)
  {
    if parts != [] {
      AdmitPartsFrame(host, allowed, s, parts[..|parts| - 1]);
    }
  }

  lemma {:induction false} AdmitPartsBooked(host: Host, allowed: set<string>, s: LoopState, iterations: nat,
                                            parts: seq<Part>)
    requires Booking(host, s, iterations) && iterations == s.modelIterations + 1
    requires (forall a :: host.fingerprint(a) != "") && "" !in allowed
    requires AdmitParts(host, allowed, s, parts).Ok? && s.totalToolCalls + CallCount(parts) <= U64_MAX
    ensures var t := AdmitParts(host, allowed, s, parts).value;
            Booking(host, t, iterations) && t.totalToolCalls == s.totalToolCalls + CallCount(parts)
  {
    if parts != [] {
      var front, part := parts[..|parts| - 1], parts[|parts| - 1];
      var before := AdmitParts(host, allowed, s, front).value;
      AdmitPartsBooked(host, allowed, s, iterations, front);
      if part.FunctionCall? {
        AdmitPartsFrame(host, allowed, s, front);
        AdmitCallIs(host, allowed, before, part.name, part.args, part.id);
        WithCallBooked(host, before, iterations, NewCall(host, before, part.name, part.args, part.id.value));
      }
    }
  }

  lemma {:induction false} AdmitNoCalls(host: Host, allowed: set<string>, s: LoopState, parts: seq<Part>)
    requires forall i :: 0 <= i < |parts| ==> !parts[i].FunctionCall?
    ensures AdmitParts(host, allowed, s, parts) == Ok(s)
  {
    if parts != [] {
      AdmitNoCalls(host, allowed, s, parts[..|parts| - 1]);
    }
  }

  lemma FinishHasNoCalls(host: Host, allowed: set<string>, s: LoopState, content: Content)
    requires IsFinish(host, content)
    ensures AdmitParts(host, allowed, s, content.parts) == Ok(s)
  {
    AdmitNoCalls(host, allowed, s, content.parts);
  }

  lemma AdmittedCount(s: LoopState)
    ensures |Admitted(s)| == |s.pendingCalls| + |s.completedCalls|
  {
    assert |Admissions(Disposed(s))| == |Disposed(s)|;
  }

  /** What a model turn leaves alone, and the queue it only extends. */
  lemma TurnFrame(host: Host, allowed: set<string>, s: LoopState, content: Content, interactionId: Option<string>)
    requires ModelTurn(host, allowed, s, content, interactionId).Ok?
    ensures var next := ModelTurn(host, allowed, s, content, interactionId).value;
            && next.conversation == s.conversation + [content]
            && next.conversationReconstructed == s.conversationReconstructed
            && next.modelIterations == s.modelIterations + 1
            && next.toolOutputBytes == s.toolOutputBytes
            && s.pendingCalls <= next.pendingCalls
            && |next.pendingCalls| == |s.pendingCalls| + CallCount(content.parts)
            && next.completedCalls == s.completedCalls
            && next.skillReadBytes == s.skillReadBytes && next.skillReservations == s.skillReservations
  {
    AdmitPartsFrame(host, allowed, s, content.parts);
  }

  /** Calls past the ceiling are not counted, so the books no longer agree. */
  lemma OverflowIsNotBooked(host: Host, allowed: set<string>, s: LoopState, content: Content,
                            interactionId: Option<string>)
    requires Booked(host, s) && ModelTurn(host, allowed, s, content, interactionId).Ok? && !CallsFit(s, content)
    ensures !DisposedAgree(ModelTurn(host, allowed, s, content, interactionId).value)
  {
    var next := ModelTurn(host, allowed, s, content, interactionId).value;
    TurnFrame(host, allowed, s, content, interactionId);
    AdmittedCount(s);
    AdmittedCount(next);
  }

  lemma EndKeepsBooking(host: Host, s: LoopState, content: Content, finish: Option<Json>, interactionId: Option<string>)
    requires Booking(host, s, s.modelIterations + 1)
    ensures var next := EndTurn(s, content, finish, interactionId); Booking(host, next, next.modelIterations)
  {
    assert Admitted(EndTurn(s, content, finish, interactionId)) == Admitted(s);
  }

  lemma TurnBooking(host: Host, allowed: set<string>, s: LoopState, content: Content, interactionId: Option<string>)
    requires Booking(host, s, s.modelIterations + 1) && CallsFit(s, content)
    requires (forall a :: host.fingerprint(a) != "") && "" !in allowed
    requires ModelTurn(host, allowed, s, content, interactionId).Ok?
    ensures var next := ModelTurn(host, allowed, s, content, interactionId).value;
            Booking(host, next, next.modelIterations)
  {
    AdmitPartsBooked(host, allowed, s, s.modelIterations + 1, content.parts);
    AdmitPartsFrame(host, allowed, s, content.parts);
    EndKeepsBooking(host, AdmitParts(host, allowed, s, content.parts).value, content,
                    AdmittedFinish(host, content).value, interactionId);
  }

  /** A turn keeps the books in order exactly when it does not finish the loop while calls are still
      pending, and its calls can be counted. */
  lemma ModelTurnBookedIff(host: Host, allowed: set<string>, s: LoopState, content: Content,
                           interactionId: Option<string>)
    requires Booked(host, s)
    requires (forall a :: host.fingerprint(a) != "") && "" !in allowed
    requires ModelTurn(host, allowed, s, content, interactionId).Ok?
    ensures Booked(host, ModelTurn(host, allowed, s, content, interactionId).value) <==>
      CallsFit(s, content) && (IsFinish(host, content) ==> s.pendingCalls == [])
  {
    var next := ModelTurn(host, allowed, s, content, interactionId).value;
    if CallsFit(s, content) {
      LaterIteration(host, s, s.modelIterations, s.modelIterations + 1);
      TurnBooking(host, allowed, s, content, interactionId);
      BookedIsBooking(host, next);
      if IsFinish(host, content) {
        FinishHasNoCalls(host, allowed, s, content);
      }
    } else {
      OverflowIsNotBooked(host, allowed, s, content, interactionId);
    }
  }

  /** Completing a call moves it, and moves nothing else. */
  lemma CompleteKeepsAdmissions(host: Host, s: LoopState, i: nat, response: Json)
    requires i < |s.pendingCalls|
    ensures Admitted(Complete(host, s, i, response)) == Admitted(s)
  {
    var t := Complete(host, s, i, response);
    var call := s.pendingCalls[i];
    var before, after := s.pendingCalls[..i], s.pendingCalls[i + 1..];
    assert s.pendingCalls == before + ([call] + after);
    assert Calls(t.completedCalls) == Calls(s.completedCalls) + [Completed(call, response).call];
    assert AdmissionOf(Completed(call, response).call) == AdmissionOf(call);
    AdmittedSplit(s);
    AdmittedSplit(t);
    AdmissionsConcat(before, after);
    AdmissionsConcat(before, [call] + after);
    AdmissionsConcat([call], after);
    AdmissionsConcat(Calls(s.completedCalls), [Completed(call, response).call]);
    assert Admissions([Completed(call, response).call]) == [AdmissionOf(call)] == Admissions([call]);
  }

  lemma CompleteBooked(host: Host, s: LoopState, i: nat, response: Json)
    requires Booked(host, s) && i < |s.pendingCalls|
    ensures Booked(host, Complete(host, s, i, response))
  {
    CompleteKeepsAdmissions(host, s, i, response);
    assert s.pendingCalls[i] in s.pendingCalls;
  }

  /** The books depend on neither the transcript nor the skill charges. */
  lemma BookedFrame(host: Host, s: LoopState, t: LoopState)
    requires Booked(host, s)
    requires t == s.(conversation := t.conversation, conversationReconstructed := t.conversationReconstructed,
                     previousResponseId := t.previousResponseId, toolOutputBytes := t.toolOutputBytes,
                     activatedSkills := t.activatedSkills, skillReadBytes := t.skillReadBytes,
                     skillReservations := t.skillReservations, finishedOutput := t.finishedOutput)
    ensures Booked(host, t)
  {
    assert Admitted(t) == Admitted(s);
  }

  // ---- Replaying a pending call ----

  lemma {:induction false} FindReadFirst(pending: seq<PendingCall>, i: nat)
    requires i < |pending| && pending[i].name == READ
    ensures FindRead(pending, pending[i].fingerprint).Some?
    ensures (forall j :: 0 <= j < i ==> !(pending[j].name == READ && pending[j].fingerprint == pending[i].fingerprint))
      ==> FindRead(pending, pending[i].fingerprint) == Some(pending[i])
  {
    if i > 0 {
      FindReadFirst(pending[1..], i - 1);
      assert pending[1..][i - 1] == pending[i];
      assert forall j :: 0 <= j < i - 1 ==> pending[1..][j] == pending[j + 1];
    }
  }

  ghost predicate DistinctPairs(pending: seq<PendingCall>) {
    forall i, j :: 0 <= i < j < |pending| ==>
      !(pending[i].name == pending[j].name && pending[i].fingerprint == pending[j].fingerprint)
  }

  lemma CompletePendingMoves(host: Host, s: LoopState, otherBytes: nat, call: PendingCall,
                             response: Json, maxOutputBytes: nat)
    ensures var t := CompletePending(host, s, otherBytes, call, response, maxOutputBytes).0;
            var i := PositionOf(s.pendingCalls, call);
            || t == s
            || (i.Some? && t == Complete(host, s, i.value, response).(
                  conversation := t.conversation, skillReservations := t.skillReservations))
  {
  }

  lemma CompletePendingBooked(host: Host, s: LoopState, otherBytes: nat, call: PendingCall,
                              response: Json, maxOutputBytes: nat)
    requires Booked(host, s)
    ensures Booked(host, CompletePending(host, s, otherBytes, call, response, maxOutputBytes).0)
  {
    var t := CompletePending(host, s, otherBytes, call, response, maxOutputBytes).0;
    CompletePendingMoves(host, s, otherBytes, call, response, maxOutputBytes);
    if t != s {
      var i := PositionOf(s.pendingCalls, call).value;
      CompleteBooked(host, s, i, response);
      BookedFrame(host, Complete(host, s, i, response), t);
    }
  }

  // ---- Redaction and reopening ----

  lemma AcceptedPendingBooked(host: Host, call: PendingCall)
    requires call.name != "" && ValidPending(host, RedactPending(call))
    ensures Fingerprinted(host, RedactPending(call))
    ensures call.name == SCRIPT ==> host.fingerprint(RedactPending(call).args) == call.fingerprint
  {
  }

  lemma AcceptedCompletedBooked(host: Host, completed: CompletedCall)
    requires completed.call.name != "" && (completed.SkillCall? <==> IsSkill(completed.call.name))
    requires ValidCompleted(host, RedactCompleted(completed))
    ensures Fingerprinted(host, RedactCompleted(completed).call)
  {
    DurableArgsIdempotent(completed.call);
    if IsScriptInput(completed.call.args) && completed.call.name == SCRIPT {
      var args := RedactCompleted(completed).call.args;
      assert args.fields.Keys == {"skill_id", "script_id", FINGERPRINT};
      assert |args.fields| == |args.fields.Keys| == 3;
    }
  }

  /** A redacted form that a reopening accepts is again a state with its books in order. */
  lemma AcceptedRedactionBooked(host: Host, s: LoopState)
    requires Booked(host, s) && Redactable(s)
    requires forall c <- Redact(s).pendingCalls :: ValidPending(host, c)
    requires forall c <- Redact(s).completedCalls :: ValidCompleted(host, c)
    ensures Booked(host, Redact(s))
  {
    var r := Redact(s);
    RedactKeepsAdmissions(s);
    forall i | 0 <= i < |r.pendingCalls|
      ensures r.pendingCalls[i].name != "" && Fingerprinted(host, r.pendingCalls[i])
      ensures r.pendingCalls[i].name == SCRIPT ==>
                host.fingerprint(r.pendingCalls[i].args) == r.pendingCalls[i].fingerprint
    {
      assert s.pendingCalls[i] in s.pendingCalls && r.pendingCalls[i] in r.pendingCalls;
      AcceptedPendingBooked(host, s.pendingCalls[i]);
    }
    forall i | 0 <= i < |r.completedCalls|
      ensures r.completedCalls[i].call.name != "" && Fingerprinted(host, r.completedCalls[i].call)
      ensures r.completedCalls[i].SkillCall? <==> IsSkill(r.completedCalls[i].call.name)
    {
      assert s.completedCalls[i] in s.completedCalls && r.completedCalls[i] in r.completedCalls;
      AcceptedCompletedBooked(host, s.completedCalls[i]);
    }
  }
}
