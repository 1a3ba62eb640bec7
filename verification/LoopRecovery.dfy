/** What a resumed run does to the ledger before its agent loops start again: pending calls are
    replayed, and the completed turns of unfinished loops are put back in the transcript. */
module LoopRecovery {
  import opened Prelude
  import opened Json
  import opened Sums
  import opened LoopStates
  import opened LoopValidation
  import opened Redaction
  import opened LoopControl
  import opened LoopAccounting
  import opened LoopBookkeeping
  import opened LoopRuns

  // ---- restore_completed_turn ----

  /** Stable insertion by admission ordinal. */
  function Insert(call: PendingCall, sorted: seq<PendingCall>): seq<PendingCall> {
    if sorted == [] then [call]
    else if call.admissionOrdinal <= sorted[0].admissionOrdinal then [call] + sorted
    else [sorted[0]] + Insert(call, sorted[1..])
  }

  function SortByOrdinal(calls: seq<PendingCall>): seq<PendingCall> {
    if calls == [] then [] else Insert(calls[0], SortByOrdinal(calls[1..]))
  }

  predicate Ordered(calls: seq<PendingCall>) {
    forall i, j :: 0 <= i < j < |calls| ==> calls[i].admissionOrdinal <= calls[j].admissionOrdinal
  }

  lemma {:induction false} InsertElements(call: PendingCall, sorted: seq<PendingCall>)
    ensures multiset(Insert(call, sorted)) == multiset(sorted) + multiset{call}
  {
    if sorted != [] && call.admissionOrdinal > sorted[0].admissionOrdinal {
      InsertElements(call, sorted[1..]);
      assert sorted == [sorted[0]] + sorted[1..];
    }
  }

  lemma {:induction false} InsertOrdered(call: PendingCall, sorted: seq<PendingCall>)
    requires Ordered(sorted)
    ensures Ordered(Insert(call, sorted))
    ensures sorted != [] ==> Insert(call, sorted)[0] in [call, sorted[0]]
  {
    if sorted != [] && call.admissionOrdinal > sorted[0].admissionOrdinal {
      InsertOrdered(call, sorted[1..]);
    }
  }

  /** The turn's calls come in admission order, none lost and none added. */
  lemma {:induction false} SortKeeps(calls: seq<PendingCall>)
    ensures Ordered(SortByOrdinal(calls))
    ensures multiset(SortByOrdinal(calls)) == multiset(calls)
  {
    if calls != [] {
      SortKeeps(calls[1..]);
      InsertOrdered(calls[0], SortByOrdinal(calls[1..]));
      InsertElements(calls[0], SortByOrdinal(calls[1..]));
      assert calls == [calls[0]] + calls[1..];
    }
  }

  function OfIteration(pending: seq<PendingCall>, iteration: nat): seq<PendingCall> {
    if pending == [] then []
    else
      var rest := OfIteration(pending[1..], iteration);
      if pending[0].modelIteration == iteration then [pending[0]] + rest else rest
  }

  /** The calls of the turn: those completed, then those of the same iteration still pending. */
  function TurnInput(s: LoopState, completed: seq<(CompletedCall, Json)>): seq<PendingCall>
    requires completed != []
  {
    seq(|completed|, i requires 0 <= i < |completed| => completed[i].0.call)
    + OfIteration(s.pendingCalls, completed[0].0.call.modelIteration)
  }

  function TurnCalls(s: LoopState, completed: seq<(CompletedCall, Json)>): seq<PendingCall>
    requires completed != []
  {
    SortByOrdinal(TurnInput(s, completed))
  }

  /** One content per call, then one per response. */
  function TurnContents(s: LoopState, completed: seq<(CompletedCall, Json)>): seq<Content>
    requires completed != []
  {
    var calls := TurnCalls(s, completed);
    seq(|calls|, i requires 0 <= i < |calls| => ToolCallContent(calls[i]))
    + seq(|completed|, i requires 0 <= i < |completed| =>
        ToolResponseContent(completed[i].0.call, completed[i].1))
  }

  function RestoreTurn(s: LoopState, completed: seq<(CompletedCall, Json)>): Result<LoopState, Failure> {
    if completed == [] || exists i :: 0 <= i < |completed| && completed[i].0 !in s.completedCalls then
      Err(InvalidRunState)
    else
      Ok(s.(conversation := s.conversation + TurnContents(s, completed), conversationReconstructed := true))
  }

  lemma {:induction false} OfIterationFrom(pending: seq<PendingCall>, iteration: nat, call: PendingCall)
    requires call in OfIteration(pending, iteration)
    ensures call in pending
  {
    if call in OfIteration(pending[1..], iteration) {
      OfIterationFrom(pending[1..], iteration, call);
    }
  }

  predicate IdsSeen(s: LoopState) {
    && (forall c <- s.pendingCalls :: c.id in s.seenIds)
    && (forall c <- s.completedCalls :: c.call.id in s.seenIds)
  }

  lemma AdmittedIds(host: Host, s: LoopState)
    requires Booked(host, s)
    ensures forall a :: a in Admitted(s) ==> a.id in s.seenIds
  {
  }

  lemma DisposedAdmitted(s: LoopState, i: nat)
    requires i < |Disposed(s)|
    ensures AdmissionOf(Disposed(s)[i]) in Admitted(s)
  {
    assert Admissions(Disposed(s))[i] == AdmissionOf(Disposed(s)[i]);
  }

  lemma AdmittedIdsSeen(s: LoopState)
    requires forall a :: a in Admitted(s) ==> a.id in s.seenIds
    ensures IdsSeen(s)
  {
    forall c | c in s.pendingCalls ensures AdmissionOf(c) in Admitted(s) {
      var i :| 0 <= i < |s.pendingCalls| && s.pendingCalls[i] == c;
      DisposedAdmitted(s, i);
    }
    forall c | c in s.completedCalls ensures AdmissionOf(c.call) in Admitted(s) {
      var i :| 0 <= i < |s.completedCalls| && s.completedCalls[i] == c;
      DisposedAdmitted(s, |s.pendingCalls| + i);
    }
  }

  lemma BookedIdsSeen(host: Host, s: LoopState)
    requires Booked(host, s)
    ensures IdsSeen(s)
  {
    AdmittedIds(host, s);
    AdmittedIdsSeen(s);
  }

  lemma TurnInputAdmitted(s: LoopState, completed: seq<(CompletedCall, Json)>, i: nat)
    requires IdsSeen(s) && RestoreTurn(s, completed).Ok? && i < |TurnInput(s, completed)|
    ensures TurnInput(s, completed)[i].id in s.seenIds
  {
    var call := TurnInput(s, completed)[i];
    if i < |completed| {
      assert completed[i].0 in s.completedCalls;
    } else {
      OfIterationFrom(s.pendingCalls, completed[0].0.call.modelIteration, call);
    }
  }

  /** The first content a restored turn appends is a call the loop had admitted before. */
  lemma RestoredCallWasAdmitted(host: Host, s: LoopState, completed: seq<(CompletedCall, Json)>)
    requires Booked(host, s) && RestoreTurn(s, completed).Ok?
    ensures |TurnCalls(s, completed)| > 0 && TurnCalls(s, completed)[0].id in s.seenIds
  {
    var calls, sorted := TurnInput(s, completed), TurnCalls(s, completed);
    SortKeeps(calls);
    BookedIdsSeen(host, s);
    assert |sorted| == |multiset(sorted)| == |calls|;
    assert sorted[0] in multiset(calls);
    var i :| 0 <= i < |calls| && calls[i] == sorted[0];
    TurnInputAdmitted(s, completed, i);
  }

  lemma SeenCallRejected(host: Host, r: Replayed, call: PendingCall)
    requires call.id in r.seenIds
    ensures ReplayContent(host, r, ToolCallContent(call)).None?
  {
    var parts := ToolCallContent(call).parts;
    assert parts[..0] == [];
    forall q: Replayed | q.seenIds == r.seenIds ensures ReplayParts(host, q, parts).None? {
      assert ReplayParts(host, q, parts[..|parts| - 1]) == Some(q);
    }
  }

  /** Putting a completed turn back into a kept transcript repeats calls it already holds: the
      state is no longer one that `valid_loop_state` accepts. */
  lemma RestoredTurnInvalid(host: Host, s: LoopState, completed: seq<(CompletedCall, Json)>)
    requires RawFit(host, s) && RestoreTurn(s, completed).Ok?
    ensures !ValidLoopState(host, RestoreTurn(s, completed).value)
  {
    var t := RestoreTurn(s, completed).value;
    RestoredCallWasAdmitted(host, s, completed);
    var first := TurnCalls(s, completed)[0];
    var k := |s.conversation|;
    assert t.conversation[..k + 1] == s.conversation + [ToolCallContent(first)];
    SeenCallRejected(host, Replay(host, s.conversation).value, first);
    ReplaySnoc(host, s.conversation, ToolCallContent(first));
    Rejected(host, t.conversation, k + 1);
  }

  /** Without a transcript the restored turn changes nothing that the next persist writes. */
  lemma RestoredTurnKeepsRedacted(s: LoopState, completed: seq<(CompletedCall, Json)>)
    requires Redactable(s) && RestoreTurn(s, completed).Ok?
    ensures var t := RestoreTurn(s, completed).value;
            Redactable(t) && Redact(t) == Redact(s).(conversationReconstructed := true)
  {
    var t := RestoreTurn(s, completed).value;
    assert Redact(t).pendingCalls == Redact(s).pendingCalls;
    assert Redact(t).completedCalls == Redact(s).completedCalls;
  }

  // ---- complete_pending over a kept transcript ----

  lemma {:induction false} SeenInParts(host: Host, r: Replayed, parts: seq<Part>, id: string)
    requires ReplayParts(host, r, parts).Some? && id in ReplayParts(host, r, parts).value.seenIds
    ensures id in r.seenIds || FindCallPart(parts, id).Some?
  {
    if parts != [] {
      var front := parts[..|parts| - 1];
      if id in ReplayParts(host, r, front).value.seenIds {
        SeenInParts(host, r, front, id);
      }
    }
  }

  /** Every admitted id is in the transcript. */
  lemma {:induction false} SeenMentioned(host: Host, conversation: seq<Content>, id: string)
    requires Replay(host, conversation).Some? && id in Replay(host, conversation).value.seenIds
    ensures MentionsCall(conversation, id)
  {
    var front, last := conversation[..|conversation| - 1], conversation[|conversation| - 1];
    var before := Replay(host, front).value;
    SeenInParts(host, CountTurn(host, before, last).value, last.parts, id);
    if id in before.seenIds {
      SeenMentioned(host, front, id);
      var k :| 0 <= k < |front| && FindCallPart(front[k].parts, id).Some?;
      assert conversation[k] == front[k];
    }
  }

  /** A replay that succeeds answers the pending call it was made for. */
  lemma ReplayAnswers(host: Host, s: LoopState, otherBytes: nat, call: PendingCall, response: Json, maxOutputBytes: nat)
    returns (i: nat)
    requires CompletePending(host, s, otherBytes, call, response, maxOutputBytes).1.None?
    ensures var t := CompletePending(host, s, otherBytes, call, response, maxOutputBytes).0;
            && Answers(host, s, s, i, response, t) && SameCall(s.pendingCalls[i], call)
            && t.conversation == Answered(s.conversation, s.pendingCalls[i], response)
    ensures var pending := s.pendingCalls[i];
            pending.name == READ ==>
              && IsReadInput(pending.args) && pending.fingerprint in s.skillReservations
              && PageByteLen(response) == Some(s.skillReservations[pending.fingerprint])
  {
    i := PositionOf(s.pendingCalls, call).value;
  }

  lemma PendingMentioned(host: Host, s: LoopState, i: nat)
    requires RawFit(host, s) && i < |s.pendingCalls|
    ensures MentionsCall(s.conversation, s.pendingCalls[i].id)
  {
    PendingUnanswered(host, s, i);
    SeenMentioned(host, s.conversation, s.pendingCalls[i].id);
  }

  /** Replaying a pending call leaves an acceptable state exactly when its bytes can be counted and
      the other reads of its skill still hold some. */
  lemma CompletePendingValidIff(host: Host, s: LoopState, otherBytes: nat, call: PendingCall,
                                response: Json, maxOutputBytes: nat)
    requires RawFit(host, s)
    requires CompletePending(host, s, otherBytes, call, response, maxOutputBytes).1.None?
    ensures var t := CompletePending(host, s, otherBytes, call, response, maxOutputBytes).0;
            var good := GoodAnswer(host, s, s, call.name, call.fingerprint, response);
            (ValidLoopState(host, t) <==> good) && (good ==> RawFit(host, t))
  {
    var i := ReplayAnswers(host, s, otherBytes, call, response, maxOutputBytes);
    PendingMentioned(host, s, i);
    AnsweredValidIff(host, s, s, i, response, CompletePending(host, s, otherBytes, call, response, maxOutputBytes).0);
  }

  // ---- No two pending calls are the same call ----

  function Pairs(admitted: seq<Admission>): set<(string, string)> {
    set a | a in admitted :: (a.name, a.fingerprint)
  }

  lemma {:induction false} PairsAtMost(admitted: seq<Admission>)
    ensures |Pairs(admitted)| <= |admitted|
  {
    if admitted != [] {
      var front, last := admitted[..|admitted| - 1], admitted[|admitted| - 1];
      PairsAtMost(front);
      assert admitted == front + [last];
      assert Pairs(admitted) == Pairs(front) + {(last.name, last.fingerprint)};
    }
  }

  lemma AsManyPairsMeansDistinct(admitted: seq<Admission>, i: nat, j: nat)
    requires |Pairs(admitted)| == |admitted| && i < j < |admitted|
    ensures (admitted[i].name, admitted[i].fingerprint) != (admitted[j].name, admitted[j].fingerprint)
  {
    if (admitted[i].name, admitted[i].fingerprint) == (admitted[j].name, admitted[j].fingerprint) {
      var others := admitted[..j] + admitted[j + 1..];
      forall a | a in admitted ensures (a.name, a.fingerprint) in Pairs(others) {
        var k :| 0 <= k < |admitted| && admitted[k] == a;
        var at := if k == j then i else if k < j then k else k - 1;
        assert others[at] in others;
      }
      assert Pairs(admitted) == Pairs(others);
      PairsAtMost(others);
    }
  }

  lemma AdmittedPairs(host: Host, s: LoopState)
    requires Booked(host, s)
    ensures |Pairs(Admissions(Disposed(s)))| == |Disposed(s)|
  {
    var m := Admitted(s);
    assert Pairs(Admissions(Disposed(s))) == set a | a in m :: (a.name, a.fingerprint);
    assert |m| == |Admissions(Disposed(s))|;
  }

  lemma BookedDistinctPairs(host: Host, s: LoopState)
    requires Booked(host, s)
    ensures DistinctPairs(s.pendingCalls)
  {
    AdmittedPairs(host, s);
    DistinctFrom(s);
  }

  lemma DistinctFrom(s: LoopState)
    requires |Pairs(Admissions(Disposed(s)))| == |Disposed(s)|
    ensures DistinctPairs(s.pendingCalls)
  {
    forall i, j | 0 <= i < j < |s.pendingCalls|
      ensures !(s.pendingCalls[i].name == s.pendingCalls[j].name
                && s.pendingCalls[i].fingerprint == s.pendingCalls[j].fingerprint)
    {
      AsManyPairsMeansDistinct(Admissions(Disposed(s)), i, j);
    }
  }

  /** A reserved page is within the charge of the skill that reads it. */
  lemma ReservedIsCharged(s: LoopState, i: nat)
    requires ReadsTracked(s) && DistinctPairs(s.pendingCalls)
    requires i < |s.pendingCalls| && s.pendingCalls[i].name == READ
    requires s.pendingCalls[i].fingerprint in s.skillReservations
    ensures IsReadInput(s.pendingCalls[i].args)
    ensures s.skillReservations[s.pendingCalls[i].fingerprint] <=
      CountOf(s.skillReadBytes, SkillId(s.pendingCalls[i].args))
  {
    var fp := s.pendingCalls[i].fingerprint;
    FindReadFirst(s.pendingCalls, i);
    var skill := ReservationOf(s.pendingCalls, fp).value;
    SumMember(Held(s, skill), fp);
    ReservedWithinCharge(s, skill);
  }

  lemma DistinctAllOrNothing(host: Host, s: LoopState, otherBytes: nat, call: PendingCall,
                             response: Json, maxOutputBytes: nat)
    requires ReadsTracked(s) && DistinctPairs(s.pendingCalls)
    ensures var (t, failure) := CompletePending(host, s, otherBytes, call, response, maxOutputBytes);
            failure.Some? ==> t == s
  {
    var position := PositionOf(s.pendingCalls, call);
    if position.Some? && s.pendingCalls[position.value].name == READ
       && s.pendingCalls[position.value].fingerprint in s.skillReservations {
      ReservedIsCharged(s, position.value);
    }
  }

  /** In a loop whose books are in order, replaying a pending call either completes it or leaves
      the store exactly as it was: the checks made after the move cannot fail. */
  lemma CompletePendingAllOrNothing(host: Host, s: LoopState, otherBytes: nat, call: PendingCall,
                                    response: Json, maxOutputBytes: nat)
    requires Booked(host, s) && ReadsTracked(s)
    ensures var (t, failure) := CompletePending(host, s, otherBytes, call, response, maxOutputBytes);
            failure.Some? ==> t == s
  {
    BookedDistinctPairs(host, s);
    DistinctAllOrNothing(host, s, otherBytes, call, response, maxOutputBytes);
  }

  /** The pending call `p` is the one replayed, and a read gets the page reserved for it. */
  predicate Replayable(s: LoopState, p: PendingCall, call: PendingCall, response: Json) {
    && SameCall(p, call)
    && (p.name == READ ==>
          p.fingerprint in s.skillReservations && PageByteLen(response) == Some(s.skillReservations[p.fingerprint]))
  }

  lemma {:induction false} PositionOfSome(pending: seq<PendingCall>, call: PendingCall)
    ensures PositionOf(pending, call).Some? <==> exists p <- pending :: SameCall(p, call)
  {
    if pending != [] {
      PositionOfSome(pending[1..], call);
      assert pending == [pending[0]] + pending[1..];
    }
  }

  predicate Fits(host: Host, s: LoopState, otherBytes: nat, response: Json, maxOutputBytes: nat) {
    otherBytes + s.toolOutputBytes + host.size(response) <= maxOutputBytes || U64_MAX <= maxOutputBytes
  }

  /** The checks after the move cannot fail for a page that was reserved. */
  lemma AtPosition(host: Host, s: LoopState, otherBytes: nat, call: PendingCall, response: Json, maxOutputBytes: nat, i: nat)
    requires PositionOf(s.pendingCalls, call) == Some(i) && i < |s.pendingCalls|
    requires Fits(host, s, otherBytes, response, maxOutputBytes)
    requires s.pendingCalls[i].name == READ && s.pendingCalls[i].fingerprint in s.skillReservations ==>
      && IsReadInput(s.pendingCalls[i].args)
      && s.skillReservations[s.pendingCalls[i].fingerprint] <= CountOf(s.skillReadBytes, SkillId(s.pendingCalls[i].args))
    ensures CompletePending(host, s, otherBytes, call, response, maxOutputBytes).1 ==
      if Replayable(s, s.pendingCalls[i], call, response) then None else Some(InvalidRunState)
  {
  }

  lemma NotAtAll(host: Host, s: LoopState, otherBytes: nat, call: PendingCall, response: Json, maxOutputBytes: nat)
    requires !Fits(host, s, otherBytes, response, maxOutputBytes) || PositionOf(s.pendingCalls, call).None?
    ensures CompletePending(host, s, otherBytes, call, response, maxOutputBytes).1 ==
      Some(if Fits(host, s, otherBytes, response, maxOutputBytes) then InvalidRunState else ToolOutputBytesLimit)
  {
  }

  lemma FirstDecides(host: Host, s: LoopState, otherBytes: nat, call: PendingCall, response: Json, maxOutputBytes: nat)
    requires ReadsTracked(s) && DistinctPairs(s.pendingCalls)
    ensures CompletePending(host, s, otherBytes, call, response, maxOutputBytes).1 ==
      var position := PositionOf(s.pendingCalls, call);
      if !Fits(host, s, otherBytes, response, maxOutputBytes) then Some(ToolOutputBytesLimit)
      else if position.Some? && Replayable(s, s.pendingCalls[position.value], call, response) then None
      else Some(InvalidRunState)
  {
    var position := PositionOf(s.pendingCalls, call);
    if position.None? || !Fits(host, s, otherBytes, response, maxOutputBytes) {
      NotAtAll(host, s, otherBytes, call, response, maxOutputBytes);
    } else {
      var pending := s.pendingCalls[position.value];
      if pending.name == READ && pending.fingerprint in s.skillReservations {
        ReservedIsCharged(s, position.value);
      }
      AtPosition(host, s, otherBytes, call, response, maxOutputBytes, position.value);
    }
  }

  /** It completes exactly when the call is still pending, a read gets its reserved page, and the output
      of all nodes stays within the limit; and the failure says which it was. */
  lemma CompletePendingIff(host: Host, s: LoopState, otherBytes: nat, call: PendingCall,
                           response: Json, maxOutputBytes: nat)
    requires Booked(host, s) && ReadsTracked(s)
    ensures var failure := CompletePending(host, s, otherBytes, call, response, maxOutputBytes).1;
            var fits := Fits(host, s, otherBytes, response, maxOutputBytes);
            && (failure == Some(ToolOutputBytesLimit) <==> !fits)
            && (failure == Some(InvalidRunState) <==>
                  fits && forall p <- s.pendingCalls :: !Replayable(s, p, call, response))
            && (failure == None <==> fits && exists p <- s.pendingCalls :: Replayable(s, p, call, response))
  {
    BookedDistinctPairs(host, s);
    PositionOfSome(s.pendingCalls, call);
    FirstDecides(host, s, otherBytes, call, response, maxOutputBytes);
    var position := PositionOf(s.pendingCalls, call);
    if position.Some? {
      OnlyReplayable(s, position.value, call, response);
    }
  }

  lemma OnlyReplayable(s: LoopState, i: nat, call: PendingCall, response: Json)
    requires DistinctPairs(s.pendingCalls) && i < |s.pendingCalls| && SameCall(s.pendingCalls[i], call)
    ensures Replayable(s, s.pendingCalls[i], call, response) <==>
      exists p <- s.pendingCalls :: Replayable(s, p, call, response)
  {
    if p :| p in s.pendingCalls && Replayable(s, p, call, response) {
      var j :| 0 <= j < |s.pendingCalls| && s.pendingCalls[j] == p;
      assert i == j;
    }
    assert s.pendingCalls[i] in s.pendingCalls;
  }
}
