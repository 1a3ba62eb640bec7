/** `valid_loop_state` as the code performs it, with its loops and early exits. */
module Validator {
  import opened Prelude
  import opened Json
  import opened Sums
  import opened LoopStates
  import opened LoopValidation
  import opened Redaction
  import opened LoopAccounting

  // ---- Skill read accounting ----

  method FindPendingRead(pending: seq<PendingCall>, fingerprint: string) returns (call: Option<PendingCall>)
    ensures call == FindRead(pending, fingerprint)
  {
    for i := 0 to |pending|
      invariant FindRead(pending, fingerprint) == FindRead(pending[i..], fingerprint)
    {
      if pending[i].name == READ && pending[i].fingerprint == fingerprint {
        return Some(pending[i]);
      }
      assert pending[i..][1..] == pending[i + 1..];
    }
    call := None;
  }

  method CheckCharges(charged: map<string, nat>) returns (ok: bool)
    ensures ok <==> forall skill <- charged :: skill != "" && charged[skill] <= SKILL_RESOURCE_READ_LIMIT
  {
    var remaining := charged.Keys;
    while remaining != {}
      invariant remaining <= charged.Keys
      invariant forall skill <- charged :: skill !in remaining ==> skill != "" && charged[skill] <= SKILL_RESOURCE_READ_LIMIT
      decreases |remaining|
    {
      var skill :| skill in remaining;
      if skill == "" || charged[skill] > SKILL_RESOURCE_READ_LIMIT {
        return false;
      }
      remaining := remaining - {skill};
    }
    ok := true;
  }

  /** The running totals are those of the reservations read so far. */
  ghost predicate Tallied(pending: seq<PendingCall>, done: map<string, nat>, totals: map<string, nat>, skill: string) {
    && CountOf(totals, skill) == Sum(ReservedFor(pending, done, skill))
    && (skill in totals <==> exists fp <- done :: ReservationOf(pending, fp) == Some(skill))
  }

  lemma TallyMore(pending: seq<PendingCall>, done: map<string, nat>, totals: map<string, nat>,
                  fp: string, n: nat, owner: string, skill: string)
    requires fp !in done && ReservationOf(pending, fp) == Some(owner)
    requires Tallied(pending, done, totals, skill)
    ensures Tallied(pending, done[fp := n], totals[owner := CountOf(totals, owner) + n], skill)
  {
    ReservedInsert(pending, done, fp, n, skill);
    var more := done[fp := n];
    if skill == owner {
      assert fp in more;
    } else {
      forall g | g in more && ReservationOf(pending, g) == Some(skill) ensures g in done {
      }
      forall g | g in done && ReservationOf(pending, g) == Some(skill) ensures g in more {
      }
    }
  }

  /** Some reservations have been read, the others remain, and the totals are those of the read. */
  ghost predicate Tallying(pending: seq<PendingCall>, reserved: map<string, nat>, remaining: map<string, nat>,
                           done: map<string, nat>, totals: map<string, nat>) {
    && (forall fp :: fp in reserved <==> fp in remaining || fp in done)
    && (forall fp <- remaining :: fp !in done && remaining[fp] == reserved[fp])
    && (forall fp <- done :: done[fp] == reserved[fp] && ReservationOf(pending, fp).Some?)
    && (forall skill :: Tallied(pending, done, totals, skill))
  }

  lemma TallyStarts(pending: seq<PendingCall>, reserved: map<string, nat>)
    ensures Tallying(pending, reserved, reserved, map[], map[])
  {
    forall skill ensures Tallied(pending, map[], map[], skill) {
      assert ReservedFor(pending, map[], skill) == map[];
    }
  }

  lemma TallyStep(pending: seq<PendingCall>, reserved: map<string, nat>, remaining: map<string, nat>,
                  done: map<string, nat>, totals: map<string, nat>, fp: string, owner: string)
    requires Tallying(pending, reserved, remaining, done, totals)
    requires fp in remaining && ReservationOf(pending, fp) == Some(owner)
    ensures Tallying(pending, reserved, remaining - {fp}, done[fp := remaining[fp]],
                     totals[owner := CountOf(totals, owner) + remaining[fp]])
  {
    var more, added := done[fp := remaining[fp]], totals[owner := CountOf(totals, owner) + remaining[fp]];
    forall skill ensures Tallied(pending, more, added, skill) {
      TallyMore(pending, done, totals, fp, remaining[fp], owner, skill);
    }
  }

  lemma TallyOverflows(pending: seq<PendingCall>, reserved: map<string, nat>, remaining: map<string, nat>,
                       done: map<string, nat>, totals: map<string, nat>, fp: string, owner: string)
    requires Tallying(pending, reserved, remaining, done, totals)
    requires fp in remaining && ReservationOf(pending, fp) == Some(owner)
    ensures fp in reserved
    ensures CountOf(totals, owner) + remaining[fp] <= Sum(ReservedFor(pending, reserved, owner))
  {
    assert Tallied(pending, done, totals, owner);
    TotalOverflows(pending, done, reserved, fp, remaining[fp], owner);
  }

  lemma TallyEnds(pending: seq<PendingCall>, reserved: map<string, nat>, done: map<string, nat>, totals: map<string, nat>)
    requires Tallying(pending, reserved, map[], done, totals)
    ensures forall fp <- reserved :: ReservationOf(pending, fp).Some?
    ensures forall skill :: Tallied(pending, reserved, totals, skill)
  {
    assert done == reserved;
  }

  /** Totals per skill of all reservations; `None` when one has no pending well-formed read, or a
      total leaves 64 bits. */
  method TallyReservations(pending: seq<PendingCall>, reserved: map<string, nat>) returns (totals: Option<map<string, nat>>)
    ensures totals.Some? ==>
      && (forall fp <- reserved :: ReservationOf(pending, fp).Some?)
      && (forall skill :: Tallied(pending, reserved, totals.value, skill))
    ensures totals.None? ==>
      || (exists fp <- reserved :: ReservationOf(pending, fp).None?)
      || (exists fp <- reserved :: ReservationOf(pending, fp).Some?
            && Sum(ReservedFor(pending, reserved, ReservationOf(pending, fp).value)) > U64_MAX)
  {
    var sums: map<string, nat>, remaining: map<string, nat> := map[], reserved;
    ghost var done: map<string, nat> := map[];
    TallyStarts(pending, reserved);
    while remaining != map[]
      invariant Tallying(pending, reserved, remaining, done, sums)
      decreases |remaining|
    {
      var fp :| fp in remaining;
      var call := FindPendingRead(pending, fp);
      if call.None? || !IsReadInput(call.value.args) {
        assert fp in reserved && ReservationOf(pending, fp).None?;
        return None;
      }
      var owner := SkillId(call.value.args);
      TallyOverflows(pending, reserved, remaining, done, sums, fp, owner);
      if CountOf(sums, owner) + remaining[fp] > U64_MAX {
        return None;
      }
      TallyStep(pending, reserved, remaining, done, sums, fp, owner);
      sums := sums[owner := CountOf(sums, owner) + remaining[fp]];
      done := done[fp := remaining[fp]];
      remaining := remaining - {fp};
    }
    TallyEnds(pending, reserved, done, sums);
    totals := Some(sums);
  }

  lemma TotalOverflows(pending: seq<PendingCall>, part: map<string, nat>, all: map<string, nat>,
                       fp: string, n: nat, skill: string)
    requires forall g <- part :: g in all && part[g] == all[g]
    requires fp !in part && fp in all && all[fp] == n && ReservationOf(pending, fp) == Some(skill)
    ensures Sum(ReservedFor(pending, part, skill)) + n <= Sum(ReservedFor(pending, all, skill))
  {
    ReservedInsert(pending, part, fp, n, skill);
    SumMonotone(ReservedFor(pending, part[fp := n], skill), ReservedFor(pending, all, skill));
  }

  method CheckTotals(totals: map<string, nat>, charged: map<string, nat>) returns (ok: bool)
    ensures ok <==> forall skill <- totals :: totals[skill] > 0 && skill in charged && totals[skill] <= charged[skill]
  {
    var remaining := totals.Keys;
    while remaining != {}
      invariant remaining <= totals.Keys
      invariant forall skill <- totals :: skill !in remaining ==>
        totals[skill] > 0 && skill in charged && totals[skill] <= charged[skill]
      decreases |remaining|
    {
      var skill :| skill in remaining;
      if totals[skill] == 0 || skill !in charged || totals[skill] > charged[skill] {
        return false;
      }
      remaining := remaining - {skill};
    }
    ok := true;
  }

  /** `valid_skill_resource_read_accounting`. */
  method CheckAccounting(s: LoopState) returns (ok: bool)
    ensures ok <==> ValidReadAccounting(s)
  {
    ok := CheckCharges(s.skillReadBytes);
    if !ok {
      return;
    }
    var totals := TallyReservations(s.pendingCalls, s.skillReservations);
    if totals.None? {
      return false;
    }
    ok := CheckTotals(totals.value, s.skillReadBytes);
    TotalsDecide(s, totals.value);
  }

  lemma TotalsDecide(s: LoopState, totals: map<string, nat>)
    requires forall skill <- s.skillReadBytes :: skill != "" && s.skillReadBytes[skill] <= SKILL_RESOURCE_READ_LIMIT
    requires forall fp <- s.skillReservations :: ReservationOf(s.pendingCalls, fp).Some?
    requires forall skill :: Tallied(s.pendingCalls, s.skillReservations, totals, skill)
    ensures ValidReadAccounting(s) <==>
      forall skill <- totals :: totals[skill] > 0 && skill in s.skillReadBytes && totals[skill] <= s.skillReadBytes[skill]
  {
    if ValidReadAccounting(s) {
      forall skill | skill in totals
        ensures totals[skill] > 0 && skill in s.skillReadBytes && totals[skill] <= s.skillReadBytes[skill]
      {
        assert Tallied(s.pendingCalls, s.skillReservations, totals, skill);
        var fp :| fp in s.skillReservations && ReservationOf(s.pendingCalls, fp) == Some(skill);
      }
    }
    forall fp | fp in s.skillReservations
      ensures var skill := ReservationOf(s.pendingCalls, fp).value;
        skill in totals && totals[skill] == Sum(Held(s, skill))
    {
      assert Tallied(s.pendingCalls, s.skillReservations, totals, ReservationOf(s.pendingCalls, fp).value);
    }
  }

  // ---- The branch without a transcript ----

  /** The sum of the per-tool counts, `None` past 64 bits. */
  method SumCounts(toolCalls: map<string, nat>) returns (total: Option<nat>)
    ensures total == if Sum(toolCalls) <= U64_MAX then Some(Sum(toolCalls)) else None
  {
    var sum, remaining := 0, toolCalls;
    while remaining != map[]
      invariant sum + Sum(remaining) == Sum(toolCalls)
      decreases |remaining|
    {
      var name :| name in remaining;
      SumSplit(remaining, name);
      sum := sum + remaining[name];
      remaining := remaining - {name};
    }
    total := if sum <= U64_MAX then Some(sum) else None;
  }

  /** The ordinals are exactly 1, 2, ..., n. */
  method Contiguous(ordinals: set<nat>, n: nat) returns (ok: bool)
    ensures ok <==> ordinals == UpTo(n)
  {
    UpToHolds(n);
    if |ordinals| != n {
      return false;
    }
    for k := 1 to n + 1
      invariant forall j :: 1 <= j < k ==> j in ordinals
    {
      if k !in ordinals {
        return false;
      }
    }
    assert UpTo(n) <= ordinals;
    SameSize(UpTo(n), ordinals);
    ok := true;
  }

  lemma {:induction false} UpToHolds(n: nat)
    ensures |UpTo(n)| == n && forall k :: k in UpTo(n) <==> 1 <= k <= n
  {
    if n > 0 {
      UpToHolds(n - 1);
    }
  }

  lemma SameSize(a: set<nat>, b: set<nat>)
    requires a <= b && |a| == |b|
    ensures a == b
  {
    assert |b - a| == |b| - |a|;
  }

  method CheckPendings(host: Host, pending: seq<PendingCall>) returns (ok: bool)
    ensures ok <==> forall c <- pending :: ValidPending(host, c)
  {
    for i := 0 to |pending|
      invariant forall j :: 0 <= j < i ==> ValidPending(host, pending[j])
    {
      var call := pending[i];
      assert call in pending;
      if DurableArgs(call) != Some(call.args) {
        return false;
      }
      var redacted := !IsSkill(call.name) && |call.args.fields| == 1
        && call.args.Get(FINGERPRINT) == Some(Str(call.fingerprint));
      if !redacted && host.fingerprint(call.args) != call.fingerprint {
        return false;
      }
    }
    ok := true;
  }

  method CheckCompleteds(host: Host, completed: seq<CompletedCall>) returns (ok: bool)
    ensures ok <==> forall c <- completed :: ValidCompleted(host, c)
  {
    for i := 0 to |completed|
      invariant forall j :: 0 <= j < i ==> ValidCompleted(host, completed[j])
    {
      var call := completed[i].call;
      assert completed[i] in completed;
      if DurableArgs(call) != Some(call.args) {
        return false;
      }
      var recorded := AsStr(call.args.Get(FINGERPRINT)) == Some(call.fingerprint);
      if completed[i].SkillCall? {
        if !(call.name == SCRIPT && recorded) && host.fingerprint(call.args) != call.fingerprint {
          return false;
        }
      } else if IsSkill(call.name) || |call.args.fields| != 1 || !recorded {
        return false;
      }
    }
    ok := true;
  }

  /** Admissions name the calls they are of. */
  lemma AdmissionsOf(calls: seq<PendingCall>)
    ensures |multiset(Admissions(calls))| == |calls|
    ensures forall c <- calls :: AdmissionOf(c) in multiset(Admissions(calls))
    ensures forall a | a in multiset(Admissions(calls)) :: exists c <- calls :: AdmissionOf(c) == a
  {
    var m := multiset(Admissions(calls));
    forall c | c in calls ensures AdmissionOf(c) in m {
      var i :| 0 <= i < |calls| && calls[i] == c;
      assert Admissions(calls)[i] == AdmissionOf(c);
    }
    forall a | a in m ensures exists c <- calls :: AdmissionOf(c) == a {
      var i :| 0 <= i < |calls| && Admissions(calls)[i] == a;
      assert calls[i] in calls;
    }
  }

  /** The sets the code collects over the admitted calls. */
  function IdsOf(calls: seq<PendingCall>): set<string> {
    set c <- calls :: c.id
  }

  function OrdinalsOf(calls: seq<PendingCall>): set<nat> {
    set c <- calls :: c.admissionOrdinal
  }

  function PairsOf(calls: seq<PendingCall>): set<(string, string)> {
    set c <- calls :: (c.name, c.fingerprint)
  }

  predicate IterationsWithin(calls: seq<PendingCall>, iterations: nat) {
    forall c <- calls :: 0 < c.modelIteration <= iterations
  }

  predicate NamesProper(s: LoopState) {
    (forall id <- s.seenIds :: id != "") && (forall pair <- s.seenCalls :: pair.0 != "" && pair.1 != "")
  }

  lemma SameIds(calls: seq<PendingCall>)
    ensures (set a | a in multiset(Admissions(calls)) :: a.id) == IdsOf(calls)
    ensures (set a | a in multiset(Admissions(calls)) :: a.ordinal) == OrdinalsOf(calls)
  {
    AdmissionsOf(calls);
    assert forall c <- calls :: AdmissionOf(c).id == c.id && AdmissionOf(c).ordinal == c.admissionOrdinal;
  }

  lemma SamePairs(calls: seq<PendingCall>)
    ensures (set a | a in multiset(Admissions(calls)) :: (a.name, a.fingerprint)) == PairsOf(calls)
  {
    AdmissionsOf(calls);
    assert forall c <- calls :: AdmissionOf(c).name == c.name && AdmissionOf(c).fingerprint == c.fingerprint;
  }

  lemma SameIterations(calls: seq<PendingCall>, iterations: nat)
    ensures (forall a | a in multiset(Admissions(calls)) :: 0 < a.iteration <= iterations) <==>
            IterationsWithin(calls, iterations)
  {
    AdmissionsOf(calls);
    assert forall c <- calls :: AdmissionOf(c).iteration == c.modelIteration;
  }

  /** What the code compares decides the agreement. */
  lemma AdmissionsDecide(s: LoopState)
    ensures var calls := Disposed(s);
      AdmissionsAgree(Admitted(s), s.modelIterations, s.totalToolCalls, s.seenIds, s.seenCalls) <==>
        && |calls| == s.totalToolCalls == |s.seenIds| == |s.seenCalls|
        && OrdinalsOf(calls) == UpTo(s.totalToolCalls)
        && IdsOf(calls) == s.seenIds && PairsOf(calls) == s.seenCalls
        && IterationsWithin(calls, s.modelIterations) && NamesProper(s)
  {
    var calls := Disposed(s);
    assert |Admitted(s)| == |calls| by {
      AdmissionsOf(calls);
    }
    SameIds(calls);
    SamePairs(calls);
    SameIterations(calls, s.modelIterations);
  }

  method CheckCounts(s: LoopState) returns (ok: bool)
    ensures ok <==> CountsAgree(s.toolCalls, s.totalToolCalls)
  {
    var total := SumCounts(s.toolCalls);
    if total.None? || total.value != s.totalToolCalls {
      return false;
    }
    ok := forall name <- s.toolCalls :: name != "" && s.toolCalls[name] > 0;
  }

  /** The comparison of the seen sets and ordinals with the admitted calls. */
  method CheckAdmissions(s: LoopState) returns (ok: bool)
    ensures ok <==> AdmissionsAgree(Admitted(s), s.modelIterations, s.totalToolCalls, s.seenIds, s.seenCalls)
  {
    var disposed := Disposed(s);
    AdmissionsDecide(s);
    var ids, pairs, ordinals := IdsOf(disposed), PairsOf(disposed), OrdinalsOf(disposed);
    var contiguous := Contiguous(ordinals, |disposed|);
    UpToHolds(|disposed|);
    ok := contiguous && |ordinals| == |disposed| && |disposed| == |ids| && ids == s.seenIds && pairs == s.seenCalls
      && s.totalToolCalls == |s.seenIds| && s.totalToolCalls == |s.seenCalls|
      && (forall c <- disposed :: 0 < c.modelIteration <= s.modelIterations)
      && (forall id <- s.seenIds :: id != "") && (forall pair <- s.seenCalls :: pair.0 != "" && pair.1 != "");
  }

  method CheckRedacted(host: Host, s: LoopState) returns (ok: bool)
    requires s.conversation == [] && ValidReadAccounting(s)
    ensures ok <==> ValidLoopState(host, s)
  {
    if s.finishedOutput.Some? || s.finishAdmitted != s.finishSuccessor.Some? {
      return false;
    }
    if s.finishAdmitted && (s.modelIterations == 0 || s.pendingCalls != []) {
      return false;
    }
    var pendings := CheckPendings(host, s.pendingCalls);
    var completeds := CheckCompleteds(host, s.completedCalls);
    var counts := CheckCounts(s);
    var admissions := CheckAdmissions(s);
    ok := pendings && completeds && counts && admissions;
  }

  // ---- The branch with a transcript ----

  /** The calls no response has answered, filtered in place. */
  method RemoveCompleted(calls: seq<PendingCall>, completed: set<string>) returns (open: seq<PendingCall>)
    ensures open == Unanswered(calls, completed)
  {
    open := [];
    for i := 0 to |calls|
      invariant open == Unanswered(calls[..i], completed)
    {
      assert calls[..i + 1][..i] == calls[..i];
      if calls[i].id !in completed {
        open := open + [calls[i]];
      }
    }
    assert calls[..|calls|] == calls;
  }

  method CheckTranscript(host: Host, s: LoopState) returns (ok: bool)
    requires ValidReadAccounting(s)
    ensures ok <==> ValidTranscript(host, s)
  {
    if s.finishedOutput.Some? || s.finishSuccessor.Some? || s.finishAdmitted {
      if s.finishedOutput.None? || s.finishSuccessor != s.finishedOutput || !s.finishAdmitted
         || s.pendingCalls != [] || s.conversation == []
         || AdmittedFinish(host, s.conversation[|s.conversation| - 1]) != Ok(s.finishedOutput) {
        return false;
      }
    }
    var replayed := ScanConversation(host, s.conversation);
    if replayed.None? {
      return false;
    }
    var r := replayed.value;
    var open := RemoveCompleted(r.calls, r.completedIds);
    if |s.pendingCalls| != |open| {
      return false;
    }
    for i := 0 to |open|
      invariant forall j :: 0 <= j < i ==> SameAdmission(s.pendingCalls[j], open[j])
    {
      var actual, expected := s.pendingCalls[i], open[i];
      if actual.id != expected.id || actual.name != expected.name || actual.args != expected.args
         || actual.fingerprint != expected.fingerprint || actual.modelIteration != expected.modelIteration
         || actual.admissionOrdinal != expected.admissionOrdinal {
        return false;
      }
    }
    ok := s.modelIterations == r.iterations && s.totalToolCalls == |r.seenIds| && |r.seenIds| <= U64_MAX
      && s.toolCalls == r.toolCalls && s.seenIds == r.seenIds && s.seenCalls == r.seenCalls
      && s.toolOutputBytes == r.outputBytes;
  }

  /** `valid_loop_state` decides exactly the predicate the theorems are about. */
  method CheckLoopState(host: Host, s: LoopState) returns (ok: bool)
    ensures ok <==> ValidLoopState(host, s)
  {
    var accounted := CheckAccounting(s);
    if !accounted {
      return false;
    }
    if s.conversation == [] {
      ok := CheckRedacted(host, s);
    } else {
      ok := CheckTranscript(host, s);
    }
  }
}
