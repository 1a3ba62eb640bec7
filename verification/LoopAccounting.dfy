/** Skill read accounting: what each step does to the reservations of pending reads. */
module LoopAccounting {
  import opened Prelude
  import opened Json
  import opened Sums
  import opened LoopStates
  import opened LoopValidation
  import opened LoopControl

  lemma {:induction false} FindReadAppend(a: seq<PendingCall>, b: seq<PendingCall>, fp: string)
    ensures FindRead(a, fp).Some? ==> FindRead(a + b, fp) == FindRead(a, fp)
    ensures FindRead(a, fp).None? ==> FindRead(a + b, fp) == FindRead(b, fp)
  {
    if a == [] {
      assert a + b == b;
    } else {
      FindReadAppend(a[1..], b, fp);
      assert (a + b)[1..] == a[1..] + b;
    }
  }

  /** Removing a call that is not the read looked for leaves the search result alone. */
  lemma FindReadWithout(pending: seq<PendingCall>, i: nat, fp: string)
    requires i < |pending|
    requires !(pending[i].name == READ && pending[i].fingerprint == fp)
    ensures FindRead(Without(pending, i), fp) == FindRead(pending, fp)
  {
    FindReadAppend(pending[..i], pending[i + 1..], fp);
    FindReadAppend(pending[..i], pending[i..], fp);
    assert pending == pending[..i] + pending[i..];
    assert pending[i..][1..] == pending[i + 1..];
  }

  predicate SameReservations(s: LoopState, t: LoopState) {
    && t.skillReadBytes == s.skillReadBytes && t.skillReservations == s.skillReservations
    && forall fp <- s.skillReservations :: ReservationOf(t.pendingCalls, fp) == ReservationOf(s.pendingCalls, fp)
  }

  /** Two states that find the same reservations under the same charges agree on accounting. */
  lemma AccountingCarries(s: LoopState, t: LoopState)
    requires ReadsTracked(s) && SameReservations(s, t)
    ensures ReadsTracked(t) && (HoldsBytes(t) <==> HoldsBytes(s))
  {
    forall fp | fp in s.skillReservations
      ensures Held(t, ReservationOf(s.pendingCalls, fp).value) == Held(s, ReservationOf(s.pendingCalls, fp).value)
    {
    }
  }

  lemma MorePendingSame(s: LoopState, t: LoopState)
    requires ReadsTracked(s) && s.pendingCalls <= t.pendingCalls
    requires t.skillReadBytes == s.skillReadBytes && t.skillReservations == s.skillReservations
    ensures SameReservations(s, t)
  {
    var extra := t.pendingCalls[|s.pendingCalls|..];
    assert t.pendingCalls == s.pendingCalls + extra;
    forall fp | fp in s.skillReservations ensures ReservationOf(t.pendingCalls, fp) == ReservationOf(s.pendingCalls, fp) {
      assert ReservationOf(s.pendingCalls, fp).Some?;
      FindReadAppend(s.pendingCalls, extra, fp);
    }
  }

  lemma AccountingMorePending(s: LoopState, t: LoopState)
    requires ReadsTracked(s) && s.pendingCalls <= t.pendingCalls
    requires t.skillReadBytes == s.skillReadBytes && t.skillReservations == s.skillReservations
    ensures ReadsTracked(t) && (HoldsBytes(t) <==> HoldsBytes(s))
  {
    MorePendingSame(s, t);
    AccountingCarries(s, t);
  }

  lemma OtherDoneSame(s: LoopState, t: LoopState, i: nat)
    requires i < |s.pendingCalls| && s.pendingCalls[i].name != READ && t.pendingCalls == Without(s.pendingCalls, i)
    requires t.skillReadBytes == s.skillReadBytes && t.skillReservations == s.skillReservations
    ensures SameReservations(s, t)
  {
    forall fp | fp in s.skillReservations ensures ReservationOf(t.pendingCalls, fp) == ReservationOf(s.pendingCalls, fp) {
      FindReadWithout(s.pendingCalls, i, fp);
    }
  }

  lemma AccountingOtherDone(s: LoopState, t: LoopState, i: nat)
    requires ReadsTracked(s)
    requires i < |s.pendingCalls| && s.pendingCalls[i].name != READ && t.pendingCalls == Without(s.pendingCalls, i)
    requires t.skillReadBytes == s.skillReadBytes && t.skillReservations == s.skillReservations
    ensures ReadsTracked(t) && (HoldsBytes(t) <==> HoldsBytes(s))
  {
    OtherDoneSame(s, t, i);
    AccountingCarries(s, t);
  }

  /** `t` is `s` with the pending read `i` answered, as far as reads are concerned. */
  predicate ReadAnswered(s: LoopState, t: LoopState, i: nat) {
    && i < |s.pendingCalls| && s.pendingCalls[i].name == READ
    && t.pendingCalls == Without(s.pendingCalls, i)
    && t.skillReadBytes == s.skillReadBytes
    && t.skillReservations == s.skillReservations - {s.pendingCalls[i].fingerprint}
  }

  lemma OthersStayReserved(s: LoopState, t: LoopState, i: nat, fp: string)
    requires ReadAnswered(s, t, i) && fp in t.skillReservations
    ensures fp in s.skillReservations && fp != s.pendingCalls[i].fingerprint
    ensures ReservationOf(t.pendingCalls, fp) == ReservationOf(s.pendingCalls, fp)
  {
    FindReadWithout(s.pendingCalls, i, fp);
  }

  /** Answering a read releases its reservation and keeps the others tracked. */
  lemma AccountingReadDone(s: LoopState, t: LoopState, i: nat)
    requires ReadsTracked(s) && ReadAnswered(s, t, i)
    ensures ReadsTracked(t)
  {
    forall fp | fp in t.skillReservations
      ensures ReservationOf(t.pendingCalls, fp) == ReservationOf(s.pendingCalls, fp)
    {
      OthersStayReserved(s, t, i, fp);
    }
    forall fp | fp in t.skillReservations
      ensures var skill := ReservationOf(t.pendingCalls, fp).value;
              skill in t.skillReadBytes && Sum(Held(t, skill)) <= t.skillReadBytes[skill]
    {
      var skill := ReservationOf(t.pendingCalls, fp).value;
      SumMonotone(Held(t, skill), Held(s, skill));
    }
  }

  /** What answering the read `fp` leaves in reserve for its skill, if anything, holds bytes. */
  ghost predicate LeavesBytes(s: LoopState, fp: string) {
    fp in s.skillReservations ==>
      forall other <- s.skillReservations ::
        var skill := ReservationOf(s.pendingCalls, other);
        other != fp && skill.Some? && skill == ReservationOf(s.pendingCalls, fp) ==>
          Sum(Held(s, skill.value)) > s.skillReservations[fp]
  }

  lemma HeldAfterRead(s: LoopState, t: LoopState, i: nat, skill: string)
    requires ReadAnswered(s, t, i) && s.pendingCalls[i].fingerprint in s.skillReservations
    ensures var fp := s.pendingCalls[i].fingerprint;
      Sum(Held(s, skill)) == Sum(Held(t, skill))
        + (if ReservationOf(s.pendingCalls, fp) == Some(skill) then s.skillReservations[fp] else 0)
  {
    ReservedRemove(s.pendingCalls, s.skillReservations, i, skill);
  }

  lemma ReadDoneHoldsIff(s: LoopState, t: LoopState, i: nat)
    requires ValidReadAccounting(s) && ReadAnswered(s, t, i) && s.pendingCalls[i].fingerprint in s.skillReservations
    ensures HoldsBytes(t) <==> LeavesBytes(s, s.pendingCalls[i].fingerprint)
  {
    var fp := s.pendingCalls[i].fingerprint;
    forall other | other in t.skillReservations
      ensures ReservationOf(t.pendingCalls, other) == ReservationOf(s.pendingCalls, other)
      ensures var skill := ReservationOf(s.pendingCalls, other).value;
        Sum(Held(t, skill)) > 0 <==>
          (ReservationOf(s.pendingCalls, fp) == Some(skill) ==> Sum(Held(s, skill)) > s.skillReservations[fp])
    {
      OthersStayReserved(s, t, i, other);
      HeldAfterRead(s, t, i, ReservationOf(s.pendingCalls, other).value);
    }
    assert forall other :: other in t.skillReservations <==> other in s.skillReservations && other != fp;
  }

  lemma ReservedInsert(pending: seq<PendingCall>, reserved: map<string, nat>, fp: string, n: nat, skill: string)
    requires fp !in reserved && ReservationOf(pending, fp).Some?
    ensures Sum(ReservedFor(pending, reserved[fp := n], skill)) ==
      Sum(ReservedFor(pending, reserved, skill)) + (if ReservationOf(pending, fp) == Some(skill) then n else 0)
  {
    var before, after := ReservedFor(pending, reserved, skill), ReservedFor(pending, reserved[fp := n], skill);
    if ReservationOf(pending, fp) == Some(skill) {
      assert after == before[fp := n];
      SumUpdate(before, fp, n);
    } else {
      assert after == before;
    }
  }

  lemma ReservedWithinCharge(s: LoopState, skill: string)
    requires ReadsTracked(s)
    ensures Sum(Held(s, skill)) <= CountOf(s.skillReadBytes, skill)
  {
    if Held(s, skill) != map[] {
      var fp :| fp in Held(s, skill);
      assert ReservationOf(s.pendingCalls, fp) == Some(skill);
    }
  }

  /** A new reservation raises what its skill holds, and nothing else. */
  lemma HeldAfterReserve(s: LoopState, skill: string, fp: string, pageBytes: nat, k: string)
    requires ReservationOf(s.pendingCalls, fp) == Some(skill) && fp !in s.skillReservations
    requires Reserve(s, false, skill, fp, pageBytes).Ok?
    ensures var t := Reserve(s, false, skill, fp, pageBytes).value.0;
      Sum(Held(t, k)) == Sum(Held(s, k)) + (if k == skill then pageBytes else 0)
  {
    ReservedInsert(s.pendingCalls, s.skillReservations, fp, pageBytes, k);
  }

  lemma ReserveTracked(s: LoopState, skill: string, fp: string, pageBytes: nat)
    requires ReadsTracked(s) && skill != "" && ReservationOf(s.pendingCalls, fp) == Some(skill)
    requires Reserve(s, false, skill, fp, pageBytes).Ok?
    ensures ReadsTracked(Reserve(s, false, skill, fp, pageBytes).value.0)
  {
    var t := Reserve(s, false, skill, fp, pageBytes).value.0;
    if fp !in s.skillReservations {
      ReservedWithinCharge(s, skill);
      forall g | g in t.skillReservations
        ensures ReservationOf(t.pendingCalls, g).Some?
        ensures var k := ReservationOf(t.pendingCalls, g).value;
                k in t.skillReadBytes && Sum(Held(t, k)) <= t.skillReadBytes[k]
      {
        HeldAfterReserve(s, skill, fp, pageBytes, ReservationOf(t.pendingCalls, g).value);
      }
    }
  }

  lemma ReserveHoldsIff(s: LoopState, skill: string, fp: string, pageBytes: nat)
    requires HoldsBytes(s) && ReservationOf(s.pendingCalls, fp) == Some(skill) && fp !in s.skillReservations
    requires Reserve(s, false, skill, fp, pageBytes).Ok?
    ensures HoldsBytes(Reserve(s, false, skill, fp, pageBytes).value.0) <==> pageBytes > 0 || Sum(Held(s, skill)) > 0
  {
    var t := Reserve(s, false, skill, fp, pageBytes).value.0;
    HeldAfterReserve(s, skill, fp, pageBytes, skill);
    assert fp in t.skillReservations;
    forall g | g in s.skillReservations && ReservationOf(s.pendingCalls, g).Some?
      ensures Sum(Held(t, ReservationOf(s.pendingCalls, g).value)) > 0
    {
      HeldAfterReserve(s, skill, fp, pageBytes, ReservationOf(s.pendingCalls, g).value);
    }
  }

  /** A new reservation for a pending read keeps the accounting valid exactly when the page is
      not empty or the skill has other bytes outstanding.  With the first empty page of a skill
      the persisted state is one that a later resume refuses. */
  lemma ReserveValidIff(s: LoopState, skill: string, fp: string, pageBytes: nat)
    requires ValidReadAccounting(s)
    requires skill != "" && ReservationOf(s.pendingCalls, fp) == Some(skill)
    requires fp !in s.skillReservations
    requires Reserve(s, false, skill, fp, pageBytes).Ok?
    ensures ValidReadAccounting(Reserve(s, false, skill, fp, pageBytes).value.0) <==>
      pageBytes > 0 || Sum(Held(s, skill)) > 0
  {
    ReserveTracked(s, skill, fp, pageBytes);
    ReserveHoldsIff(s, skill, fp, pageBytes);
  }

  /** Asking again for the same page, or replaying a finished read, charges nothing. */
  lemma ReserveAgainIsFree(s: LoopState, skill: string, fp: string, pageBytes: nat, replaying: bool)
    requires Reserve(s, false, skill, fp, pageBytes).Ok?
    ensures var first := Reserve(s, false, skill, fp, pageBytes).value;
            && Reserve(first.0, false, skill, fp, pageBytes) == Ok(first)
            && Reserve(first.0, true, skill, fp, pageBytes) == Ok(first)
  {
  }

  /** A page is granted exactly while the skill's charge stays within 64 KiB, and a page asked for
      again exactly when it is the same size; a grant charges the skill for it and nothing else. */
  lemma ReserveIff(s: LoopState, skill: string, fp: string, pageBytes: nat)
    ensures var r := Reserve(s, false, skill, fp, pageBytes);
      if fp in s.skillReservations then
        (r.Ok? <==> s.skillReservations[fp] == pageBytes) && (r.Ok? ==> r.value == (s, CountOf(s.skillReadBytes, skill)))
      else
        && (r.Ok? <==> CountOf(s.skillReadBytes, skill) + pageBytes <= 64 * 1024)
        && (r.Ok? ==>
              var (t, total) := r.value;
              && total == CountOf(s.skillReadBytes, skill) + pageBytes
              && (forall k :: CountOf(t.skillReadBytes, k) == if k == skill then total else CountOf(s.skillReadBytes, k))
              && t.skillReservations == s.skillReservations[fp := pageBytes])
  {
  }

  /** Pages of one skill, reserved one after the other. */
  function ReserveAll(s: LoopState, skill: string, pages: seq<(string, nat)>): Option<LoopState> {
    if pages == [] then Some(s)
    else
      var before :- ReserveAll(s, skill, pages[..|pages| - 1]);
      var (fp, pageBytes) := pages[|pages| - 1];
      match Reserve(before, false, skill, fp, pageBytes)
      case Err(_) => None
      case Ok((t, _)) => Some(t)
  }

  function BytesOf(pages: seq<(string, nat)>): nat {
    if pages == [] then 0 else BytesOf(pages[..|pages| - 1]) + pages[|pages| - 1].1
  }

  /** A skill may read page after page up to the limit, and not a byte further. */
  lemma {:induction false} PagesUpToLimit(s: LoopState, skill: string, pages: seq<(string, nat)>)
    requires CountOf(s.skillReadBytes, skill) <= 64 * 1024
    requires forall i :: 0 <= i < |pages| ==> pages[i].0 !in s.skillReservations
    requires forall i, j :: 0 <= i < j < |pages| ==> pages[i].0 != pages[j].0
    ensures ReserveAll(s, skill, pages).Some? <==> CountOf(s.skillReadBytes, skill) + BytesOf(pages) <= 64 * 1024
    ensures ReserveAll(s, skill, pages).Some? ==>
      var t := ReserveAll(s, skill, pages).value;
      && CountOf(t.skillReadBytes, skill) == CountOf(s.skillReadBytes, skill) + BytesOf(pages)
      && (forall fp <- t.skillReservations :: fp in s.skillReservations || exists i :: 0 <= i < |pages| && pages[i].0 == fp)
  {
    if pages != [] {
      var front, last := pages[..|pages| - 1], pages[|pages| - 1];
      PagesUpToLimit(s, skill, front);
      if ReserveAll(s, skill, front).Some? {
        var before := ReserveAll(s, skill, front).value;
        assert last.0 !in before.skillReservations;
        ReserveIff(before, skill, last.0, last.1);
        if ReserveAll(s, skill, pages).Some? {
          forall fp | fp in ReserveAll(s, skill, pages).value.skillReservations
            ensures fp in s.skillReservations || exists i :: 0 <= i < |pages| && pages[i].0 == fp
          {
            if fp == last.0 {
              assert pages[|pages| - 1].0 == fp;
            } else if i :| 0 <= i < |front| && front[i].0 == fp {
              assert pages[i].0 == fp;
            }
          }
        }
      }
    }
  }

  // ---- Charges equal completed reads plus reservations ----

  /** Bytes of the completed reads of a skill, by the page length their responses report. */
  function ReadBytes(completed: seq<CompletedCall>, skill: string): nat {
    if completed == [] then 0
    else
      var last := completed[|completed| - 1].call;
      ReadBytes(completed[..|completed| - 1], skill)
      + if last.name == READ && IsReadInput(last.args) && SkillId(last.args) == skill
           && last.response.Some? && PageByteLen(last.response.value).Some?
        then PageByteLen(last.response.value).value else 0
  }

  /** Bytes charged to a skill beyond its completed reads and what it holds in reserve. */
  ghost function Unaccounted(s: LoopState, skill: string): int {
    CountOf(s.skillReadBytes, skill) - ReadBytes(s.completedCalls, skill) - Sum(Held(s, skill))
  }

  lemma UnaccountedSame(s: LoopState, t: LoopState, skill: string)
    requires SameReservations(s, t) && ReadBytes(t.completedCalls, skill) == ReadBytes(s.completedCalls, skill)
    ensures Unaccounted(t, skill) == Unaccounted(s, skill)
  {
    assert Held(t, skill) == Held(s, skill);
  }

  lemma UnaccountedReserve(s: LoopState, skill: string, fp: string, pageBytes: nat, k: string)
    requires ReservationOf(s.pendingCalls, fp) == Some(skill) && Reserve(s, false, skill, fp, pageBytes).Ok?
    ensures Unaccounted(Reserve(s, false, skill, fp, pageBytes).value.0, k) == Unaccounted(s, k)
  {
    if fp !in s.skillReservations {
      HeldAfterReserve(s, skill, fp, pageBytes, k);
    }
  }

  lemma ReservedRemove(pending: seq<PendingCall>, reserved: map<string, nat>, i: nat, skill: string)
    requires i < |pending| && pending[i].name == READ && pending[i].fingerprint in reserved
    ensures var fp := pending[i].fingerprint;
      Sum(ReservedFor(pending, reserved, skill)) ==
      Sum(ReservedFor(Without(pending, i), reserved - {fp}, skill))
      + (if ReservationOf(pending, fp) == Some(skill) then reserved[fp] else 0)
  {
    var fp := pending[i].fingerprint;
    forall g | g in reserved - {fp} ensures ReservationOf(Without(pending, i), g) == ReservationOf(pending, g) {
      FindReadWithout(pending, i, g);
    }
    var before, after := ReservedFor(pending, reserved, skill), ReservedFor(Without(pending, i), reserved - {fp}, skill);
    assert after == before - {fp};
    if fp in before {
      SumSplit(before, fp);
    } else {
      assert before - {fp} == before;
    }
  }

  /** A finished read moves its bytes from the reservations to the completed reads. */
  lemma UnaccountedReadDone(s: LoopState, t: LoopState, i: nat, response: Json, skill: string)
    requires ReadAnswered(s, t, i) && FindRead(s.pendingCalls, s.pendingCalls[i].fingerprint) == Some(s.pendingCalls[i])
    requires IsReadInput(s.pendingCalls[i].args) && s.pendingCalls[i].fingerprint in s.skillReservations
    requires PageByteLen(response) == Some(s.skillReservations[s.pendingCalls[i].fingerprint])
    requires t.completedCalls == s.completedCalls + [Completed(s.pendingCalls[i], response)]
    ensures Unaccounted(t, skill) == Unaccounted(s, skill)
  {
    var call := s.pendingCalls[i];
    assert ReservationOf(s.pendingCalls, call.fingerprint) == Some(SkillId(call.args));
    assert t.completedCalls[..|s.completedCalls|] == s.completedCalls;
    HeldAfterRead(s, t, i, skill);
  }
}
