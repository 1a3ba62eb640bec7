/** How the tasks of a shared session end, and that nobody is left waiting for one of them. */
module SharedOutcomes {
  import opened Prelude
  import opened SharedSession

  // ---- How a task ends ----

  /** The task is on its way out with an accepted answer, or gone with one. */
  predicate Succeeds(p: Phase) {
    (p.Settled? && p.ok) || (p.Released? && p.ok) || (p.Finishing? && p.ok) || (p.Done? && p.ok)
  }

  /** The task is on its way out without one. */
  predicate Loses(p: Phase) {
    || p.Dropping? || p.Failing?
    || (p.Settled? && !p.ok) || (p.Released? && !p.ok) || (p.Finishing? && !p.ok) || (p.Done? && !p.ok)
  }

  /** The agent gave an answer, or asked for a confirmation. */
  predicate Accepting(a: Action, t: nat) {
    a.t == t && a.Finish? && (a.answer.Final? || a.answer.Confirmation?)
  }

  /** The task was cancelled or its agent, or the ledger, failed. */
  predicate Losing(a: Action, t: nat) {
    && a.t == t
    && (a.Cancel? || (a.Check? && a.cancelled)
        || (a.Finish? && (a.answer.Error? || a.answer.NotRecorded? || a.answer.NotReread?)))
  }

  lemma OwnSuccess(r: Run, a: Action, next: Run)
    requires Step(r, a) == Some(next)
    ensures a.t < |r.tasks| == |next.tasks|
    ensures Succeeds(next.tasks[a.t].phase) <==> Succeeds(r.tasks[a.t].phase) || Accepting(a, a.t)
  {
  }

  lemma OwnLoss(r: Run, a: Action, next: Run)
    requires Step(r, a) == Some(next)
    ensures a.t < |r.tasks| == |next.tasks|
    ensures Loses(r.tasks[a.t].phase) || Losing(a, a.t) ==> Loses(next.tasks[a.t].phase)
    ensures next.tasks[a.t].node == r.tasks[a.t].node
  {
  }

  /** What one step does to the outcome of a task. */
  predicate EndsStay(r: Run, a: Action, next: Run, t: nat) {
    && t < |r.tasks| && t < |next.tasks| && next.tasks[t].node == r.tasks[t].node
    && (Succeeds(next.tasks[t].phase) <==> Succeeds(r.tasks[t].phase) || Accepting(a, t))
    && (Loses(r.tasks[t].phase) || Losing(a, t) ==> Loses(next.tasks[t].phase))
  }

  lemma StepEndsStay(r: Run, a: Action, next: Run, t: nat)
    requires Step(r, a) == Some(next) && t < |r.tasks|
    ensures EndsStay(r, a, next, t)
  {
    if t == a.t {
      OwnSuccess(r, a, next);
      OwnLoss(r, a, next);
    } else {
      OthersStay(r, a, next, t);
    }
  }

  predicate EndsStayUpTo(actions: seq<Action>, runs: seq<Run>, n: nat, t: nat) {
    && n <= |actions| && |runs| == |actions| + 1
    && forall i :: 0 <= i < n ==> EndsStay(runs[i], actions[i], runs[i + 1], t)
  }

  lemma SameTasks(actions: seq<Action>, runs: seq<Run>, n: nat)
    requires IsRun(actions, runs) && n < |runs|
    ensures |runs[n].tasks| == |runs[0].tasks|
  {
    HolderExists(actions, runs, n);
  }

  lemma RunsEndsStay(actions: seq<Action>, runs: seq<Run>, n: nat, t: nat)
    requires IsRun(actions, runs) && n < |runs| && t < |runs[n].tasks|
    ensures EndsStayUpTo(actions, runs, n, t)
    ensures t < |runs[0].tasks| && runs[0].tasks[t].phase == Fresh
  {
    SameTasks(actions, runs, n);
    forall i | 0 <= i < n ensures EndsStay(runs[i], actions[i], runs[i + 1], t) {
      SameTasks(actions, runs, i);
      StepEndsStay(runs[i], actions[i], runs[i + 1], t);
    }
  }

  lemma {:induction false} AcceptedBefore(actions: seq<Action>, runs: seq<Run>, n: nat, t: nat)
    requires EndsStayUpTo(actions, runs, n, t) && t < |runs[0].tasks| && !Succeeds(runs[0].tasks[t].phase)
    ensures t < |runs[n].tasks|
    ensures Succeeds(runs[n].tasks[t].phase) <==> exists i :: 0 <= i < n && Accepting(actions[i], t)
  {
    if n > 0 {
      AcceptedBefore(actions, runs, n - 1, t);
      assert EndsStay(runs[n - 1], actions[n - 1], runs[n - 1 + 1], t);
    }
  }

  /** A task ends well exactly when its agent gave an answer or asked for a confirmation. */
  lemma OutcomeIff(actions: seq<Action>, runs: seq<Run>, n: nat, t: nat)
    requires IsRun(actions, runs) && n < |runs| && t < |runs[n].tasks|
    ensures Succeeds(runs[n].tasks[t].phase) <==> exists i :: 0 <= i < n && Accepting(actions[i], t)
  {
    RunsEndsStay(actions, runs, n, t);
    AcceptedBefore(actions, runs, n, t);
  }

  // ---- How a run fails ----

  /** A task has gone without an answer, and said so. */
  predicate SomeoneFailed(r: Run) {
    exists t :: 0 <= t < |r.tasks| && HasFailed(r.tasks[t].phase)
  }

  predicate HasFailed(p: Phase) {
    p.Failing? || (p.Done? && !p.ok)
  }

  predicate Confirms(r: Run, a: Action) {
    r.ledger.Some? && a.Finish? && a.answer.Confirmation?
  }

  lemma FailureMoves(r: Run, a: Action, next: Run)
    requires Step(r, a) == Some(next) && a.t < |r.tasks| == |next.tasks|
    ensures HasFailed(r.tasks[a.t].phase) ==> HasFailed(next.tasks[a.t].phase)
    ensures next.failed <==> r.failed || Confirms(r, a) || (HasFailed(next.tasks[a.t].phase) && !HasFailed(r.tasks[a.t].phase))
    ensures next.ledger.Some? <==> r.ledger.Some?
  {
  }

  lemma FailureStep(r: Run, a: Action, next: Run)
    requires Step(r, a) == Some(next)
    ensures next.ledger.Some? <==> r.ledger.Some?
    ensures r.failed || Confirms(r, a) ==> next.failed
    ensures next.failed ==> r.failed || Confirms(r, a) || SomeoneFailed(next)
    ensures SomeoneFailed(next) ==> SomeoneFailed(r) || next.failed
    ensures SomeoneFailed(r) ==> SomeoneFailed(next)
  {
    OwnLoss(r, a, next);
    FailureMoves(r, a, next);
    forall u | 0 <= u < |r.tasks| && u != a.t ensures next.tasks[u].phase == r.tasks[u].phase {
      OthersStay(r, a, next, u);
    }
    if HasFailed(next.tasks[a.t].phase) {
      assert SomeoneFailed(next);
    }
    if SomeoneFailed(r) {
      var t :| 0 <= t < |r.tasks| && HasFailed(r.tasks[t].phase);
      assert HasFailed(next.tasks[t].phase);
    }
    if SomeoneFailed(next) && !HasFailed(next.tasks[a.t].phase) {
      var t :| 0 <= t < |next.tasks| && HasFailed(next.tasks[t].phase);
      assert HasFailed(r.tasks[t].phase);
    }
  }

  /** A run has failed exactly when some task has gone without an answer, or, with a ledger, some agent
      has asked for a confirmation. */
  lemma {:induction false} FailedIff(actions: seq<Action>, runs: seq<Run>, n: nat)
    requires IsRun(actions, runs) && n < |runs|
    ensures runs[n].ledger.Some? <==> runs[0].ledger.Some?
    ensures runs[n].failed <==> SomeoneFailed(runs[n]) || exists i :: 0 <= i < n && Confirms(runs[0], actions[i])
  {
    if n > 0 {
      FailedIff(actions, runs, n - 1);
      FailureStep(runs[n - 1], actions[n - 1], runs[n]);
    }
  }

  /** A request for confirmation fails a durable run for good, and leaves any other run as it was. */
  lemma ConfirmationFails(actions: seq<Action>, runs: seq<Run>, i: nat, j: nat)
    requires IsRun(actions, runs) && i < j < |runs| && actions[i].Finish? && actions[i].answer.Confirmation?
    ensures runs[0].ledger.Some? ==> runs[j].failed
    ensures runs[0].ledger.None? ==> runs[i + 1].failed == runs[i].failed
  {
    FailedIff(actions, runs, j);
    FailedIff(actions, runs, i);
    if runs[0].ledger.Some? {
      assert Confirms(runs[0], actions[i]);
    }
  }

  lemma GoneWithoutAnswer(actions: seq<Action>, runs: seq<Run>, n: nat, t: nat)
    requires IsRun(actions, runs) && n < |runs| && t < |runs[n].tasks|
    requires runs[n].tasks[t].phase == Done(false)
    ensures runs[n].failed
  {
    FailedIff(actions, runs, n);
    assert HasFailed(runs[n].tasks[t].phase);
  }

  lemma {:induction false} LosesFrom(actions: seq<Action>, runs: seq<Run>, i: nat, j: nat, t: nat)
    requires i < j && EndsStayUpTo(actions, runs, j, t) && Losing(actions[i], t)
    ensures t < |runs[j].tasks| && Loses(runs[j].tasks[t].phase)
    decreases j
  {
    if i < j - 1 {
      LosesFrom(actions, runs, i, j - 1, t);
    }
    assert EndsStay(runs[j - 1], actions[j - 1], runs[j - 1 + 1], t);
  }

  /** A task that was cancelled, or whose agent or ledger failed, is out for good: it never works again,
      and once it is done the run has failed. */
  lemma LosersStayOut(actions: seq<Action>, runs: seq<Run>, i: nat, j: nat, t: nat)
    requires IsRun(actions, runs) && i < j < |runs| && t < |runs[j].tasks| && Losing(actions[i], t)
    ensures Loses(runs[j].tasks[t].phase)
    ensures runs[j].tasks[t].phase.Done? ==> runs[j].failed
  {
    RunsEndsStay(actions, runs, j, t);
    LosesFrom(actions, runs, i, j, t);
    if runs[j].tasks[t].phase.Done? {
      GoneWithoutAnswer(actions, runs, j, t);
    }
  }

  // ---- Nobody waits for a task of the run ----

  /** Some task is on its way to failing the run. */
  predicate Doomed(r: Run) {
    r.failed || exists u :: 0 <= u < |r.tasks| && Loses(r.tasks[u].phase)
  }

  /** A task of the node has an accepted answer. */
  predicate HasSucceeded(r: Run, node: string) {
    exists u :: 0 <= u < |r.tasks| && r.tasks[u].node == node && Succeeds(r.tasks[u].phase)
  }

  predicate IsRunning(r: Run, node: string) {
    exists u :: 0 <= u < |r.tasks| && r.tasks[u].node == node && r.tasks[u].phase == Running(false)
  }

  predicate RecordedIsNotPending(r: Run, t: nat)
    requires t < |r.tasks|
  {
    r.tasks[t].phase == Running(true) ==> r.ledger.Some? && r.ledger.value.pending != Some(r.tasks[t].node)
  }

  predicate HistoryOpen(r: Run) {
    r.history.pending.Some? && HasSucceeded(r, r.history.pending.value) ==> Doomed(r)
  }

  predicate LedgerOpen(r: Run) {
    r.ledger.Some? && r.ledger.value.pending.Some? && HasSucceeded(r, r.ledger.value.pending.value) ==>
      Doomed(r) || IsRunning(r, r.ledger.value.pending.value)
  }

  predicate RecordedOpen(r: Run) {
    forall t :: 0 <= t < |r.tasks| ==> RecordedIsNotPending(r, t)
  }

  /** A node that is waited for has not succeeded: in the history, nor - but while it works - in the
      ledger; and a turn the ledger had before is not the pending one. */
  predicate OwnersAreOpen(r: Run) {
    && HistoryOpen(r) && LedgerOpen(r) && RecordedOpen(r)
    && (r.ledger.None? ==> r.history.pending.None?)
  }

  lemma DoomedKept(r: Run, a: Action, next: Run)
    requires Step(r, a) == Some(next)
    ensures Doomed(r) ==> Doomed(next)
    ensures Losing(a, a.t) || next.failed ==> Doomed(next)
  {
    OwnLoss(r, a, next);
    FailureStep(r, a, next);
    if u :| 0 <= u < |r.tasks| && Loses(r.tasks[u].phase) {
      StepEndsStay(r, a, next, u);
      assert Loses(next.tasks[u].phase);
    }
  }

  lemma SucceededBefore(r: Run, a: Action, next: Run, node: string)
    requires Step(r, a) == Some(next) && HasSucceeded(next, node)
    ensures a.t < |r.tasks|
    ensures HasSucceeded(r, node) || (Accepting(a, a.t) && r.tasks[a.t].node == node)
  {
    OwnSuccess(r, a, next);
    var u :| 0 <= u < |next.tasks| && next.tasks[u].node == node && Succeeds(next.tasks[u].phase);
    StepEndsStay(r, a, next, u);
  }

  lemma RunningStays(r: Run, a: Action, next: Run, node: string)
    requires Step(r, a) == Some(next) && IsRunning(r, node)
    ensures a.t < |r.tasks|
    ensures IsRunning(next, node) || (r.tasks[a.t].phase == Running(false) && (a.Finish? || a.Cancel?))
  {
    var u :| 0 <= u < |r.tasks| && r.tasks[u].node == node && r.tasks[u].phase == Running(false);
    if u != a.t {
      OthersStay(r, a, next, u);
      assert next.tasks[u].phase == Running(false);
    }
  }

  /** What each step does to history and ledger. */
  lemma RecordsMove(r: Run, a: Action, next: Run)
    requires Step(r, a) == Some(next)
    ensures a.t < |r.tasks|
    ensures a.Prepare? && a.how.Notes? && r.ledger.Some? ==>
      && next.history == r.history && next.ledger == Some(r.ledger.value.(pending := Some(r.tasks[a.t].node)))
      && a.t < |next.tasks| && next.tasks[a.t] == r.tasks[a.t].(phase := Running(false))
    ensures a.Finish? && a.answer.Final? ==>
      && r.tasks[a.t].phase.Running?
      && (r.ledger.None? ==> next.ledger.None? && next.history.pending == r.history.pending)
      && (r.ledger.Some? ==> next.ledger == Some(next.history))
      && (r.ledger.Some? && r.tasks[a.t].phase.recorded ==> next.ledger == r.ledger)
      && (r.ledger.Some? && !r.tasks[a.t].phase.recorded ==> next.history.pending.None?)
    ensures !(a.Prepare? && a.how.Notes? && r.ledger.Some?) && !(a.Finish? && (a.answer.Final? || a.answer.NotReread?)) ==>
      next.history == r.history && next.ledger == r.ledger
    ensures a.Finish? && a.answer.NotReread? ==> next.history == r.history
  {
  }

  /** Two tasks that work under the lock are one task. */
  lemma OneWorker(r: Run, t: nat, u: nat)
    requires Exclusive(r) && t < |r.tasks| && u < |r.tasks|
    requires Holding(r.tasks[t].phase) && Holding(r.tasks[u].phase)
    ensures t == u
  {
  }

  lemma RecordedAlone(r: Run, t: nat, node: string)
    requires Exclusive(r) && t < |r.tasks| && r.tasks[t].phase == Running(true)
    ensures !IsRunning(r, node)
  {
    if u :| 0 <= u < |r.tasks| && r.tasks[u].node == node && r.tasks[u].phase == Running(false) {
      OneWorker(r, t, u);
    }
  }

  lemma HistoryOwnerOpen(r: Run, a: Action, next: Run)
    requires Exclusive(r) && OwnersAreOpen(r) && Step(r, a) == Some(next)
    ensures HistoryOpen(next)
  {
    if next.history.pending.Some? && HasSucceeded(next, next.history.pending.value) {
      var node := next.history.pending.value;
      RecordsMove(r, a, next);
      DoomedKept(r, a, next);
      FailureStep(r, a, next);
      SucceededBefore(r, a, next, node);
      if a.Finish? && a.answer.Final? && r.ledger.Some? {
        RecordedAlone(r, a.t, node);
        assert RecordedIsNotPending(r, a.t);
      }
    }
  }

  lemma LedgerOwnerOpen(r: Run, a: Action, next: Run)
    requires Exclusive(r) && OwnersAreOpen(r) && Step(r, a) == Some(next)
    ensures LedgerOpen(next)
  {
    if next.ledger.Some? && next.ledger.value.pending.Some? && HasSucceeded(next, next.ledger.value.pending.value) {
      var node := next.ledger.value.pending.value;
      RecordsMove(r, a, next);
      DoomedKept(r, a, next);
      FailureStep(r, a, next);
      SucceededBefore(r, a, next, node);
      if a.Prepare? && a.how.Notes? {
        assert next.ledger != r.ledger ==> IsRunning(next, node);
      }
      if a.Finish? && a.answer.Final? {
        RecordedAlone(r, a.t, node);
        assert RecordedIsNotPending(r, a.t);
      }
      if IsRunning(r, node) {
        RunningStays(r, a, next, node);
      }
    }
  }

  lemma OwnRecorded(r: Run, a: Action, next: Run)
    requires Step(r, a) == Some(next) && a.t < |r.tasks| == |next.tasks| && RecordedIsNotPending(r, a.t)
    ensures RecordedIsNotPending(next, a.t)
  {
  }

  /** Only the holder of the lock moves what is pending in the ledger. */
  lemma OthersRecorded(r: Run, a: Action, next: Run, t: nat)
    requires Exclusive(r) && Step(r, a) == Some(next) && t < |r.tasks| && t != a.t && RecordedIsNotPending(r, t)
    ensures t < |next.tasks| && RecordedIsNotPending(next, t)
  {
    OthersStay(r, a, next, t);
    RecordsMove(r, a, next);
    if r.tasks[t].phase == Running(true) && (Holding(r.tasks[a.t].phase)) {
      OneWorker(r, t, a.t);
    }
  }

  lemma RecordedKept(r: Run, a: Action, next: Run)
    requires Exclusive(r) && RecordedOpen(r) && Step(r, a) == Some(next)
    ensures RecordedOpen(next)
  {
    OwnLoss(r, a, next);
    forall t | 0 <= t < |next.tasks| ensures RecordedIsNotPending(next, t) {
      assert RecordedIsNotPending(r, t);
      if t == a.t {
        OwnRecorded(r, a, next);
      } else {
        OthersRecorded(r, a, next, t);
      }
    }
  }

  lemma NothingPending(r: Run, a: Action, next: Run)
    requires Step(r, a) == Some(next) && (r.ledger.None? ==> r.history.pending.None?)
    ensures next.ledger.None? ==> next.history.pending.None?
  {
    RecordsMove(r, a, next);
    FailureStep(r, a, next);
  }

  lemma OwnersStayOpen(r: Run, a: Action, next: Run)
    requires Exclusive(r) && OwnersAreOpen(r) && Step(r, a) == Some(next)
    ensures OwnersAreOpen(next)
  {
    HistoryOwnerOpen(r, a, next);
    LedgerOwnerOpen(r, a, next);
    RecordedKept(r, a, next);
    NothingPending(r, a, next);
  }

  lemma {:induction false} RunsKeepOwnersOpen(actions: seq<Action>, runs: seq<Run>, n: nat)
    requires IsRun(actions, runs) && n < |runs|
    ensures OwnersAreOpen(runs[n])
  {
    if n > 0 {
      RunsKeepOwnersOpen(actions, runs, n - 1);
      RunsKeepInv(actions, runs, n - 1);
      OwnersStayOpen(runs[n - 1], actions[n - 1], runs[n]);
    }
  }

  /** Nothing but cancellation can happen any more: every task is done, or parked and not woken. */
  predicate Quiet(r: Run) {
    forall u :: 0 <= u < |r.tasks| ==> r.tasks[u].phase.Done? || (r.tasks[u].phase.Parked? && !r.tasks[u].woken)
  }

  /** In a quiet state whoever is parked waits for a node that no task of the run belongs to: a
      recovered turn is never left behind by a task that came for it. */
  lemma NobodyWaitsForATask(actions: seq<Action>, runs: seq<Run>, n: nat, t: nat, u: nat)
    requires IsRun(actions, runs) && n < |runs| && t < |runs[n].tasks| && u < |runs[n].tasks|
    requires Quiet(runs[n]) && runs[n].tasks[t].phase.Parked?
    ensures runs[n].history.pending.Some? && runs[n].history.pending.value != runs[n].tasks[u].node
  {
    var r := runs[n];
    QuietMeansBlocked(actions, runs, n, t);
    RunsKeepOwnersOpen(actions, runs, n);
    if r.tasks[u].phase.Parked? {
      QuietMeansBlocked(actions, runs, n, u);
    } else {
      NoneGone(actions, runs, n);
      assert HasSucceeded(r, r.tasks[u].node);
    }
  }

  lemma NoneGone(actions: seq<Action>, runs: seq<Run>, n: nat)
    requires IsRun(actions, runs) && n < |runs| && Quiet(runs[n]) && !runs[n].failed
    ensures !Doomed(runs[n])
    ensures forall u :: 0 <= u < |runs[n].tasks| && runs[n].tasks[u].phase.Done? ==> Succeeds(runs[n].tasks[u].phase)
  {
    forall u | 0 <= u < |runs[n].tasks| ensures runs[n].tasks[u].phase != Done(false) {
      if runs[n].tasks[u].phase == Done(false) {
        GoneWithoutAnswer(actions, runs, n, u);
      }
    }
  }

  /** So after a confirmation in a durable run nobody is left parked. */
  lemma NobodyWaitsAfterConfirmation(actions: seq<Action>, runs: seq<Run>, i: nat, n: nat, t: nat)
    requires IsRun(actions, runs) && i < n < |runs| && t < |runs[n].tasks| && runs[0].ledger.Some?
    requires actions[i].Finish? && actions[i].answer.Confirmation? && Quiet(runs[n])
    ensures runs[n].tasks[t].phase.Done?
  {
    ConfirmationFails(actions, runs, i, n);
    if runs[n].tasks[t].phase.Parked? {
      QuietMeansBlocked(actions, runs, n, t);
    }
  }

  // ---- Who is woken ----

  predicate Notifies(a: Action) {
    a.Notify? || a.NotifyFailure?
  }

  /** A notification since the task last registered for one. */
  predicate NotifiedSince(actions: seq<Action>, n: nat, t: nat)
    requires n <= |actions|
  {
    exists i :: 0 <= i < n && Notifies(actions[i]) && forall j :: i < j < n ==> actions[j] != Register(t)
  }

  lemma NotifyingWakes(r: Run, a: Action, next: Run, t: nat)
    requires Step(r, a) == Some(next) && Notifies(a) && t < |r.tasks| == |next.tasks|
    requires Registered(next.tasks[t].phase)
    ensures next.tasks[t].woken && t != a.t
  {
  }

  lemma OwnWoken(r: Run, a: Action, next: Run)
    requires Step(r, a) == Some(next) && !Notifies(a) && a.t < |r.tasks| == |next.tasks|
    requires Registered(next.tasks[a.t].phase)
    ensures if a.Register? then !next.tasks[a.t].woken
            else Registered(r.tasks[a.t].phase) && next.tasks[a.t].woken == r.tasks[a.t].woken
  {
  }

  lemma WokenStep(r: Run, a: Action, next: Run, t: nat)
    requires Step(r, a) == Some(next) && t < |r.tasks| == |next.tasks| && Registered(next.tasks[t].phase)
    ensures next.tasks[t].woken <==> Notifies(a) || (a != Register(t) && r.tasks[t].woken)
    ensures a != Register(t) ==> Registered(r.tasks[t].phase)
  {
    if Notifies(a) {
      NotifyingWakes(r, a, next, t);
      OthersStay(r, a, next, t);
    } else if t == a.t {
      OwnWoken(r, a, next);
    } else {
      OthersSame(r, a, next, t);
    }
  }

  lemma NotifiedMore(actions: seq<Action>, n: nat, t: nat)
    requires 0 < n <= |actions|
    ensures NotifiedSince(actions, n, t) <==>
      Notifies(actions[n - 1]) || (actions[n - 1] != Register(t) && NotifiedSince(actions, n - 1, t))
  {
    if NotifiedSince(actions, n - 1, t) && actions[n - 1] != Register(t) {
      var i :| 0 <= i < n - 1 && Notifies(actions[i]) && forall j :: i < j < n - 1 ==> actions[j] != Register(t);
      assert forall j :: i < j < n ==> actions[j] != Register(t);
    }
  }

  /** A task that waits, for the lock or parked, is woken by the notifications since it registered, and
      by nothing else: none is missed, and none from before counts. */
  lemma {:induction false} WokenIff(actions: seq<Action>, runs: seq<Run>, n: nat, t: nat)
    requires IsRun(actions, runs) && n < |runs| && t < |runs[n].tasks| && Registered(runs[n].tasks[t].phase)
    ensures runs[n].tasks[t].woken <==> NotifiedSince(actions, n, t)
  {
    SameTasks(actions, runs, n);
    if n > 0 {
      SameTasks(actions, runs, n - 1);
      WokenStep(runs[n - 1], actions[n - 1], runs[n], t);
      NotifiedMore(actions, n, t);
      if actions[n - 1] != Register(t) {
        WokenIff(actions, runs, n - 1, t);
      }
    }
  }

  lemma WokenIsFresh(r: Run, t: nat, next: Run)
    requires Step(r, Wake(t)) == Some(next) && t < |next.tasks|
    ensures next.tasks[t].phase.Fresh?
  {
  }

  /** A task waits after a step only if the step registered it, or it waited before and was not woken. */
  predicate RegisteredBy(r: Run, a: Action, next: Run, t: nat) {
    && t < |r.tasks| && t < |next.tasks|
    && (Registered(next.tasks[t].phase) ==> a == Register(t) || (Registered(r.tasks[t].phase) && a != Wake(t)))
  }

  lemma StepRegisters(r: Run, a: Action, next: Run, t: nat)
    requires Step(r, a) == Some(next) && t < |r.tasks| == |next.tasks|
    ensures RegisteredBy(r, a, next, t)
  {
    if Registered(next.tasks[t].phase) {
      WokenStep(r, a, next, t);
      if a == Wake(t) {
        WokenIsFresh(r, t, next);
      }
    }
  }

  lemma {:induction false} RegisteredSince(actions: seq<Action>, runs: seq<Run>, i: nat, j: nat, t: nat)
    requires |runs| == |actions| + 1 && i < j <= |actions| && actions[i] == Wake(t)
    requires forall k :: i <= k < j ==> RegisteredBy(runs[k], actions[k], runs[k + 1], t)
    requires t < |runs[j].tasks| && Registered(runs[j].tasks[t].phase)
    ensures exists k :: i < k < j && actions[k] == Register(t)
    decreases j
  {
    assert RegisteredBy(runs[j - 1], actions[j - 1], runs[j - 1 + 1], t);
    if actions[j - 1] != Register(t) {
      RegisteredSince(actions, runs, i, j - 1, t);
    }
  }

  /** After a wake-up a task waits again only once it has registered again. */
  lemma RegistersAgain(actions: seq<Action>, runs: seq<Run>, i: nat, j: nat, t: nat)
    requires IsRun(actions, runs) && i < j < |runs| && t < |runs[j].tasks|
    requires actions[i] == Wake(t) && Registered(runs[j].tasks[t].phase)
    ensures exists k :: i < k < j && actions[k] == Register(t)
  {
    SameTasks(actions, runs, j);
    forall k | i <= k < j ensures RegisteredBy(runs[k], actions[k], runs[k + 1], t) {
      SameTasks(actions, runs, k);
      SameTasks(actions, runs, k + 1);
      StepRegisters(runs[k], actions[k], runs[k + 1], t);
    }
    RegisteredSince(actions, runs, i, j, t);
  }

  // ---- Cancellation ----

  /** The task waits: for its turn to start, for the lock, for a notification, for the ledger or the
      agent. */
  predicate Waits(p: Phase) {
    p.Fresh? || p.Waiting? || p.Parked? || p.Inside? || p.Running?
  }

  /** These actions of one task lead from `r` on. */
  predicate OwnWay(r: Run, t: nat, actions: seq<Action>, more: seq<Run>) {
    && |more| == |actions| + 1 && more[0] == r
    && forall k :: 0 <= k < |actions| ==> actions[k].t == t && Step(more[k], actions[k]) == Some(more[k + 1])
  }

  lemma OwnWaysJoin(r: Run, t: nat, a: Action, actions: seq<Action>, more: seq<Run>)
    requires a.t == t && more != [] && Step(r, a) == Some(more[0]) && OwnWay(more[0], t, actions, more)
    ensures OwnWay(r, t, [a] + actions, [r] + more)
  {
    var all, runs := [a] + actions, [r] + more;
    forall k | 0 <= k < |all| ensures all[k].t == t && Step(runs[k], all[k]) == Some(runs[k + 1]) {
      if k > 0 {
        assert all[k] == actions[k - 1] && runs[k] == more[k - 1] && runs[k + 1] == more[k];
      }
    }
  }

  /** The task is gone without an answer, the run has failed, and everyone who waits is woken. */
  predicate Aborted(r: Run, t: nat) {
    && t < |r.tasks| && r.tasks[t].phase == Done(false) && r.failed
    && forall u :: 0 <= u < |r.tasks| && Registered(r.tasks[u].phase) ==> r.tasks[u].woken
  }

  lemma LastSteps(r: Run, t: nat) returns (actions: seq<Action>, more: seq<Run>)
    requires t < |r.tasks| && r.tasks[t].phase == Finishing(false)
    ensures OwnWay(r, t, actions, more) && Aborted(more[|actions|], t)
  {
    var failing := To(r.(failed := true), t, Failing);
    var done := To(failing.(tasks := WakeAll(failing.tasks)), t, Done(false));
    assert Step(r, Conclude(t)) == Some(failing);
    assert Step(failing, NotifyFailure(t)) == Some(done);
    actions, more := [Conclude(t), NotifyFailure(t)], [r, failing, done];
  }

  lemma DroppingSteps(r: Run, t: nat) returns (actions: seq<Action>, more: seq<Run>)
    requires t < |r.tasks| && r.tasks[t].phase.Dropping?
    ensures OwnWay(r, t, actions, more) && Aborted(more[|actions|], t)
  {
    var next := To(r.(holder := None), t, Finishing(false));
    assert Step(r, Unlock(t)) == Some(next);
    actions, more := LastSteps(next, t);
    OwnWaysJoin(r, t, Unlock(t), actions, more);
    actions, more := [Unlock(t)] + actions, [r] + more;
  }

  /** Wherever a task waits it can be cancelled, and then its own next steps, which nobody can block,
      fail the run and wake everyone. */
  lemma CancelFails(r: Run, t: nat) returns (actions: seq<Action>, more: seq<Run>)
    requires t < |r.tasks| && Waits(r.tasks[t].phase)
    ensures OwnWay(r, t, actions, more) && actions != [] && actions[0] == Cancel(t)
    ensures Aborted(more[|actions|], t)
  {
    var next := Step(r, Cancel(t)).value;
    if next.tasks[t].phase.Dropping? {
      actions, more := DroppingSteps(next, t);
    } else {
      actions, more := LastSteps(next, t);
    }
    OwnWaysJoin(r, t, Cancel(t), actions, more);
    actions, more := [Cancel(t)] + actions, [r] + more;
  }

  // ---- A turn the run could not read back ----

  /** The ledger takes a new turn, and the run's history stays without it. */
  predicate LosesTurn(r: Run, a: Action) {
    a.Finish? && a.answer.NotReread? && a.t < |r.tasks| && r.tasks[a.t].phase == Running(false)
  }

  predicate OwnHistory(r: Run) {
    r.ledger.Some? && r.ledger.value.turns == r.history.turns
  }

  lemma OwnHistoryStep(r: Run, a: Action, next: Run)
    requires r.ledger.Some? && Prepared(r) && Step(r, a) == Some(next)
    ensures next.ledger.Some?
    ensures OwnHistory(next) <==> OwnHistory(r) && !LosesTurn(r, a)
  {
    if a.Finish? {
      assert TurnPrepared(r, a.t);
    }
  }

  lemma {:induction false} OwnHistoryIff(actions: seq<Action>, runs: seq<Run>, n: nat)
    requires IsRun(actions, runs) && n < |runs| && runs[0].ledger.Some?
    ensures runs[n].ledger.Some?
    ensures OwnHistory(runs[n]) <==> forall i :: 0 <= i < n ==> !LosesTurn(runs[i], actions[i])
  {
    if n > 0 {
      OwnHistoryIff(actions, runs, n - 1);
      RunsKeepInv(actions, runs, n - 1);
      OwnHistoryStep(runs[n - 1], actions[n - 1], runs[n]);
    }
  }

  /** Whoever is let in may go to work unless the run has lost a turn before: on a new turn while no
      other node's is pending, and on one the ledger has already unless its own is.  It may always be
      refused. */
  lemma PreparesIff(actions: seq<Action>, runs: seq<Run>, n: nat, t: nat)
    requires IsRun(actions, runs) && n < |runs| && runs[0].ledger.Some?
    requires t < |runs[n].tasks| && runs[n].tasks[t].phase.Inside?
    ensures runs[n].ledger.Some?
    ensures var pending, node := runs[n].ledger.value.pending, runs[n].tasks[t].node;
            var intact := forall i :: 0 <= i < n ==> !LosesTurn(runs[i], actions[i]);
            && (Step(runs[n], Prepare(t, Notes)).Some? <==> intact && (pending == None || pending == Some(node)))
            && (Step(runs[n], Prepare(t, Recorded)).Some? <==> intact && pending != Some(node))
            && Step(runs[n], Prepare(t, Refuses)).Some?
  {
    OwnHistoryIff(actions, runs, n);
  }

  // ---- What is recorded ----

  /** The turn an accepted answer makes, the next after these. */
  function NewTurn(turns: seq<Turn>, node: string, input: string, output: string): Turn {
    Turn(node, |turns|, |turns|, input, output)
  }

  /** The ledger gets a turn exactly when it takes an answer whose turn it did not have before, and
      then that one turn; the history of the run gets it in the same step. */
  lemma TurnsRecordedOnce(actions: seq<Action>, runs: seq<Run>, n: nat)
    requires IsRun(actions, runs) && n < |actions| && runs[n].ledger.Some?
    ensures var before, after, a := runs[n].ledger.value.turns, runs[n + 1].ledger, actions[n];
      && after.Some? && a.t < |runs[n].tasks|
      && (if a.Finish? && (a.answer.Final? || a.answer.NotReread?) && runs[n].tasks[a.t].phase == Running(false) then
            after.value.turns == before + [NewTurn(before, runs[n].tasks[a.t].node, a.answer.input, a.answer.output)]
          else after.value.turns == before)
      && (a.Finish? && a.answer.Final? ==> runs[n + 1].history == after.value)
      && (!(a.Finish? && a.answer.Final?) ==> runs[n + 1].history == runs[n].history)
  {
    assert Step(runs[n], actions[n]) == Some(runs[n + 1]);
  }

  /** While the turn that was under way before a crash is outstanding only its node works, and the next
      turn is that node's. */
  predicate ComesFirst(r: Run, before: seq<Turn>, node: string) {
    && r.ledger.Some?
    && (if r.ledger.value.turns == before then
          && r.ledger.value.pending == Some(node)
          && forall t :: 0 <= t < |r.tasks| && r.tasks[t].phase == Running(false) ==> r.tasks[t].node == node
        else
          before <= r.ledger.value.turns && |before| < |r.ledger.value.turns|
          && r.ledger.value.turns[|before|].node == node)
  }

  lemma RunnersMove(r: Run, a: Action, next: Run, t: nat)
    requires Step(r, a) == Some(next) && t < |next.tasks| && next.tasks[t].phase == Running(false)
    ensures t < |r.tasks| && next.tasks[t].node == r.tasks[t].node
    ensures r.tasks[t].phase == Running(false) || (a.t == t && a.Prepare? && a.how.Notes?)
    ensures a.t == t && r.ledger.Some? ==> MayEnter(r.ledger.value, r.tasks[t].node)
  {
    if t != a.t {
      OwnLoss(r, a, next);
      OthersStay(r, a, next, t);
    }
  }

  lemma ComesFirstKept(r: Run, a: Action, next: Run, before: seq<Turn>, node: string)
    requires Step(r, a) == Some(next) && ComesFirst(r, before, node)
    ensures ComesFirst(next, before, node)
  {
    forall t | 0 <= t < |next.tasks| && next.tasks[t].phase == Running(false) && r.ledger.value.turns == before
      ensures next.tasks[t].node == node
    {
      RunnersMove(r, a, next, t);
    }
  }

  /** A turn left pending by a crash is the next one recorded, whatever else the resumed run starts. */
  lemma {:induction false} PendingTurnComesFirst(actions: seq<Action>, runs: seq<Run>, n: nat, node: string)
    requires IsRun(actions, runs) && n < |runs|
    requires runs[0].ledger.Some? && runs[0].ledger.value.pending == Some(node)
    ensures ComesFirst(runs[n], runs[0].ledger.value.turns, node)
    ensures var before, after := runs[0].history.turns, runs[n].history.turns;
      before <= after && (before != after ==> after[|before|].node == node)
  {
    if n > 0 {
      PendingTurnComesFirst(actions, runs, n - 1, node);
      ComesFirstKept(runs[n - 1], actions[n - 1], runs[n], runs[0].ledger.value.turns, node);
      HistoryGrows(actions, runs, n - 1);
    }
    RunsKeepInv(actions, runs, n);
  }
}
