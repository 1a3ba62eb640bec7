/** Shared-session admission: many invocations, one history behind a lock, a notification that
    wakes every registered waiter, a recovery owner, and a failure flag.  Each step is one action
    between two points where another thread may run. */
module SharedSession {
  import opened Prelude

  datatype Turn = Turn(node: string, step: nat, ordinal: nat, input: string, output: string)

  /** The accepted turns and, after recovery, the node whose turn was under way. */
  datatype History = History(turns: seq<Turn>, pending: Option<string>)

  /** Where an invocation stands.  `recorded` says that the ledger already has the turn being run,
      from before a crash.  From `Waiting` to `Yielding` it is registered for the
      notification; from `Checking` to `Settled` and in `Dropping` it holds the lock. */
  datatype Phase =
    | Fresh
    | Waiting
    | Checking
    | Yielding
    | Parked
    | Inside
    | Running(recorded: bool)
    | Settled(ok: bool)
    | Dropping
    | Released(ok: bool)
    | Finishing(ok: bool)
    | Failing
    | Done(ok: bool)

  datatype Task = Task(node: string, phase: Phase, woken: bool)

  /** `ledger` is the durable copy of the history, when the run has one. */
  datatype Run = Run(failed: bool, history: History, ledger: Option<History>, holder: Option<nat>, tasks: seq<Task>)

  /** How the agent's part of an invocation ends. */
  datatype Answer =
    | Final(input: string, output: string)
    | Confirmation
    | Error
    | NotRecorded                                  // the ledger refused the accepted turn
    | NotReread(input: string, output: string)     // it took the turn but could not be read again

  /** How the ledger answers the request to prepare a turn: it refuses, it notes the turn as pending,
      or it finds the turn already recorded - a node whose turn is pending has not recorded it. */
  datatype Preparation = Refuses | Notes | Recorded

  datatype Action =
    | Register(t: nat)
    | Acquire(t: nat)
    | Check(t: nat, cancelled: bool)
    | Yield(t: nat)
    | Wake(t: nat)
    | Prepare(t: nat, how: Preparation)
    | Finish(t: nat, answer: Answer)
    | Unlock(t: nat)
    | Notify(t: nat)
    | Conclude(t: nat)
    | NotifyFailure(t: nat)
    | Cancel(t: nat)

  predicate Registered(p: Phase) {
    p.Waiting? || p.Checking? || p.Yielding? || p.Parked?
  }

  predicate Holding(p: Phase) {
    p.Checking? || p.Yielding? || p.Inside? || p.Running? || p.Settled? || p.Dropping?
  }

  function To(r: Run, t: nat, p: Phase): Run
    requires t < |r.tasks|
  {
    r.(tasks := r.tasks[t := r.tasks[t].(phase := p)])
  }

  /** `notify_waiters`: everyone registered at this moment. */
  function WakeAll(tasks: seq<Task>): seq<Task> {
    seq(|tasks|, i requires 0 <= i < |tasks| =>
      if Registered(tasks[i].phase) then tasks[i].(woken := true) else tasks[i])
  }

  function Append(h: History, node: string, input: string, output: string): History {
    History(h.turns + [Turn(node, |h.turns|, |h.turns|, input, output)], None)
  }

  /** The admission condition apart from failure and cancellation. */
  predicate MayEnter(h: History, node: string) {
    h.pending == None || h.pending == Some(node)
  }

  /** What the ledger holds after taking the turn of a task, which it may have recorded before. */
  function Taken(ledger: History, node: string, recorded: bool, input: string, output: string): History {
    if recorded then ledger else Append(ledger, node, input, output)
  }

  /** The end of the agent's part, still under the lock.  Without a ledger a turn is pushed on the
      history as it is. */
  function Settle(r: Run, t: nat, answer: Answer): Option<Run>
    requires t < |r.tasks| && r.tasks[t].phase.Running?
  {
    var node, recorded := r.tasks[t].node, r.tasks[t].phase.recorded;
    match answer
    case Error => Some(To(r, t, Settled(false)))
    case Confirmation => Some(To(r.(failed := r.failed || r.ledger.Some?), t, Settled(true)))
    case Final(input, output) =>
      if r.ledger.None? then
        Some(To(r.(history := Append(r.history, node, input, output).(pending := r.history.pending)), t, Settled(true)))
      else
        var ledger := Taken(r.ledger.value, node, recorded, input, output);
        Some(To(r.(history := ledger, ledger := Some(ledger)), t, Settled(true)))
    case NotRecorded => if r.ledger.None? then None else Some(To(r, t, Settled(false)))
    case NotReread(input, output) =>
      if r.ledger.None? then None
      else Some(To(r.(ledger := Some(Taken(r.ledger.value, node, recorded, input, output))), t, Settled(false)))
  }

  /** The ledger prepares a turn only for a history that is its own, and while no other node's turn
      is pending in it. */
  predicate MayPrepare(r: Run, node: string) {
    r.ledger.Some? ==> r.ledger.value.turns == r.history.turns && MayEnter(r.ledger.value, node)
  }

  function PrepareTurn(r: Run, t: nat, how: Preparation): Option<Run>
    requires t < |r.tasks|
  {
    var node := r.tasks[t].node;
    if r.ledger.None? then if how.Notes? then Some(To(r, t, Running(false))) else None
    else
      match how
      case Refuses => Some(To(r, t, Settled(false)))
      case Notes =>
        if !MayPrepare(r, node) then None
        else Some(To(r.(ledger := Some(r.ledger.value.(pending := Some(node)))), t, Running(false)))
      case Recorded =>
        if r.ledger.value.turns != r.history.turns || r.ledger.value.pending == Some(node) then None
        else Some(To(r, t, Running(true)))
  }

  /** One action, or `None` when it cannot happen now. */
  function Step(r: Run, a: Action): Option<Run> {
    if a.t >= |r.tasks| then None
    else
      var t, task := a.t, r.tasks[a.t];
      match a
      case Register(_) =>
        if !task.phase.Fresh? then None
        else Some(r.(tasks := r.tasks[t := task.(phase := Waiting, woken := false)]))
      case Acquire(_) =>
        if !task.phase.Waiting? || r.holder.Some? then None
        else Some(To(r.(holder := Some(t)), t, Checking))
      case Check(_, cancelled) =>
        if !task.phase.Checking? then None
        else if r.failed || cancelled then Some(To(r, t, Dropping))
        else if MayEnter(r.history, task.node) then Some(To(r, t, Inside))
        else Some(To(r, t, Yielding))
      case Yield(_) =>
        if !task.phase.Yielding? then None else Some(To(r.(holder := None), t, Parked))
      case Wake(_) =>
        if !task.phase.Parked? || !task.woken then None else Some(To(r, t, Fresh))
      case Prepare(_, how) => if !task.phase.Inside? then None else PrepareTurn(r, t, how)
      case Finish(_, answer) =>
        if !task.phase.Running? then None else Settle(r, t, answer)
      case Unlock(_) =>
        if task.phase.Settled? then Some(To(r.(holder := None), t, Released(task.phase.ok)))
        else if task.phase.Dropping? then Some(To(r.(holder := None), t, Finishing(false)))
        else None
      case Notify(_) =>
        if !task.phase.Released? then None
        else Some(To(r.(tasks := WakeAll(r.tasks)), t, Finishing(task.phase.ok)))
      case Conclude(_) =>
        if !task.phase.Finishing? then None
        else if task.phase.ok then Some(To(r, t, Done(true)))
        else Some(To(r.(failed := true), t, Failing))
      case NotifyFailure(_) =>
        if !task.phase.Failing? then None
        else Some(To(r.(tasks := WakeAll(r.tasks)), t, Done(false)))
      case Cancel(_) =>
        if task.phase.Fresh? || task.phase.Waiting? || task.phase.Parked? then Some(To(r, t, Finishing(false)))
        else if task.phase.Inside? || task.phase.Running? then Some(To(r, t, Dropping))
        else None
  }

  // ---- What every step keeps ----

  /** The task has still to notify everyone. */
  predicate Owes(p: Phase) {
    p.Settled? || p.Dropping? || p.Released? || (p.Finishing? && !p.ok) || p.Failing?
  }

  /** A task that gave up the lock could go on now. */
  predicate Enabled(r: Run, task: Task) {
    r.failed || MayEnter(r.history, task.node)
  }

  /** Exactly the holder is in a phase that holds the lock. */
  predicate Exclusive(r: Run) {
    forall t :: 0 <= t < |r.tasks| ==> (Holding(r.tasks[t].phase) <==> r.holder == Some(t))
  }

  predicate SomeoneOwes(r: Run) {
    exists u :: 0 <= u < |r.tasks| && Owes(r.tasks[u].phase)
  }

  /** No wake-up is lost: whoever parked (or is about to) and could go on has been woken, or
      someone still owes a notification. */
  predicate NoLostWakeUp(r: Run) {
    forall t :: 0 <= t < |r.tasks| && (r.tasks[t].phase.Parked? || r.tasks[t].phase.Yielding?) && Enabled(r, r.tasks[t])
      ==> r.tasks[t].woken || SomeoneOwes(r)
  }

  predicate Numbered(turns: seq<Turn>) {
    forall i :: 0 <= i < |turns| ==> turns[i].ordinal == i
  }

  predicate Inv(r: Run) {
    && Exclusive(r)
    && NoLostWakeUp(r)
    && Numbered(r.history.turns)
    && (r.ledger.Some? ==> Numbered(r.ledger.value.turns) && r.history.turns <= r.ledger.value.turns)
    && Prepared(r)
  }

  predicate TurnPrepared(r: Run, t: nat)
    requires t < |r.tasks| && r.tasks[t].phase.Running?
  {
    if r.ledger.Some? then r.ledger.value.turns == r.history.turns else !r.tasks[t].phase.recorded
  }

  /** A turn is run only on the ledger's own history. */
  predicate Prepared(r: Run) {
    forall t :: 0 <= t < |r.tasks| && r.tasks[t].phase.Running? ==> TurnPrepared(r, t)
  }

  /** A new run: nobody has started; a ledger holds what the history was read from. */
  predicate Begun(r: Run) {
    && !r.failed && r.holder.None?
    && (forall t :: 0 <= t < |r.tasks| ==> r.tasks[t].phase.Fresh?)
    && Numbered(r.history.turns)
    && (r.ledger.Some? ==> r.ledger.value == r.history)
    && (r.ledger.None? ==> r.history == History([], None))
  }

  predicate LockMoved(r: Run, t: nat, next: Run)
    requires t < |r.tasks| == |next.tasks|
  {
    var was, now := Holding(r.tasks[t].phase), Holding(next.tasks[t].phase);
    || (next.holder == r.holder && now == was)
    || (r.holder == None && next.holder == Some(t) && now && !was)
    || (next.holder == None && was && !now)
  }

  /** The lock moves with the phase of the acting task. */
  lemma LockMoves(r: Run, a: Action, next: Run)
    requires Step(r, a) == Some(next)
    ensures a.t < |r.tasks| == |next.tasks| && LockMoved(r, a.t, next)
  {
    if a.Finish? {
      assert next.holder == r.holder && Holding(next.tasks[a.t].phase);
    }
  }

  lemma OthersStay(r: Run, a: Action, next: Run, u: nat)
    requires Step(r, a) == Some(next) && u < |r.tasks| && u != a.t
    ensures u < |next.tasks| && next.tasks[u].phase == r.tasks[u].phase && next.tasks[u].node == r.tasks[u].node
  {
  }

  lemma ExclusiveKept(r: Run, a: Action, next: Run)
    requires Exclusive(r) && Step(r, a) == Some(next)
    ensures Exclusive(next)
  {
    LockMoves(r, a, next);
    assert LockMoved(r, a.t, next);
    forall u | 0 <= u < |next.tasks| ensures Holding(next.tasks[u].phase) <==> next.holder == Some(u) {
      if u != a.t {
        OthersStay(r, a, next, u);
      }
    }
  }

  lemma NumberedKept(r: Run, a: Action, next: Run)
    requires Numbered(r.history.turns)
    requires r.ledger.Some? ==> Numbered(r.ledger.value.turns) && r.history.turns <= r.ledger.value.turns
    requires Step(r, a) == Some(next)
    ensures Numbered(next.history.turns)
    ensures next.ledger.Some? ==> Numbered(next.ledger.value.turns) && next.history.turns <= next.ledger.value.turns
  {
  }

  /** A step after which its task owes a notification loses nothing. */
  lemma OwingStep(next: Run, t: nat)
    requires t < |next.tasks| && Owes(next.tasks[t].phase)
    ensures NoLostWakeUp(next)
  {
    assert SomeoneOwes(next);
  }

  /** A step that only moves its own task, between phases that owe nothing. */
  lemma QuietStep(r: Run, next: Run, t: nat)
    requires NoLostWakeUp(r) && t < |r.tasks| == |next.tasks| && next.failed == r.failed && next.history == r.history
    requires forall u :: 0 <= u < |r.tasks| && u != t ==> next.tasks[u] == r.tasks[u]
    requires !Owes(r.tasks[t].phase)
    requires next.tasks[t].node == r.tasks[t].node
    requires next.tasks[t].phase.Parked? || next.tasks[t].phase.Yielding? ==>
      (r.tasks[t].phase.Yielding? && next.tasks[t].woken == r.tasks[t].woken) || !Enabled(r, r.tasks[t])
    ensures NoLostWakeUp(next)
  {
    forall u | 0 <= u < |next.tasks| && (next.tasks[u].phase.Parked? || next.tasks[u].phase.Yielding?) && Enabled(next, next.tasks[u])
      ensures next.tasks[u].woken || SomeoneOwes(next)
    {
      if SomeoneOwes(r) {
        var w :| 0 <= w < |r.tasks| && Owes(r.tasks[w].phase);
        assert Owes(next.tasks[w].phase);
      }
    }
  }

  lemma NotifyingStep(r: Run, next: Run, t: nat, p: Phase)
    requires t < |r.tasks| && !Registered(r.tasks[t].phase) && !Registered(p)
    requires next == To(r.(tasks := WakeAll(r.tasks)), t, p)
    ensures NoLostWakeUp(next)
  {
  }

  /** A task's own step changes neither failure nor history unless it then owes a notification. */
  lemma QuietShape(r: Run, a: Action, next: Run)
    requires Step(r, a) == Some(next) && !a.Notify? && !a.NotifyFailure? && !Owes(next.tasks[a.t].phase)
    ensures !Owes(r.tasks[a.t].phase) && next.failed == r.failed && next.history == r.history
  {
  }

  /** Only the check that finds a task disabled sends it off to park. */
  lemma ParkingShape(r: Run, a: Action, next: Run)
    requires Step(r, a) == Some(next) && !a.Notify? && !a.NotifyFailure?
    ensures next.tasks[a.t].phase.Parked? || next.tasks[a.t].phase.Yielding? ==>
      (r.tasks[a.t].phase.Yielding? && next.tasks[a.t].woken == r.tasks[a.t].woken) || !Enabled(r, r.tasks[a.t])
    ensures next.tasks[a.t].node == r.tasks[a.t].node
  {
  }

  lemma OthersSame(r: Run, a: Action, next: Run, u: nat)
    requires Step(r, a) == Some(next) && !a.Notify? && !a.NotifyFailure? && u < |r.tasks| && u != a.t
    ensures u < |next.tasks| && next.tasks[u] == r.tasks[u]
  {
  }

  lemma NoLostWakeUpKept(r: Run, a: Action, next: Run)
    requires NoLostWakeUp(r) && Step(r, a) == Some(next)
    ensures NoLostWakeUp(next)
  {
    LockMoves(r, a, next);
    if a.Notify? {
      NotifyingStep(r, next, a.t, Finishing(r.tasks[a.t].phase.ok));
    } else if a.NotifyFailure? {
      NotifyingStep(r, next, a.t, Done(false));
    } else if Owes(next.tasks[a.t].phase) {
      OwingStep(next, a.t);
    } else {
      QuietShape(r, a, next);
      ParkingShape(r, a, next);
      forall u | 0 <= u < |r.tasks| && u != a.t ensures next.tasks[u] == r.tasks[u] {
        OthersSame(r, a, next, u);
      }
      QuietStep(r, next, a.t);
    }
  }

  lemma OwnStaysPrepared(r: Run, a: Action, next: Run)
    requires Prepared(r) && Step(r, a) == Some(next) && a.t < |next.tasks| && next.tasks[a.t].phase.Running?
    ensures TurnPrepared(next, a.t)
  {
  }

  lemma OtherStaysPrepared(r: Run, a: Action, next: Run, t: nat)
    requires Exclusive(r) && Prepared(r) && Step(r, a) == Some(next)
    requires t < |next.tasks| && t != a.t && next.tasks[t].phase.Running?
    ensures TurnPrepared(next, t)
  {
    OthersStay(r, a, next, t);
    LockMoves(r, a, next);
    assert r.holder == Some(t);
    assert TurnPrepared(r, t);
  }

  /** Only the holder of the lock touches ledger or history, so nobody else's history goes stale. */
  lemma PreparedKept(r: Run, a: Action, next: Run)
    requires Exclusive(r) && Prepared(r) && Step(r, a) == Some(next)
    ensures Prepared(next)
  {
    forall t | 0 <= t < |next.tasks| && next.tasks[t].phase.Running? ensures TurnPrepared(next, t) {
      if t == a.t {
        OwnStaysPrepared(r, a, next);
      } else {
        OtherStaysPrepared(r, a, next, t);
      }
    }
  }

  lemma InvKept(r: Run, a: Action, next: Run)
    requires Inv(r) && Step(r, a) == Some(next)
    ensures Inv(next)
  {
    PreparedKept(r, a, next);
    ExclusiveKept(r, a, next);
    NoLostWakeUpKept(r, a, next);
    NumberedKept(r, a, next);
  }

  // ---- Runs ----

  predicate IsRun(actions: seq<Action>, runs: seq<Run>) {
    && |runs| == |actions| + 1
    && Begun(runs[0])
    && forall i :: 0 <= i < |actions| ==> Step(runs[i], actions[i]) == Some(runs[i + 1])
  }

  lemma {:induction false} RunsKeepInv(actions: seq<Action>, runs: seq<Run>, n: nat)
    requires IsRun(actions, runs) && n < |runs|
    ensures Inv(runs[n])
  {
    if n > 0 {
      RunsKeepInv(actions, runs, n - 1);
      InvKept(runs[n - 1], actions[n - 1], runs[n]);
    }
  }

  /** At most one task holds the history, in every reachable state. */
  lemma MutualExclusion(actions: seq<Action>, runs: seq<Run>, n: nat, t: nat, u: nat)
    requires IsRun(actions, runs) && n < |runs|
    requires t < |runs[n].tasks| && u < |runs[n].tasks|
    requires Holding(runs[n].tasks[t].phase) && Holding(runs[n].tasks[u].phase)
    ensures t == u
  {
    RunsKeepInv(actions, runs, n);
  }

  /** The history changes only by exactly one turn at its end, numbered next, on a final answer of
      the task that holds the lock, and only then. */
  lemma HistoryGrows(actions: seq<Action>, runs: seq<Run>, n: nat)
    requires IsRun(actions, runs) && n < |actions|
    ensures var before, after, a := runs[n].history.turns, runs[n + 1].history.turns, actions[n];
      || after == before
      || (a.Finish? && a.answer.Final? && runs[n].holder == Some(a.t)
          && after == before +
             [Turn(runs[n].tasks[a.t].node, |before|, |before|, a.answer.input, a.answer.output)])
  {
    RunsKeepInv(actions, runs, n);
    assert Step(runs[n], actions[n]) == Some(runs[n + 1]);
  }

  function Counts(a: Action): nat {
    if a.Finish? && a.answer.Final? then 1 else 0
  }

  /** Without a ledger the history is exactly the final answers so far, one turn each. */
  function FinalAnswers(actions: seq<Action>): nat {
    if actions == [] then 0
    else
      FinalAnswers(actions[..|actions| - 1]) + Counts(actions[|actions| - 1])
  }

  lemma TurnsCount(r: Run, a: Action, next: Run)
    requires Step(r, a) == Some(next) && r.ledger.None?
    ensures next.ledger.None? && |next.history.turns| == |r.history.turns| + Counts(a)
  {
  }

  lemma {:induction false} OneTurnPerFinalAnswer(actions: seq<Action>, runs: seq<Run>, n: nat)
    requires IsRun(actions, runs) && n < |runs| && runs[0].ledger.None?
    ensures |runs[n].history.turns| == FinalAnswers(actions[..n]) && runs[n].ledger.None?
  {
    if n > 0 {
      OneTurnPerFinalAnswer(actions, runs, n - 1);
      assert actions[..n][..n - 1] == actions[..n - 1];
      TurnsCount(runs[n - 1], actions[n - 1], runs[n]);
    }
  }

  /** When nothing but cancellation can happen any more - every task is done, or parked and not
      woken - no parked task could have gone on: the run has not failed, and the recovered turn
      belongs to some other node. */
  lemma QuietMeansBlocked(actions: seq<Action>, runs: seq<Run>, n: nat, t: nat)
    requires IsRun(actions, runs) && n < |runs| && t < |runs[n].tasks|
    requires forall u :: 0 <= u < |runs[n].tasks| ==>
      runs[n].tasks[u].phase.Done? || (runs[n].tasks[u].phase.Parked? && !runs[n].tasks[u].woken)
    requires runs[n].tasks[t].phase.Parked?
    ensures !runs[n].failed && runs[n].history.pending.Some? && runs[n].history.pending.value != runs[n].tasks[t].node
  {
    RunsKeepInv(actions, runs, n);
  }

  /** What a task does next, as far as its phase goes. */
  function NextAction(t: nat, p: Phase, ledger: bool): Action {
    match p
    case Fresh => Register(t)
    case Waiting => Acquire(t)
    case Checking => Check(t, false)
    case Yielding => Yield(t)
    case Parked => Wake(t)
    case Inside => Prepare(t, if ledger then Refuses else Notes)
    case Running(_) => Finish(t, Error)
    case Settled(_) => Unlock(t)
    case Dropping => Unlock(t)
    case Released(_) => Notify(t)
    case Finishing(_) => Conclude(t)
    case Failing => NotifyFailure(t)
    case Done(_) => Conclude(t)
  }

  /** As long as some task is neither done nor parked unwoken, some step is possible. */
  lemma AlwaysAStep(actions: seq<Action>, runs: seq<Run>, n: nat, t: nat) returns (a: Action)
    requires IsRun(actions, runs) && n < |runs| && t < |runs[n].tasks|
    requires !runs[n].tasks[t].phase.Done? && !(runs[n].tasks[t].phase.Parked? && !runs[n].tasks[t].woken)
    ensures Step(runs[n], a).Some? && !a.Cancel?
  {
    RunsKeepInv(actions, runs, n);
    var r := runs[n];
    var u := if r.tasks[t].phase.Waiting? && r.holder.Some? && r.holder.value < |r.tasks| then r.holder.value else t;
    HolderExists(actions, runs, n);
    a := NextAction(u, r.tasks[u].phase, r.ledger.Some?);
  }

  /** The holder is one of the tasks. */
  lemma {:induction false} HolderExists(actions: seq<Action>, runs: seq<Run>, n: nat)
    requires IsRun(actions, runs) && n < |runs|
    ensures runs[n].holder.Some? ==> runs[n].holder.value < |runs[n].tasks|
    ensures |runs[n].tasks| == |runs[0].tasks|
  {
    if n > 0 {
      HolderExists(actions, runs, n - 1);
      assert Step(runs[n - 1], actions[n - 1]) == Some(runs[n]);
    }
  }

  // ---- After a failure ----

  /** Some task is past the check and could still bring its turn to the history. */
  predicate AtWork(r: Run) {
    exists t :: 0 <= t < |r.tasks| && WorksOn(r, t)
  }

  predicate WorksOn(r: Run, t: nat)
    requires t < |r.tasks|
  {
    r.tasks[t].phase == Running(false) || (r.tasks[t].phase.Inside? && MayPrepare(r, r.tasks[t].node))
  }

  /** The turns there can ever be, once the run has failed. */
  function StillPossible(r: Run): nat {
    |r.history.turns| + if AtWork(r) then 1 else 0
  }

  /** After a failure nobody starts to work, and whoever brings a turn stops working. */
  lemma FailureCaps(r: Run, a: Action, next: Run)
    requires Inv(r) && r.failed && Step(r, a) == Some(next)
    ensures next.failed && StillPossible(next) <= StillPossible(r)
  {
    if AtWork(next) {
      var t :| 0 <= t < |next.tasks| && WorksOn(next, t);
      WorkGoesOn(r, a, next, t);
    }
    if a.Finish? && |next.history.turns| > |r.history.turns| {
      assert WorksOn(r, a.t);
      ExclusiveKept(r, a, next);
    }
  }

  /** Whoever works after a step worked before it, and the history has not grown. */
  lemma WorkGoesOn(r: Run, a: Action, next: Run, t: nat)
    requires Inv(r) && r.failed && Step(r, a) == Some(next) && t < |next.tasks| && WorksOn(next, t)
    ensures t < |r.tasks| && WorksOn(r, t) && |next.history.turns| == |r.history.turns|
  {
    if t != a.t {
      OthersStay(r, a, next, t);
      LockMoves(r, a, next);
      assert r.holder == Some(t);
    }
  }

  lemma FailedStep(actions: seq<Action>, runs: seq<Run>, j: nat)
    requires IsRun(actions, runs) && j < |actions| && runs[j].failed
    ensures runs[j + 1].failed && StillPossible(runs[j + 1]) <= StillPossible(runs[j])
  {
    RunsKeepInv(actions, runs, j);
    FailureCaps(runs[j], actions[j], runs[j + 1]);
  }

  /** Once the run has failed at most one more turn is ever accepted. */
  lemma {:induction false} AtMostOneTurnAfterFailure(actions: seq<Action>, runs: seq<Run>, i: nat, j: nat)
    requires IsRun(actions, runs) && i <= j < |runs| && runs[i].failed
    ensures runs[j].failed && StillPossible(runs[j]) <= StillPossible(runs[i])
    ensures |runs[j].history.turns| <= |runs[i].history.turns| + 1
    decreases j - i
  {
    if j > i {
      AtMostOneTurnAfterFailure(actions, runs, i, j - 1);
      FailedStep(actions, runs, j - 1);
    }
  }

  /** `more` goes on where the run stands at `i`. */
  predicate GoesOn(runs: seq<Run>, i: nat, actions: seq<Action>, more: seq<Run>)
    requires i < |runs|
  {
    && |more| == |actions| + 1 && more[0] == runs[i]
    && forall k :: 0 <= k < |actions| ==> Step(more[k], actions[k]) == Some(more[k + 1])
  }

  /** The worker's own next steps bring its turn to the history. */
  lemma WorkerFinishes(r: Run, t: nat) returns (actions: seq<Action>, more: seq<Run>)
    requires Inv(r) && t < |r.tasks| && WorksOn(r, t)
    ensures |more| == |actions| + 1 && more[0] == r
    ensures forall k :: 0 <= k < |actions| ==> Step(more[k], actions[k]) == Some(more[k + 1])
    ensures |more[|actions|].history.turns| == |r.history.turns| + 1
  {
    var finish := Finish(t, Final("", ""));
    if r.tasks[t].phase.Running? {
      actions, more := [finish], [r, Step(r, finish).value];
    } else {
      var prepared := Step(r, Prepare(t, Notes)).value;
      actions, more := [Prepare(t, Notes), finish], [r, prepared, Step(prepared, finish).value];
    }
  }

  /** A failed state that keeps the invariant and allows at most `cap` turns. */
  predicate Capped(r: Run, cap: nat) {
    Inv(r) && r.failed && StillPossible(r) <= cap
  }

  lemma CappedKept(r: Run, a: Action, next: Run, cap: nat)
    requires Capped(r, cap) && Step(r, a) == Some(next)
    ensures Capped(next, cap)
  {
    InvKept(r, a, next);
    FailureCaps(r, a, next);
  }

  lemma {:induction false} ContinuationCapped(others: seq<Action>, more: seq<Run>, cap: nat, k: nat)
    requires |more| == |others| + 1 && Capped(more[0], cap) && k < |more|
    requires forall j :: 0 <= j < |others| ==> Step(more[j], others[j]) == Some(more[j + 1])
    ensures Capped(more[k], cap)
  {
    if k > 0 {
      ContinuationCapped(others, more, cap, k - 1);
      CappedKept(more[k - 1], others[k - 1], more[k], cap);
    }
  }

  /** From a failed state a turn can still be accepted in some continuation exactly when some task
      past the check is at work. */
  lemma TurnAfterFailureIff(actions: seq<Action>, runs: seq<Run>, i: nat)
    requires IsRun(actions, runs) && i < |runs| && runs[i].failed
    ensures AtWork(runs[i]) <==>
      exists others: seq<Action>, more: seq<Run> ::
        GoesOn(runs, i, others, more) && |more[|others|].history.turns| > |runs[i].history.turns|
  {
    RunsKeepInv(actions, runs, i);
    if AtWork(runs[i]) {
      var t :| 0 <= t < |runs[i].tasks| && WorksOn(runs[i], t);
      var others, more := WorkerFinishes(runs[i], t);
      assert GoesOn(runs, i, others, more);
    }
    if others: seq<Action>, more: seq<Run> :| (GoesOn(runs, i, others, more)
                                              && |more[|others|].history.turns| > |runs[i].history.turns|) {
      ContinuationCapped(others, more, StillPossible(runs[i]), |others|);
    }
  }

  /** A run without a ledger, with two tasks. */
  function Two(failed: bool, holder: Option<nat>, a: Phase, b: Phase): Run {
    Run(failed, History([], None), None, holder, [Task("a", a, false), Task("b", b, false)])
  }

  lemma FirstMoves(failed: bool, holder: Option<nat>, a: Phase, b: Phase, to: Phase)
    ensures To(Two(failed, holder, a, b), 0, to) == Two(failed, holder, to, b)
  {
    assert Two(failed, holder, a, b).tasks[0 := Task("a", to, false)] == [Task("a", to, false), Task("b", b, false)];
  }

  lemma SecondMoves(failed: bool, holder: Option<nat>, a: Phase, b: Phase, to: Phase)
    ensures To(Two(failed, holder, a, b), 1, to) == Two(failed, holder, a, to)
  {
    assert Two(failed, holder, a, b).tasks[1 := Task("b", to, false)] == [Task("a", a, false), Task("b", to, false)];
  }

  /** The first task gets past the check. */
  lemma FirstEnters()
    ensures Step(Two(false, None, Fresh, Fresh), Register(0)) == Some(Two(false, None, Waiting, Fresh))
    ensures Step(Two(false, None, Waiting, Fresh), Acquire(0)) == Some(Two(false, Some(0), Checking, Fresh))
    ensures Step(Two(false, Some(0), Checking, Fresh), Check(0, false)) == Some(Two(false, Some(0), Inside, Fresh))
  {
    FirstMoves(false, None, Fresh, Fresh, Waiting);
    FirstMoves(false, None, Waiting, Fresh, Checking);
    FirstMoves(false, Some(0), Waiting, Fresh, Checking);
    FirstMoves(false, Some(0), Checking, Fresh, Inside);
  }

  /** The second is cancelled, and the run has failed. */
  lemma SecondFails()
    ensures Step(Two(false, Some(0), Inside, Fresh), Cancel(1)) == Some(Two(false, Some(0), Inside, Finishing(false)))
    ensures Step(Two(false, Some(0), Inside, Finishing(false)), Conclude(1)) == Some(Two(true, Some(0), Inside, Failing))
  {
    SecondMoves(false, Some(0), Inside, Fresh, Finishing(false));
    SecondMoves(true, Some(0), Inside, Finishing(false), Failing);
  }

  /** The first goes on regardless. */
  lemma FirstFinishes() returns (last: Run)
    ensures Step(Two(true, Some(0), Inside, Failing), Prepare(0, Notes)) == Some(Two(true, Some(0), Running(false), Failing))
    ensures Step(Two(true, Some(0), Running(false), Failing), Finish(0, Final("in", "out"))) == Some(last)
    ensures |last.history.turns| == 1
  {
    FirstMoves(true, Some(0), Inside, Failing, Running(false));
    last := Step(Two(true, Some(0), Running(false), Failing), Finish(0, Final("in", "out"))).value;
  }

  /** And that happens: a task past the check enters the agent after the run has failed, and its
      turn is accepted. */
  lemma EntersAfterFailure() returns (actions: seq<Action>, runs: seq<Run>)
    ensures IsRun(actions, runs) && |actions| == 7
    ensures runs[5] == Two(true, Some(0), Inside, Failing)
    ensures runs[6] == Two(true, Some(0), Running(false), Failing)
    ensures runs[5].history.turns == [] && |runs[7].history.turns| == 1
  {
    FirstEnters();
    SecondFails();
    var last := FirstFinishes();
    actions := [Register(0), Acquire(0), Check(0, false), Cancel(1), Conclude(1), Prepare(0, Notes),
                Finish(0, Final("in", "out"))];
    runs := [Two(false, None, Fresh, Fresh), Two(false, None, Waiting, Fresh), Two(false, Some(0), Checking, Fresh),
             Two(false, Some(0), Inside, Fresh), Two(false, Some(0), Inside, Finishing(false)),
             Two(true, Some(0), Inside, Failing), Two(true, Some(0), Running(false), Failing), last];
  }
}
