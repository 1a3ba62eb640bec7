/** `invoke_with_response_policy`: an ordered list of candidate routes under one deadline, with an
    optional session that is prepared once and gets the accepted answer. */
module Routes {
  import opened Prelude

  datatype Stop = StopCancelled | StopDeadline

  /** How an awaited operation ends under `await_route`: not started, given up while running (it
      may have taken effect), finished too late, or finished in time. */
  datatype Wait = Blocked(stop: Stop) | Interrupted(stop: Stop, landed: bool) | Late(stop: Stop) | InTime

  datatype FailureKind =
    | RouteMismatch | StructuredOutput | SessionFailure | DeadlineExceeded | Cancelled | ProfileTimeout | Profile

  datatype CallResult = Accepted(output: string) | Retryable | Fails(kind: FailureKind)

  /** What happens with one candidate, should the loop come to it. */
  datatype Candidate = Candidate(
    stop: Option<Stop>, authorized: bool, bindWait: Wait, binds: bool,
    callWait: Wait, call: CallResult, appendWait: Wait, appends: bool)

  /** What happens when the session is prepared: loading its history, then the user's turn. */
  datatype Preparation = Preparation(loadWait: Wait, loads: bool, appendWait: Wait, appends: bool)

  datatype AttemptKind =
    | AuthorizationDenied | Configuration | RetryableProvider | TerminalProvider | Timeout | Protocol | Session

  datatype Attempt = Attempt(ordinal: nat, kind: AttemptKind)

  datatype TerminalKind =
    | Denied | Misconfigured | TerminalRouteMismatch | TerminalProtocol | TerminalProviderFailure
    | TerminalSession | TerminalCancelled | TerminalDeadline | Exhausted

  datatype Effect = LoadHistory | AppendUser | Bind(index: nat) | Call(index: nat) | AppendAssistant(output: string)

  /** What the caller gets, and what was done to brokers, providers and the session on the way. */
  datatype Report = Report(result: Result<string, TerminalKind>, attempts: seq<Attempt>, trace: seq<Effect>)

  function Stopped(stop: Stop): TerminalKind {
    if stop.StopCancelled? then TerminalCancelled else TerminalDeadline
  }

  /** The operation was at least begun. */
  predicate Started(w: Wait) {
    !w.Blocked?
  }

  /** The operation took effect. */
  predicate Landed(w: Wait) {
    w.InTime? || w.Late? || (w.Interrupted? && w.landed)
  }

  /** `invocation_failure`. */
  function Classify(kind: FailureKind): (AttemptKind, TerminalKind) {
    match kind
    case RouteMismatch => (Configuration, TerminalRouteMismatch)
    case StructuredOutput => (Protocol, TerminalProtocol)
    case SessionFailure => (Session, TerminalSession)
    case DeadlineExceeded => (Timeout, TerminalDeadline)
    case Cancelled => (Timeout, TerminalCancelled)
    case ProfileTimeout => (Timeout, TerminalProviderFailure)
    case Profile => (TerminalProvider, TerminalProviderFailure)
  }

  // ---- The shape of a trace ----

  /** The candidate is passed over: everything about it goes well but the provider asks to retry. */
  predicate PassedOver(c: Candidate) {
    c.stop.None? && c.authorized && c.bindWait.InTime? && c.binds && c.callWait.InTime? && c.call.Retryable?
  }

  predicate Wins(c: Candidate, session: bool) {
    && c.stop.None? && c.authorized && c.bindWait.InTime? && c.binds && c.callWait.InTime? && c.call.Accepted?
    && (session ==> c.appendWait.InTime? && c.appends)
  }

  predicate Prepares(p: Preparation) {
    p.loadWait.InTime? && p.loads && p.appendWait.InTime? && p.appends
  }

  /** Bind and call of the first `n` candidates, in list order. */
  function Rounds(n: nat): seq<Effect> {
    if n == 0 then [] else Rounds(n - 1) + [Bind(n - 1), Call(n - 1)]
  }

  function Retries(n: nat): seq<Attempt> {
    seq(n, (k: nat) => Attempt(k + 1, RetryableProvider))
  }

  /** What the last candidate looked at adds to the trace. */
  function LastEffects(c: Candidate, n: nat, session: bool): seq<Effect> {
    if c.stop.Some? || !c.authorized || !Started(c.bindWait) then []
    else if !c.bindWait.InTime? || !c.binds || !Started(c.callWait) then [Bind(n)]
    else if session && c.callWait.InTime? && c.call.Accepted? && Landed(c.appendWait) && c.appends then
      [Bind(n), Call(n), AppendAssistant(c.call.output)]
    else [Bind(n), Call(n)]
  }

  /** What preparing the session adds. */
  function PreparationEffects(p: Preparation): seq<Effect> {
    if !Started(p.loadWait) then []
    else if p.loadWait.InTime? && p.loads && Landed(p.appendWait) && p.appends then [LoadHistory, AppendUser]
    else [LoadHistory]
  }

  /** The loop comes to look at the session only when the first candidate is admitted. */
  predicate Admits(candidates: seq<Candidate>) {
    candidates != [] && candidates[0].stop.None? && candidates[0].authorized
  }

  /** `n` candidates were passed over, and the loop ended at the next one or ran out of them. */
  predicate EndsAt(candidates: seq<Candidate>, n: nat) {
    && n <= |candidates|
    && (forall i :: 0 <= i < n ==> PassedOver(candidates[i]))
    && (n < |candidates| ==> !PassedOver(candidates[n]))
  }

  function Prologue(candidates: seq<Candidate>, session: Option<Preparation>): seq<Effect> {
    if session.Some? && Admits(candidates) then PreparationEffects(session.value) else []
  }

  /** The loop got past preparation. */
  predicate Ready(candidates: seq<Candidate>, session: Option<Preparation>) {
    session.Some? && Admits(candidates) ==> Prepares(session.value)
  }

  /** The whole trace, from the candidates and the session alone. */
  function Trace(candidates: seq<Candidate>, session: Option<Preparation>, n: nat): seq<Effect>
    requires n <= |candidates|
  {
    if !Ready(candidates, session) then Prologue(candidates, session)
    else
      Prologue(candidates, session) + Rounds(n)
      + (if n < |candidates| then LastEffects(candidates[n], n, session.Some?) else [])
  }

  /** Attempts are numbered 1, 2, ... and all but perhaps the last asked to retry. */
  predicate Recorded(attempts: seq<Attempt>, n: nat) {
    && n <= |attempts| <= n + 1
    && attempts[..n] == Retries(n)
    && (|attempts| == n + 1 ==> attempts[n].ordinal == n + 1 && attempts[n].kind != RetryableProvider)
  }

  // ---- How the loop ends ----

  /** The stop that kept an operation from finishing in time. */
  function StopOf(w: Wait): Option<Stop> {
    match w
    case Blocked(stop) => Some(stop)
    case Interrupted(stop, _) => Some(stop)
    case Late(stop) => Some(stop)
    case InTime => None
  }

  /** The candidate is let in. */
  predicate Enters(c: Candidate) {
    c.stop.None? && c.authorized
  }

  /** The candidate's provider is asked and answers in time. */
  predicate Answers(c: Candidate) {
    Enters(c) && c.bindWait.InTime? && c.binds && c.callWait.InTime?
  }

  /** The cancellation or deadline at which one candidate ended the loop, if it did. */
  function StopAt(c: Candidate, session: bool): Option<Stop> {
    if c.stop.Some? then c.stop
    else if !c.authorized then None
    else if !c.bindWait.InTime? then StopOf(c.bindWait)
    else if !c.binds then None
    else if !c.callWait.InTime? then StopOf(c.callWait)
    else if session && c.call.Accepted? then StopOf(c.appendWait)
    else None
  }

  /** The same for the preparation of the session. */
  function StopIn(p: Preparation): Option<Stop> {
    if !p.loadWait.InTime? then StopOf(p.loadWait)
    else if !p.loads then None
    else StopOf(p.appendWait)
  }

  /** The session refuses the history, the user's turn or the assistant's turn, in time. */
  predicate SessionFails(c: Candidate) {
    Answers(c) && c.call.Accepted? && c.appendWait.InTime? && !c.appends
  }

  predicate PreparationFails(p: Preparation) {
    p.loadWait.InTime? && (!p.loads || (p.appendWait.InTime? && !p.appends))
  }

  predicate CallFails(c: Candidate, kind: FailureKind) {
    Answers(c) && c.call == Fails(kind)
  }

  /** Why a candidate that is not passed over and does not win is the end, and what is recorded of
      it besides the retries. */
  predicate Explains(c: Candidate, session: bool, n: nat, error: TerminalKind, recorded: seq<Attempt>) {
    && (error == TerminalCancelled <==> StopAt(c, session) == Some(StopCancelled) || CallFails(c, Cancelled))
    && (error == TerminalDeadline <==> StopAt(c, session) == Some(StopDeadline) || CallFails(c, DeadlineExceeded))
    && (error == Denied <==> c.stop.None? && !c.authorized)
    && (error == Misconfigured <==> Enters(c) && c.bindWait.InTime? && !c.binds)
    && (error == TerminalSession <==> (session && SessionFails(c)) || CallFails(c, SessionFailure))
    && (error == TerminalRouteMismatch <==> CallFails(c, RouteMismatch))
    && (error == TerminalProtocol <==> CallFails(c, StructuredOutput))
    && (error == TerminalProviderFailure <==> CallFails(c, ProfileTimeout) || CallFails(c, Profile))
    && error != Exhausted
    && (if StopAt(c, session).Some? then recorded == []
        else |recorded| == 1 && recorded[0].ordinal == n + 1 && RecordedAs(c, error, recorded[0].kind))
  }

  /** The kind of the last attempt: that of the failure, where a provider's own timeout counts as a
      timeout and a mismatched route as a configuration error. */
  predicate RecordedAs(c: Candidate, error: TerminalKind, kind: AttemptKind) {
    match error
    case Denied => kind == AuthorizationDenied
    case Misconfigured => kind == Configuration
    case TerminalRouteMismatch => kind == Configuration
    case TerminalProtocol => kind == Protocol
    case TerminalSession => kind == Session
    case TerminalCancelled => kind == Timeout
    case TerminalDeadline => kind == Timeout
    case TerminalProviderFailure => kind == if c.call == Fails(ProfileTimeout) then Timeout else TerminalProvider
    case Exhausted => false
  }

  /** The same for a preparation that fails: only a failure of the session itself is recorded. */
  predicate PreparationExplains(p: Preparation, error: TerminalKind, recorded: seq<Attempt>) {
    && (error == TerminalCancelled <==> StopIn(p) == Some(StopCancelled))
    && (error == TerminalDeadline <==> StopIn(p) == Some(StopDeadline))
    && (error == TerminalSession <==> PreparationFails(p))
    && error in {TerminalCancelled, TerminalDeadline, TerminalSession}
    && recorded == if PreparationFails(p) then [Attempt(1, Session)] else []
  }

  // ---- The loop ----

  datatype Prepared = Prepared(failure: Option<TerminalKind>, trace: seq<Effect>)

  /** `sessions::prepare`. */
  method PrepareSession(p: Preparation) returns (r: Prepared)
    ensures r.trace == PreparationEffects(p)
    ensures r.failure.None? <==> Prepares(p)
    ensures r.failure.Some? ==>
      PreparationExplains(p, r.failure.value, SessionAttempts(r.failure.value, 1, []))
  {
    var trace := [];
    if Started(p.loadWait) {
      trace := trace + [LoadHistory];
    }
    if !p.loadWait.InTime? {
      return Prepared(Some(Stopped(p.loadWait.stop)), trace);
    }
    if !p.loads {
      return Prepared(Some(TerminalSession), trace);
    }
    if Landed(p.appendWait) && p.appends {
      trace := trace + [AppendUser];
    }
    if !p.appendWait.InTime? {
      return Prepared(Some(Stopped(p.appendWait.stop)), trace);
    }
    r := Prepared(if p.appends then None else Some(TerminalSession), trace);
  }

  /** `session_failure`: only a failure of the session itself is recorded as an attempt. */
  function SessionAttempts(kind: TerminalKind, ordinal: nat, attempts: seq<Attempt>): seq<Attempt> {
    if kind == TerminalSession then attempts + [Attempt(ordinal, Session)] else attempts
  }

  /** One candidate that the loop does not pass over; `None` when it is. */
  method TryCandidate(c: Candidate, n: nat, session: bool, attempts: seq<Attempt>, trace: seq<Effect>)
    returns (r: Option<Report>)
    requires c.stop.None? && c.authorized && attempts == Retries(n)
    ensures r.None? <==> PassedOver(c)
    ensures r.Some? ==>
      && r.value.trace == trace + LastEffects(c, n, session)
      && Recorded(r.value.attempts, n)
      && (r.value.result.Ok? <==> Wins(c, session))
      && (r.value.result.Ok? ==> r.value.result.value == c.call.output && r.value.attempts == attempts)
      && (r.value.result.Err? ==>
            attempts <= r.value.attempts
            && Explains(c, session, n, r.value.result.error, r.value.attempts[|attempts|..]))
  {
    var ordinal, done := n + 1, trace;
    if Started(c.bindWait) {
      done := done + [Bind(n)];
    }
    if !c.bindWait.InTime? {
      return Some(Report(Err(Stopped(c.bindWait.stop)), attempts, done));
    }
    if !c.binds {
      return Some(Report(Err(Misconfigured), attempts + [Attempt(ordinal, Configuration)], done));
    }
    if Started(c.callWait) {
      done := done + [Call(n)];
      assert done == trace + [Bind(n), Call(n)];
    }
    if !c.callWait.InTime? {
      return Some(Report(Err(Stopped(c.callWait.stop)), attempts, done));
    }
    match c.call {
      case Retryable => return None;
      case Fails(kind) =>
        var (attempt, terminal) := Classify(kind);
        return Some(Report(Err(terminal), attempts + [Attempt(ordinal, attempt)], done));
      case Accepted(output) =>
        if session {
          if Landed(c.appendWait) && c.appends {
            done := done + [AppendAssistant(output)];
            assert done == trace + [Bind(n), Call(n), AppendAssistant(output)];
          }
          if !c.appendWait.InTime? || !c.appends {
            var kind := if c.appendWait.InTime? then TerminalSession else Stopped(c.appendWait.stop);
            return Some(Report(Err(kind), SessionAttempts(kind, ordinal, attempts), done));
          }
        }
        return Some(Report(Ok(output), attempts, done));
    }
  }

  /** The effects before the loop looks at candidate `n`. */
  function Before(candidates: seq<Candidate>, session: Option<Preparation>, n: nat): seq<Effect> {
    if n == 0 then [] else Prologue(candidates, session) + Rounds(n)
  }

  lemma RoundMore(candidates: seq<Candidate>, session: Option<Preparation>, n: nat)
    ensures Prologue(candidates, session) + Rounds(n) + [Bind(n), Call(n)] == Before(candidates, session, n + 1)
    ensures Retries(n) + [Attempt(n + 1, RetryableProvider)] == Retries(n + 1)
  {
  }

  /** The trace of a loop that ends at candidate `n`, put together from its pieces. */
  lemma EndTrace(candidates: seq<Candidate>, session: Option<Preparation>, n: nat)
    requires n < |candidates| && Ready(candidates, session)
    ensures Trace(candidates, session, n) ==
      Prologue(candidates, session) + Rounds(n) + LastEffects(candidates[n], n, session.Some?)
    ensures Prologue(candidates, session) + Rounds(n) + [] == Prologue(candidates, session) + Rounds(n)
    ensures n == 0 && !Admits(candidates) ==> Trace(candidates, session, n) == []
  {
  }

  /** The session is prepared once, at the first candidate, if that one is admitted. */
  method Admit(candidates: seq<Candidate>, session: Option<Preparation>, n: nat, trace: seq<Effect>)
    returns (failure: Option<TerminalKind>, after: seq<Effect>)
    requires n < |candidates| && candidates[n].stop.None? && candidates[n].authorized
    requires n > 0 ==> Ready(candidates, session)
    requires trace == Before(candidates, session, n)
    ensures failure.None? <==> Ready(candidates, session)
    ensures failure.Some? ==> n == 0 && after == Prologue(candidates, session)
    ensures failure.Some? ==>
      && session.Some?
      && PreparationExplains(session.value, failure.value, SessionAttempts(failure.value, 1, []))
    ensures failure.None? ==> after == Prologue(candidates, session) + Rounds(n)
  {
    failure, after := None, trace;
    if session.Some? && n == 0 {
      var r := PrepareSession(session.value);
      after := after + r.trace;
      failure := r.failure;
    }
    assert Rounds(0) == [];
  }

  /** Why the whole loop failed, and what it recorded, from candidates and session alone. */
  predicate LoopExplains(candidates: seq<Candidate>, session: Option<Preparation>, n: nat,
                         error: TerminalKind, attempts: seq<Attempt>)
    requires n <= |candidates|
  {
    if !Ready(candidates, session) then PreparationExplains(session.value, error, attempts)
    else if n == |candidates| then error == Exhausted && attempts == Retries(n)
    else
      && Retries(n) <= attempts
      && Explains(candidates[n], session.Some?, n, error, attempts[n..])
  }

  /** A candidate that is stopped or denied before anything is done. */
  method Refuse(c: Candidate, n: nat, session: bool, attempts: seq<Attempt>)
    returns (kind: TerminalKind, recorded: seq<Attempt>)
    requires !Enters(c) && attempts == Retries(n)
    ensures attempts <= recorded && Recorded(recorded, n) && Explains(c, session, n, kind, recorded[n..])
  {
    if c.stop.Some? {
      kind, recorded := Stopped(c.stop.value), attempts;
    } else {
      kind, recorded := Denied, attempts + [Attempt(n + 1, AuthorizationDenied)];
      assert recorded[n..] == [Attempt(n + 1, AuthorizationDenied)];
    }
  }

  /** The fallback loop does exactly the effects of `Trace`, records its attempts in order, and
      succeeds exactly when the candidate it ends at wins; any other end is reported as what it
      was. */
  method Invoke(candidates: seq<Candidate>, session: Option<Preparation>) returns (report: Report, n: nat)
    ensures Ready(candidates, session) ==> EndsAt(candidates, n)
    ensures !Ready(candidates, session) ==> n == 0
    ensures n <= |candidates| && report.trace == Trace(candidates, session, n)
    ensures Recorded(report.attempts, n)
    ensures report.result.Ok? <==>
      Ready(candidates, session) && n < |candidates| && Wins(candidates[n], session.Some?)
    ensures report.result.Ok? ==> report.result.value == candidates[n].call.output && report.attempts == Retries(n)
    ensures report.result.Err? ==> LoopExplains(candidates, session, n, report.result.error, report.attempts)
  {
    var attempts, trace := [], [];
    n := 0;
    while n < |candidates|
      invariant n <= |candidates|
      invariant forall i :: 0 <= i < n ==> PassedOver(candidates[i])
      invariant attempts == Retries(n)
      invariant n > 0 ==> Ready(candidates, session)
      invariant trace == Before(candidates, session, n)
    {
      var c := candidates[n];
      if c.stop.Some? || !c.authorized {
        EndTrace(candidates, session, n);
        var kind, recorded := Refuse(c, n, session.Some?, attempts);
        return Report(Err(kind), recorded, trace), n;
      }
      var failure, ready := Admit(candidates, session, n, trace);
      if failure.Some? {
        return Report(Err(failure.value), SessionAttempts(failure.value, n + 1, attempts), ready), n;
      }
      EndTrace(candidates, session, n);
      var tried := TryCandidate(c, n, session.Some?, attempts, ready);
      if tried.Some? {
        return tried.value, n;
      }
      RoundMore(candidates, session, n);
      trace := ready + [Bind(n), Call(n)];
      attempts := attempts + [Attempt(n + 1, RetryableProvider)];
      n := n + 1;
    }
    NoneLeft(candidates, session);
    report := Report(Err(Exhausted), attempts, trace);
  }

  lemma NoneLeft(candidates: seq<Candidate>, session: Option<Preparation>)
    requires |candidates| > 0 ==> Ready(candidates, session)
    ensures Trace(candidates, session, |candidates|) == Before(candidates, session, |candidates|)
  {
    assert Rounds(0) == [];
  }

  // ---- What every trace is like ----

  lemma {:induction false} RoundsAt(n: nat, k: nat)
    requires k < |Rounds(n)|
    ensures |Rounds(n)| == 2 * n && Rounds(n)[k] == if k % 2 == 0 then Bind(k / 2) else Call(k / 2)
  {
    if n > 0 {
      RoundsLength(n - 1);
      if k < |Rounds(n - 1)| {
        RoundsAt(n - 1, k);
      }
    }
  }

  lemma {:induction false} RoundsLength(n: nat)
    ensures |Rounds(n)| == 2 * n
  {
    if n > 0 {
      RoundsLength(n - 1);
    }
  }

  /** A candidate is touched when it is authorized, every one before it ended by asking to retry, and
      the session, if there is one, has been prepared. */
  predicate TouchInPlace(candidates: seq<Candidate>, session: Option<Preparation>, trace: seq<Effect>, e: Effect, k: nat)
    requires e.Bind? || e.Call?
  {
    && e.index < |candidates| && candidates[e.index].authorized
    && (forall j :: 0 <= j < e.index ==> PassedOver(candidates[j]))
    && (session.Some? ==> Prepares(session.value) && 2 <= k < |trace| && trace[..2] == [LoadHistory, AppendUser])
  }

  lemma ReadyPrologue(candidates: seq<Candidate>, session: Option<Preparation>)
    requires Ready(candidates, session) && Admits(candidates) && session.Some?
    ensures Prologue(candidates, session) == [LoadHistory, AppendUser] && Prepares(session.value)
  {
  }

  lemma Unprepared(candidates: seq<Candidate>, session: Option<Preparation>, n: nat, k: nat)
    requires !Ready(candidates, session) && n <= |candidates| && k < |Trace(candidates, session, n)|
    ensures session.Some? && k <= 1 && Trace(candidates, session, n)[k] == if k == 0 then LoadHistory else AppendUser
  {
  }

  lemma InPrologue(candidates: seq<Candidate>, session: Option<Preparation>, n: nat, k: nat)
    requires Ready(candidates, session) && n <= |candidates| && k < |Prologue(candidates, session)|
    ensures session.Some? && k <= 1 && k < |Trace(candidates, session, n)|
    ensures Trace(candidates, session, n)[k] == if k == 0 then LoadHistory else AppendUser
  {
    ReadyPrologue(candidates, session);
  }

  /** The effects after the prologue. */
  function Body(candidates: seq<Candidate>, session: Option<Preparation>, n: nat): seq<Effect>
    requires n <= |candidates|
  {
    Rounds(n) + if n < |candidates| then LastEffects(candidates[n], n, session.Some?) else []
  }

  lemma TraceHasBody(candidates: seq<Candidate>, session: Option<Preparation>, n: nat)
    requires Ready(candidates, session) && n <= |candidates|
    ensures Trace(candidates, session, n) == Prologue(candidates, session) + Body(candidates, session, n)
  {
  }

  lemma InBody(candidates: seq<Candidate>, session: Option<Preparation>, n: nat, k: nat)
    requires EndsAt(candidates, n) && k < |Body(candidates, session, n)|
    ensures var e := Body(candidates, session, n)[k];
      if e.Bind? || e.Call? then
        && e.index <= n && e.index < |candidates| && candidates[e.index].authorized && Admits(candidates)
      else
        && session.Some? && k == |Body(candidates, session, n)| - 1
        && n < |candidates| && candidates[n].call.Accepted? && e == AppendAssistant(candidates[n].call.output)
  {
    RoundsLength(n);
    if k < |Rounds(n)| {
      RoundsAt(n, k);
    }
  }

  lemma BehindPrologue(candidates: seq<Candidate>, session: Option<Preparation>, n: nat, k: nat)
    requires EndsAt(candidates, n) && Ready(candidates, session)
    requires |Prologue(candidates, session)| <= k < |Trace(candidates, session, n)|
    ensures var trace := Trace(candidates, session, n);
      if trace[k].Bind? || trace[k].Call? then TouchInPlace(candidates, session, trace, trace[k], k)
      else
        && session.Some? && k == |trace| - 1
        && n < |candidates| && candidates[n].call.Accepted? && trace[k] == AppendAssistant(candidates[n].call.output)
  {
    TraceHasBody(candidates, session, n);
    InBody(candidates, session, n, k - |Prologue(candidates, session)|);
    if session.Some? && Admits(candidates) {
      ReadyPrologue(candidates, session);
    }
  }

  /** Every bind and every provider call is for an authorized candidate, and every candidate before
      it ended by asking to retry; the user's turn is appended before any of them, at most once, and
      the assistant's turn only as the very last effect, for an accepted call of a session. */
  lemma TraceIsOrderly(candidates: seq<Candidate>, session: Option<Preparation>, n: nat, k: nat)
    requires EndsAt(candidates, n) || (!Ready(candidates, session) && n == 0)
    requires k < |Trace(candidates, session, n)|
    ensures var trace := Trace(candidates, session, n);
      match trace[k]
      case LoadHistory => session.Some? && k == 0
      case AppendUser => session.Some? && k == 1
      case AppendAssistant(output) =>
        && session.Some? && k == |trace| - 1
        && n < |candidates| && candidates[n].call == Accepted(output)
      case _ => TouchInPlace(candidates, session, trace, trace[k], k)
  {
    if !Ready(candidates, session) {
      Unprepared(candidates, session, n, k);
    } else if k < |Prologue(candidates, session)| {
      InPrologue(candidates, session, n, k);
    } else {
      BehindPrologue(candidates, session, n, k);
    }
  }

  /** An append, or any other operation, took effect: it finished, or was given up too late. */
  predicate TookEffect(w: Wait) {
    match w
    case Blocked(_) => false
    case Interrupted(_, landed) => landed
    case Late(_) => true
    case InTime => true
  }

  lemma {:induction false} RoundsHave(n: nat, i: nat)
    ensures Bind(i) in Rounds(n) <==> i < n
    ensures Call(i) in Rounds(n) <==> i < n
    ensures forall e <- Rounds(n) :: e.Bind? || e.Call?
  {
    if n > 0 {
      RoundsHave(n - 1, i);
    }
  }

  lemma LastHas(c: Candidate, n: nat, session: bool, i: nat)
    ensures Bind(i) in LastEffects(c, n, session) <==> i == n && Enters(c) && !c.bindWait.Blocked?
    ensures Call(i) in LastEffects(c, n, session) <==>
      i == n && Enters(c) && c.bindWait.InTime? && c.binds && !c.callWait.Blocked?
    ensures forall output :: AppendAssistant(output) in LastEffects(c, n, session) <==>
      session && Answers(c) && c.call == Accepted(output) && TookEffect(c.appendWait) && c.appends
    ensures LoadHistory !in LastEffects(c, n, session) && AppendUser !in LastEffects(c, n, session)
  {
  }

  lemma PreparationHas(p: Preparation)
    ensures LoadHistory in PreparationEffects(p) <==> !p.loadWait.Blocked?
    ensures AppendUser in PreparationEffects(p) <==>
      p.loadWait.InTime? && p.loads && TookEffect(p.appendWait) && p.appends
    ensures forall e <- PreparationEffects(p) :: e.LoadHistory? || e.AppendUser?
  {
  }

  /** What has happened once the loop ended: which candidates were bound and called, and whether the
      session has got its turns - also from an operation that was given up after it had landed. */
  lemma TraceHas(candidates: seq<Candidate>, session: Option<Preparation>, n: nat, i: nat)
    requires EndsAt(candidates, n) && Ready(candidates, session)
    ensures var trace := Trace(candidates, session, n);
      && (Bind(i) in trace <==>
            i < n || (i == n < |candidates| && Enters(candidates[n]) && !candidates[n].bindWait.Blocked?))
      && (Call(i) in trace <==>
            || i < n
            || (i == n < |candidates| && Enters(candidates[n]) && candidates[n].bindWait.InTime? && candidates[n].binds
                && !candidates[n].callWait.Blocked?))
      && (LoadHistory in trace <==> session.Some? && Admits(candidates))
      && (AppendUser in trace <==> session.Some? && Admits(candidates))
      && forall output :: AppendAssistant(output) in trace <==>
           && session.Some? && n < |candidates| && Answers(candidates[n])
           && candidates[n].call == Accepted(output) && TookEffect(candidates[n].appendWait) && candidates[n].appends
  {
    TraceHasBody(candidates, session, n);
    RoundsHave(n, i);
    if n < |candidates| {
      LastHas(candidates[n], n, session.Some?, i);
    }
    if session.Some? && Admits(candidates) {
      ReadyPrologue(candidates, session);
    }
  }

  /** When preparing the session fails nothing but the session has been touched. */
  lemma UnpreparedHas(candidates: seq<Candidate>, session: Option<Preparation>)
    requires !Ready(candidates, session)
    ensures var trace := Trace(candidates, session, 0);
      && (LoadHistory in trace <==> !session.value.loadWait.Blocked?)
      && (AppendUser in trace <==>
            && session.value.loadWait.InTime? && session.value.loads
            && TookEffect(session.value.appendWait) && session.value.appends)
      && forall e <- trace :: e.LoadHistory? || e.AppendUser?
  {
    PreparationHas(session.value);
  }

  /** An invocation that succeeds in a session has appended both turns, one at each end. */
  lemma SuccessAppendsBoth(candidates: seq<Candidate>, session: Option<Preparation>, n: nat)
    requires EndsAt(candidates, n) && Ready(candidates, session) && session.Some?
    requires n < |candidates| && Wins(candidates[n], true)
    ensures var trace := Trace(candidates, session, n);
      |trace| >= 3 && trace[1] == AppendUser && trace[|trace| - 1] == AppendAssistant(candidates[n].call.output)
  {
  }
}
