/** Runs that keep no transcript on disk: what `persist_generation` writes at any moment of a run
    is accepted on reopening exactly when every call in it has canonical arguments and no skill
    has only empty pages in reserve. */
module LoopRedactedRuns {
  import opened Prelude
  import opened Json
  import opened LoopStates
  import opened LoopValidation
  import opened Redaction
  import opened LoopControl
  import opened LoopAccounting
  import opened LoopBookkeeping
  import opened LoopRecovery
  import opened LoopRuns
  import opened LoopSystem

  /** The books of one copy are in order; nothing is said about its transcript. */
  ghost predicate InOrder(host: Host, s: LoopState) {
    Booked(host, s) && ReadsTracked(s)
  }

  /** Both copies are in order, and differ at most in transcript and skill records. */
  ghost predicate Kept(g: Setting, sys: System) {
    var s, t := sys.controller, sys.ledger;
    && InOrder(g.host, s)
    && InOrder(g.host, t)
    && t == s.(conversation := t.conversation, conversationReconstructed := t.conversationReconstructed,
               activatedSkills := t.activatedSkills, skillReadBytes := t.skillReadBytes,
               skillReservations := t.skillReservations)
  }

  /** A turn does not end the loop while tool calls are open, and its calls can be counted. */
  predicate Orderly(g: Setting, sys: System, e: Event) {
    e.Model? ==>
      && (IsFinish(g.host, e.content) ==> sys.controller.pendingCalls == [])
      && CallsFit(sys.controller, e.content)
  }

  /** What reading the redacted form back says about it. */
  ghost predicate AcceptedOnReopen(host: Host, s: LoopState) {
    Redactable(s) && ValidLoopState(host, Redact(s))
  }

  predicate Canonical(s: LoopState) {
    && (forall c <- s.pendingCalls :: CanonicalPending(c))
    && (forall c <- s.completedCalls :: CanonicalCompleted(c.call))
  }

  lemma SideRecordsInOrder(host: Host, s: LoopState, t: LoopState)
    requires InOrder(host, s) && ReadsTracked(t)
    requires t == s.(conversation := t.conversation, conversationReconstructed := t.conversationReconstructed,
                     activatedSkills := t.activatedSkills, skillReadBytes := t.skillReadBytes,
                     skillReservations := t.skillReservations)
    ensures InOrder(host, t)
  {
    BookedFrame(host, s, t);
  }

  lemma TurnInOrderIff(g: Setting, sys: System, e: Event)
    requires Sound(g) && InOrder(g.host, sys.controller) && e.Model?
    requires ModelTurn(g.host, g.allowed, sys.controller, e.content, e.interactionId).Ok?
    ensures var next := ModelTurn(g.host, g.allowed, sys.controller, e.content, e.interactionId).value;
            if Orderly(g, sys, e) then InOrder(g.host, next) else !FinishAgrees(next) || !DisposedAgree(next)
  {
    var s := sys.controller;
    var next := ModelTurn(g.host, g.allowed, s, e.content, e.interactionId).value;
    TurnFrame(g.host, g.allowed, s, e.content, e.interactionId);
    if !CallsFit(s, e.content) {
      OverflowIsNotBooked(g.host, g.allowed, s, e.content, e.interactionId);
    } else if Orderly(g, sys, e) {
      ModelTurnBookedIff(g.host, g.allowed, s, e.content, e.interactionId);
      AccountingMorePending(s, next);
    }
  }

  lemma ToolInOrder(g: Setting, sys: System, name: string, input: Json, response: Json)
    requires Kept(g, sys) && ToolDone(g.host, g.raw, sys.controller, sys.ledger, name, input, response).Ok?
    ensures InOrder(g.host, ToolDone(g.host, g.raw, sys.controller, sys.ledger, name, input, response).value)
  {
    var next := ToolDone(g.host, g.raw, sys.controller, sys.ledger, name, input, response).value;
    var i := ToolDoneAnswers(g.host, g.raw, sys.controller, sys.ledger, name, input, response);
    AnsweredInOrder(g.host, sys.controller, sys.ledger, i, response, next);
  }

  lemma AnsweredInOrder(host: Host, s: LoopState, persisted: LoopState, i: nat, response: Json, t: LoopState)
    requires InOrder(host, s) && ReadsCopy(s, persisted) && Answers(host, s, persisted, i, response, t)
    ensures InOrder(host, t)
  {
    AnsweredBooked(host, s, persisted, i, response, t);
    AnsweredTracked(host, s, persisted, i, response, t);
  }

  lemma ReplayInOrder(host: Host, s: LoopState, otherBytes: nat, call: PendingCall, result: Json, limit: nat)
    requires InOrder(host, s)
    requires CompletePending(host, s, otherBytes, call, result, limit).1.None?
    ensures InOrder(host, CompletePending(host, s, otherBytes, call, result, limit).0)
  {
    var i := ReplayAnswers(host, s, otherBytes, call, result, limit);
    AnsweredInOrder(host, s, s, i, result, CompletePending(host, s, otherBytes, call, result, limit).0);
  }

  /** The transcript and the set of activated skills bear on nothing here. */
  lemma TranscriptInOrder(host: Host, s: LoopState, t: LoopState)
    requires InOrder(host, s)
    requires t == s.(conversation := t.conversation, conversationReconstructed := t.conversationReconstructed,
                     activatedSkills := t.activatedSkills)
    ensures InOrder(host, t)
  {
    AccountingMorePending(s, t);
    SideRecordsInOrder(host, s, t);
  }

  predicate TranscriptEvent(e: Event) {
    e.Before? || e.SkillActivated? || e.Restore?
  }

  predicate SameButTranscript(s: LoopState, t: LoopState) {
    t == s.(conversation := t.conversation, conversationReconstructed := t.conversationReconstructed,
            activatedSkills := t.activatedSkills)
  }

  lemma TranscriptStepShape(g: Setting, sys: System, e: Event, next: System)
    requires Step(g, sys, e) == Some(next) && TranscriptEvent(e)
    ensures SameButTranscript(sys.controller, next.controller)
    ensures next.ledger == next.controller || SameButTranscript(sys.ledger, next.ledger)
  {
  }

  lemma TranscriptStepKept(g: Setting, sys: System, e: Event, next: System)
    requires Kept(g, sys) && Step(g, sys, e) == Some(next) && TranscriptEvent(e)
    ensures Kept(g, next)
  {
    TranscriptStepShape(g, sys, e, next);
    ShapeKept(g, sys, next);
  }

  lemma ShapeKept(g: Setting, sys: System, next: System)
    requires Kept(g, sys)
    requires SameButTranscript(sys.controller, next.controller)
    requires next.ledger == next.controller || SameButTranscript(sys.ledger, next.ledger)
    ensures Kept(g, next)
  {
    TranscriptInOrder(g.host, sys.controller, next.controller);
    if next.ledger != next.controller {
      TranscriptInOrder(g.host, sys.ledger, next.ledger);
    }
  }

  lemma ReserveStepKept(g: Setting, sys: System, e: Event, next: System)
    requires Kept(g, sys) && Step(g, sys, e) == Some(next) && e.ReadReserved?
    ensures Kept(g, next)
  {
    ReserveTracked(sys.ledger, e.skill, e.fingerprint, e.pageBytes);
    ReserveMakes(sys.ledger, e.skill, e.fingerprint, e.pageBytes);
    SideRecordsInOrder(g.host, sys.ledger, next.ledger);
  }

  lemma ModelStepKept(g: Setting, sys: System, e: Event, next: System)
    requires Sound(g) && Kept(g, sys) && Step(g, sys, e) == Some(next) && e.Model? && Orderly(g, sys, e)
    ensures Kept(g, next)
  {
    TurnInOrderIff(g, sys, e);
  }

  lemma ToolStepShape(g: Setting, sys: System, e: Event, next: System)
    requires Step(g, sys, e) == Some(next) && e.Tool?
    ensures ToolDone(g.host, g.raw, sys.controller, sys.ledger, e.name, e.input, e.response) == Ok(next.controller)
    ensures next.ledger == next.controller
  {
  }

  lemma ReplayStepShape(g: Setting, sys: System, e: Event, next: System)
    requires Step(g, sys, e) == Some(next) && e.Replay?
    ensures CompletePending(g.host, sys.ledger, e.otherBytes, e.call, e.result, g.limits.maxToolOutputBytes)
      == (next.ledger, None)
    ensures next.ledger == next.controller
  {
  }

  lemma BothKept(g: Setting, sys: System)
    requires InOrder(g.host, sys.controller) && sys.ledger == sys.controller
    ensures Kept(g, sys)
  {
  }

  lemma ToolKept(g: Setting, sys: System, e: Event, next: System)
    requires Kept(g, sys) && e.Tool? && next.ledger == next.controller
    requires ToolDone(g.host, g.raw, sys.controller, sys.ledger, e.name, e.input, e.response) == Ok(next.controller)
    ensures Kept(g, next)
  {
    ToolInOrder(g, sys, e.name, e.input, e.response);
    BothKept(g, next);
  }

  lemma ReplayKept(g: Setting, sys: System, e: Event, next: System)
    requires Kept(g, sys) && e.Replay? && next.ledger == next.controller
    requires CompletePending(g.host, sys.ledger, e.otherBytes, e.call, e.result, g.limits.maxToolOutputBytes)
      == (next.ledger, None)
    ensures Kept(g, next)
  {
    ReplayInOrder(g.host, sys.ledger, e.otherBytes, e.call, e.result, g.limits.maxToolOutputBytes);
    BothKept(g, next);
  }

  /** An orderly step keeps both copies in order, with or without transcripts. */
  lemma StepKept(g: Setting, sys: System, e: Event, next: System)
    requires Sound(g) && Kept(g, sys) && Step(g, sys, e) == Some(next) && Orderly(g, sys, e)
    ensures Kept(g, next)
  {
    match e {
      case Model(_, _) => ModelStepKept(g, sys, e, next);
      case Tool(_, _, _) =>
        ToolStepShape(g, sys, e, next);
        ToolKept(g, sys, e, next);
      case Replay(_, _, _) =>
        ReplayStepShape(g, sys, e, next);
        ReplayKept(g, sys, e, next);
      case ReadReserved(_, _, _) => ReserveStepKept(g, sys, e, next);
      case _ => TranscriptStepKept(g, sys, e, next);
    }
  }

  lemma {:induction false} OrderlyRunsKeep(g: Setting, events: seq<Event>, states: seq<System>, n: nat)
    requires Sound(g) && IsRun(g, events, states) && Kept(g, states[0]) && n < |states|
    requires forall i :: 0 <= i < n ==> Orderly(g, states[i], events[i])
    ensures Kept(g, states[n])
  {
    if n > 0 {
      OrderlyRunsKeep(g, events, states, n - 1);
      StepKept(g, states[n - 1], events[n - 1], states[n]);
    }
  }

  lemma InOrderAcceptedIff(host: Host, s: LoopState)
    requires CollisionFree(host) && NoSelfReference(host) && InOrder(host, s)
    ensures AcceptedOnReopen(host, s) <==> Canonical(s) && HoldsBytes(s)
  {
    RedactedFormAcceptedIff(host, s);
  }

  /** In a run of orderly turns, what would be written at any state reopens exactly when every
      call in it is canonical and no skill has only empty pages in reserve.  A turn that finishes
      over open calls, or whose calls cannot be counted, always writes a form that is refused. */
  lemma RedactedRunsAcceptedIff(g: Setting, events: seq<Event>, states: seq<System>, n: nat)
    requires Sound(g) && CollisionFree(g.host) && NoSelfReference(g.host)
    requires IsRun(g, events, states) && Kept(g, states[0]) && n < |states|
    requires forall i :: 0 <= i < n ==> Orderly(g, states[i], events[i])
    ensures AcceptedOnReopen(g.host, states[n].controller) <==>
      Canonical(states[n].controller) && HoldsBytes(states[n].controller)
    ensures AcceptedOnReopen(g.host, states[n].ledger) <==>
      Canonical(states[n].ledger) && HoldsBytes(states[n].ledger)
    ensures n < |events| && !Orderly(g, states[n], events[n]) ==>
      !AcceptedOnReopen(g.host, states[n + 1].ledger)
  {
    OrderlyRunsKeep(g, events, states, n);
    InOrderAcceptedIff(g.host, states[n].controller);
    InOrderAcceptedIff(g.host, states[n].ledger);
    if n < |events| && !Orderly(g, states[n], events[n]) {
      DisorderlyRefused(g, states[n], events[n], states[n + 1]);
    }
  }

  lemma DisorderlyRefused(g: Setting, sys: System, e: Event, next: System)
    requires Sound(g) && Kept(g, sys) && Step(g, sys, e) == Some(next) && !Orderly(g, sys, e)
    ensures !AcceptedOnReopen(g.host, next.ledger)
  {
    TurnInOrderIff(g, sys, e);
    if Redactable(next.ledger) {
      RedactKeepsAdmissions(next.ledger);
      assert !FinishAgrees(Redact(next.ledger)) || !DisposedAgree(Redact(next.ledger));
    }
  }

  /** Reopening closes the circle: an accepted form is a state from which the next run may start. */
  lemma ReopenedMayStart(g: Setting, s: LoopState)
    requires InOrder(g.host, s) && AcceptedOnReopen(g.host, s)
    ensures Kept(g, System(FRESH, FRESH))
    ensures Kept(g, System(Redact(s), Redact(s)))
  {
    FreshFit(g.host);
    assert Booked(g.host, Redact(s)) by {
      AcceptedRedactionBooked(g.host, s);
    }
  }
}
