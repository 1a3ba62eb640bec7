/** One node's loop as a system of two copies of its state - the controller's and the ledger's -
    and the theorem about all of its raw-transcript runs. */
module LoopSystem {
  import opened Prelude
  import opened Json
  import opened Sums
  import opened LoopStates
  import opened LoopValidation
  import opened Redaction
  import opened LoopControl
  import opened LoopAccounting
  import opened LoopBookkeeping
  import opened LoopRecovery
  import opened LoopRuns

  datatype RunLimits = RunLimits(
    maxModelTurns: nat, maxToolCalls: nat, maxCallsPerTool: nat, maxToolOutputBytes: nat)

  datatype System = System(controller: LoopState, ledger: LoopState)

  datatype Event =
    | Before(contents: seq<Content>)
    | Model(content: Content, interactionId: Option<string>)
    | Tool(name: string, input: Json, response: Json)
    | ReadReserved(skill: string, fingerprint: string, pageBytes: nat)
    | SkillActivated(skill: string)
    | Replay(call: PendingCall, result: Json, otherBytes: nat)
    | Restore(completed: seq<(CompletedCall, Json)>)

  /** What stays fixed during a run; `raw` says whether transcripts are kept on disk. */
  datatype Setting = Setting(host: Host, limits: RunLimits, allowed: set<string>, raw: bool)

  /** The assumptions on the host and the configured limits. */
  ghost predicate Sound(g: Setting) {
    && PositiveSizes(g.host)
    && (forall a :: g.host.fingerprint(a) != "")
    && "" !in g.allowed
    && g.limits.maxModelTurns <= U64_MAX
  }

  /** The system after a step that succeeds; `None` when the step is refused or not enabled.
      The node's own use never exceeds what the limits allow all nodes together.
      Replaying and restoring happen on resume, before the controller is made from the ledger's
      copy. */
  function Step(g: Setting, sys: System, e: Event): Option<System> {
    var s := sys.controller;
    match e
    case Before(contents) =>
      if s.modelIterations >= g.limits.maxModelTurns then None
      else
        var next := BeforeModel(s, contents).0;
        Some(System(next, if s.conversation == [] then next else sys.ledger))
    case Model(content, interactionId) =>
      (match ModelTurn(g.host, g.allowed, s, content, interactionId)
       case Err(_) => None
       case Ok(next) =>
         if s.modelIterations >= g.limits.maxModelTurns || next.totalToolCalls > g.limits.maxToolCalls then None
         else Some(System(next, next)))
    case Tool(name, input, response) =>
      (match ToolDone(g.host, g.raw, s, sys.ledger, name, input, response)
       case Err(_) => None
       case Ok(next) =>
         if next.toolOutputBytes > g.limits.maxToolOutputBytes then None else Some(System(next, next)))
    case ReadReserved(skill, fingerprint, pageBytes) =>
      if skill == "" || ReservationOf(sys.ledger.pendingCalls, fingerprint) != Some(skill) then None
      else
        (match Reserve(sys.ledger, false, skill, fingerprint, pageBytes)
         case Err(_) => None
         case Ok(reserved) => Some(sys.(ledger := reserved.0)))
    case SkillActivated(skill) =>
      Some(sys.(ledger := sys.ledger.(activatedSkills := sys.ledger.activatedSkills + {skill})))
    case Replay(call, result, otherBytes) =>
      if sys.ledger != s then None
      else
        var (next, failure) := CompletePending(g.host, s, otherBytes, call, result, g.limits.maxToolOutputBytes);
        if failure.Some? then None else Some(System(next, next))
    case Restore(completed) =>
      if sys.ledger != s then None
      else
        (match RestoreTurn(s, completed)
         case Err(_) => None
         case Ok(next) => Some(System(next, next)))
  }

  /** What a caller can check before the step: contents in order, totals within 64 bits, and no
      skill left with only empty pages in reserve. */
  ghost predicate Good(g: Setting, sys: System, e: Event) {
    match e
    case Before(contents) =>
      sys.controller.conversation == [] ==> forall c <- contents :: Plain(g.host, c)
    case Model(content, _) => GoodTurn(g.host, sys.controller, content)
    case Tool(name, input, response) =>
      GoodAnswer(g.host, sys.controller, sys.ledger, name, g.host.fingerprint(input), response)
    case ReadReserved(skill, fingerprint, pageBytes) =>
      fingerprint in sys.ledger.skillReservations || pageBytes > 0 || Sum(Held(sys.ledger, skill)) > 0
    case Replay(call, result, _) => GoodAnswer(g.host, sys.ledger, sys.ledger, call.name, call.fingerprint, result)
    case SkillActivated(_) => true
    case Restore(_) => false
  }

  ghost predicate AllValid(g: Setting, sys: System) {
    ValidLoopState(g.host, sys.controller) && ValidLoopState(g.host, sys.ledger)
  }

  /** Both copies are fit, and differ at most in what skill tools recorded in the ledger. */
  ghost predicate Invariant(g: Setting, sys: System) {
    var s, t := sys.controller, sys.ledger;
    && RawFit(g.host, s) && RawFit(g.host, t)
    && t == s.(activatedSkills := t.activatedSkills, skillReadBytes := t.skillReadBytes,
               skillReservations := t.skillReservations)
    && !s.conversationReconstructed
  }

  lemma InvariantValid(g: Setting, sys: System)
    requires Invariant(g, sys)
    ensures AllValid(g, sys)
  {
    RawFitValid(g.host, sys.controller);
    RawFitValid(g.host, sys.ledger);
  }

  lemma BeforeStep(g: Setting, sys: System, contents: seq<Content>)
    requires Sound(g) && Invariant(g, sys) && Step(g, sys, Before(contents)).Some?
    ensures var next := Step(g, sys, Before(contents)).value;
            if Good(g, sys, Before(contents)) then Invariant(g, next) else !AllValid(g, next)
  {
    if sys.controller.conversation == [] {
      BeforeModelValidIff(g.host, sys.controller, contents);
    } else {
      assert Step(g, sys, Before(contents)).value == sys;
    }
  }

  lemma ModelStep(g: Setting, sys: System, content: Content, interactionId: Option<string>)
    requires Sound(g) && Invariant(g, sys) && Step(g, sys, Model(content, interactionId)).Some?
    ensures var e := Model(content, interactionId);
            var next := Step(g, sys, e).value;
            if Good(g, sys, e) then Invariant(g, next) else !AllValid(g, next)
  {
    ModelTurnValidIff(g.host, g.allowed, sys.controller, content, interactionId);
    TurnFrame(g.host, g.allowed, sys.controller, content, interactionId);
  }

  lemma ToolStep(g: Setting, sys: System, name: string, input: Json, response: Json)
    requires g.raw && Invariant(g, sys) && Step(g, sys, Tool(name, input, response)).Some?
    ensures var e := Tool(name, input, response);
            var next := Step(g, sys, e).value;
            if Good(g, sys, e) then Invariant(g, next) else !AllValid(g, next)
  {
    ToolDoneValidIff(g.host, sys.controller, sys.ledger, name, input, response);
  }

  /** What skill tools record beside the transcript bears on the read accounting only. */
  lemma ReadsFit(host: Host, s: LoopState, t: LoopState)
    requires RawFit(host, s) && ValidReadAccounting(t)
    requires t == s.(activatedSkills := t.activatedSkills, skillReadBytes := t.skillReadBytes,
                     skillReservations := t.skillReservations)
    ensures RawFit(host, t)
  {
    BookedFrame(host, s, t);
  }

  lemma RecordsKeepInvariant(g: Setting, sys: System, t: LoopState)
    requires Invariant(g, sys) && ValidReadAccounting(t)
    requires t == sys.ledger.(activatedSkills := t.activatedSkills, skillReadBytes := t.skillReadBytes,
                              skillReservations := t.skillReservations)
    ensures Invariant(g, sys.(ledger := t))
  {
    ReadsFit(g.host, sys.ledger, t);
  }

  lemma ReserveMakes(s: LoopState, skill: string, fp: string, pageBytes: nat)
    requires Reserve(s, false, skill, fp, pageBytes).Ok?
    ensures var t := Reserve(s, false, skill, fp, pageBytes).value.0;
      if fp in s.skillReservations then t == s
      else t == s.(skillReadBytes := t.skillReadBytes, skillReservations := t.skillReservations)
  {
  }

  lemma RecordsDecide(g: Setting, sys: System, t: LoopState)
    requires Invariant(g, sys)
    requires t == sys.ledger.(activatedSkills := t.activatedSkills, skillReadBytes := t.skillReadBytes,
                              skillReservations := t.skillReservations)
    ensures if ValidReadAccounting(t) then Invariant(g, sys.(ledger := t)) else !AllValid(g, sys.(ledger := t))
  {
    if ValidReadAccounting(t) {
      RecordsKeepInvariant(g, sys, t);
    }
  }

  lemma StepReserves(g: Setting, sys: System, e: Event)
    requires Step(g, sys, e).Some? && e.ReadReserved?
    ensures e.skill != "" && ReservationOf(sys.ledger.pendingCalls, e.fingerprint) == Some(e.skill)
    ensures Reserve(sys.ledger, false, e.skill, e.fingerprint, e.pageBytes).Ok?
    ensures Step(g, sys, e) ==
      Some(sys.(ledger := Reserve(sys.ledger, false, e.skill, e.fingerprint, e.pageBytes).value.0))
  {
  }

  lemma InvariantTracks(g: Setting, sys: System)
    requires Invariant(g, sys)
    ensures ValidReadAccounting(sys.ledger)
  {
  }

  lemma ReserveStep(g: Setting, sys: System, e: Event)
    requires Invariant(g, sys) && Step(g, sys, e).Some? && e.ReadReserved?
    ensures var next := Step(g, sys, e).value;
            if Good(g, sys, e) then Invariant(g, next) else !AllValid(g, next)
  {
    StepReserves(g, sys, e);
    ReserveMakes(sys.ledger, e.skill, e.fingerprint, e.pageBytes);
    if e.fingerprint in sys.ledger.skillReservations {
      assert Step(g, sys, e) == Some(sys);
    } else {
      InvariantTracks(g, sys);
      ReserveValidIff(sys.ledger, e.skill, e.fingerprint, e.pageBytes);
      RecordsDecide(g, sys, Reserve(sys.ledger, false, e.skill, e.fingerprint, e.pageBytes).value.0);
    }
  }

  lemma ActivatedAccounting(s: LoopState, skills: set<string>)
    requires ValidReadAccounting(s)
    ensures ValidReadAccounting(s.(activatedSkills := skills))
  {
    AccountingMorePending(s, s.(activatedSkills := skills));
  }

  lemma ActivateStep(g: Setting, sys: System, e: Event)
    requires Invariant(g, sys) && Step(g, sys, e).Some? && e.SkillActivated?
    ensures Invariant(g, Step(g, sys, e).value)
  {
    var skills := sys.ledger.activatedSkills + {e.skill};
    ActivatedAccounting(sys.ledger, skills);
    RecordsKeepInvariant(g, sys, sys.ledger.(activatedSkills := skills));
  }

  lemma BothCopies(g: Setting, next: System)
    requires next.controller == next.ledger && !next.ledger.conversationReconstructed
    ensures RawFit(g.host, next.ledger) ==> Invariant(g, next)
    ensures !ValidLoopState(g.host, next.ledger) ==> !AllValid(g, next)
  {
  }

  /** What the replay of a pending call leaves in the store. */
  function Replayed(g: Setting, s: LoopState, e: Event): LoopState
    requires e.Replay?
  {
    CompletePending(g.host, s, e.otherBytes, e.call, e.result, g.limits.maxToolOutputBytes).0
  }

  lemma ReplayMakes(g: Setting, sys: System, e: Event, next: System)
    requires Step(g, sys, e) == Some(next) && e.Replay?
    ensures CompletePending(g.host, sys.ledger, e.otherBytes, e.call, e.result, g.limits.maxToolOutputBytes).1.None?
    ensures sys.ledger == sys.controller
    ensures next.ledger == next.controller == Replayed(g, sys.ledger, e)
    ensures next.ledger.conversationReconstructed == sys.ledger.conversationReconstructed
  {
    CompletePendingMoves(g.host, sys.ledger, e.otherBytes, e.call, e.result, g.limits.maxToolOutputBytes);
  }

  lemma InvariantFits(g: Setting, sys: System)
    requires Invariant(g, sys)
    ensures RawFit(g.host, sys.ledger) && !sys.ledger.conversationReconstructed
  {
  }

  lemma ReplayDecides(g: Setting, s: LoopState, e: Event, t: LoopState)
    requires RawFit(g.host, s) && e.Replay? && t == Replayed(g, s, e)
    requires CompletePending(g.host, s, e.otherBytes, e.call, e.result, g.limits.maxToolOutputBytes).1.None?
    ensures GoodAnswer(g.host, s, s, e.call.name, e.call.fingerprint, e.result) ==> RawFit(g.host, t)
    ensures !GoodAnswer(g.host, s, s, e.call.name, e.call.fingerprint, e.result) ==> !ValidLoopState(g.host, t)
  {
    CompletePendingValidIff(g.host, s, e.otherBytes, e.call, e.result, g.limits.maxToolOutputBytes);
  }

  lemma GoodReplay(g: Setting, sys: System, e: Event)
    requires e.Replay?
    ensures Good(g, sys, e) ==
      GoodAnswer(g.host, sys.ledger, sys.ledger, e.call.name, e.call.fingerprint, e.result)
  {
  }

  lemma ReplayStep(g: Setting, sys: System, e: Event, next: System)
    requires RawFit(g.host, sys.ledger) && !sys.ledger.conversationReconstructed
    requires Step(g, sys, e) == Some(next) && e.Replay?
    ensures if Good(g, sys, e) then Invariant(g, next) else !AllValid(g, next)
  {
    ReplayMakes(g, sys, e, next);
    ReplayDecides(g, sys.ledger, e, next.ledger);
    BothCopies(g, next);
    GoodReplay(g, sys, e);
  }

  /** A good step keeps the invariant; any other step leaves a state the validator refuses. */
  lemma StepPreserves(g: Setting, sys: System, e: Event, next: System)
    requires Sound(g) && g.raw && Invariant(g, sys) && Step(g, sys, e) == Some(next)
    ensures if Good(g, sys, e) then Invariant(g, next) else !AllValid(g, next)
  {
    match e {
      case Before(contents) => BeforeStep(g, sys, contents);
      case Model(content, interactionId) => ModelStep(g, sys, content, interactionId);
      case Tool(name, input, response) => ToolStep(g, sys, name, input, response);
      case ReadReserved(_, _, _) => ReserveStep(g, sys, e);
      case SkillActivated(_) => ActivateStep(g, sys, e);
      case Replay(_, _, _) => InvariantFits(g, sys); ReplayStep(g, sys, e, next);
      case Restore(completed) => RestoredTurnInvalid(g.host, sys.ledger, completed);
    }
  }

  /** `states` is what the events lead through. */
  predicate IsRun(g: Setting, events: seq<Event>, states: seq<System>) {
    && |states| == |events| + 1
    && forall i :: 0 <= i < |events| ==> Step(g, states[i], events[i]) == Some(states[i + 1])
  }

  ghost predicate AllGood(g: Setting, events: seq<Event>, states: seq<System>)
    requires |states| == |events| + 1
  {
    forall i :: 0 <= i < |events| ==> Good(g, states[i], events[i])
  }

  /** Where a run may start: a node without a past, or what the ledger held at some point of an
      earlier run. */
  lemma RunsMayStart(g: Setting, sys: System)
    ensures Invariant(g, System(FRESH, FRESH))
    ensures Invariant(g, sys) ==> Invariant(g, System(sys.ledger, sys.ledger))
  {
    FreshFit(g.host);
  }

  lemma {:induction false} GoodRunsKeepInvariant(g: Setting, events: seq<Event>, states: seq<System>, n: nat)
    requires Sound(g) && g.raw && IsRun(g, events, states) && Invariant(g, states[0]) && n < |states|
    requires forall i :: 0 <= i < n ==> Good(g, states[i], events[i])
    ensures Invariant(g, states[n])
  {
    if n > 0 {
      GoodRunsKeepInvariant(g, events, states, n - 1);
      StepPreserves(g, states[n - 1], events[n - 1], states[n]);
    }
  }

  /** Every state of a run - the controller's and the ledger's - passes `valid_loop_state`
      exactly when every step of the run was good. */
  lemma RunsValidateIff(g: Setting, events: seq<Event>, states: seq<System>)
    requires Sound(g) && g.raw && IsRun(g, events, states) && Invariant(g, states[0])
    ensures (forall i :: 0 <= i < |states| ==> AllValid(g, states[i])) <==> AllGood(g, events, states)
  {
    if AllGood(g, events, states) {
      forall i | 0 <= i < |states| ensures AllValid(g, states[i]) {
        GoodRunsKeepInvariant(g, events, states, i);
        InvariantValid(g, states[i]);
      }
    } else {
      var i := FirstBad(g, events, states);
      GoodRunsKeepInvariant(g, events, states, i);
      StepPreserves(g, states[i], events[i], states[i + 1]);
      assert !AllValid(g, states[i + 1]);
    }
  }

  lemma FirstBad(g: Setting, events: seq<Event>, states: seq<System>) returns (i: nat)
    requires |states| == |events| + 1 && !AllGood(g, events, states)
    ensures i < |events| && !Good(g, states[i], events[i])
    ensures forall j :: 0 <= j < i ==> Good(g, states[j], events[j])
  {
    i := 0;
    while Good(g, states[i], events[i])
      invariant i < |events|
      invariant forall j :: 0 <= j < i ==> Good(g, states[j], events[j])
      decreases |events| - i
    {
      i := i + 1;
    }
  }
}
