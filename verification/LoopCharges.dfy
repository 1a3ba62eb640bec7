/** What skill reads are charged over a run, with or without transcripts: no interleaving of
    reservations, tool results, replays and restored turns charges a byte twice or loses one. */
module LoopCharges {
  import opened Prelude
  import opened Json
  import opened Sums
  import opened LoopStates
  import opened LoopValidation
  import opened Redaction
  import opened LoopControl
  import opened LoopAccounting
  import opened LoopBookkeeping
  import opened LoopRecovery
  import opened LoopRuns
  import opened LoopSystem
  import opened LoopRedactedRuns

  /** Both copies have charged a skill the same beyond its completed reads and reservations. */
  ghost predicate Covers(sys: System, skill: string, beyond: int) {
    Unaccounted(sys.controller, skill) == beyond && Unaccounted(sys.ledger, skill) == beyond
  }

  lemma MorePendingCharges(s: LoopState, t: LoopState, skill: string)
    requires ReadsTracked(s) && s.pendingCalls <= t.pendingCalls && t.completedCalls == s.completedCalls
    requires t.skillReadBytes == s.skillReadBytes && t.skillReservations == s.skillReservations
    ensures Unaccounted(t, skill) == Unaccounted(s, skill)
  {
    MorePendingSame(s, t);
    UnaccountedSame(s, t, skill);
  }

  lemma OtherDoneCharges(s: LoopState, t: LoopState, i: nat, response: Json, skill: string)
    requires i < |s.pendingCalls| && s.pendingCalls[i].name != READ && t.pendingCalls == Without(s.pendingCalls, i)
    requires t.completedCalls == s.completedCalls + [Completed(s.pendingCalls[i], response)]
    requires t.skillReadBytes == s.skillReadBytes && t.skillReservations == s.skillReservations
    ensures Unaccounted(t, skill) == Unaccounted(s, skill)
  {
    assert t.completedCalls[..|s.completedCalls|] == s.completedCalls;
    OtherDoneSame(s, t, i);
    UnaccountedSame(s, t, skill);
  }

  /** The only pending read with a reserved fingerprint is the one the reservation is for. */
  lemma ReservedRead(host: Host, s: LoopState, persisted: LoopState, i: nat)
    requires Booked(host, s) && ReadsCopy(s, persisted) && i < |s.pendingCalls| && s.pendingCalls[i].name == READ
    requires s.pendingCalls[i].fingerprint in persisted.skillReservations
    ensures FindRead(persisted.pendingCalls, s.pendingCalls[i].fingerprint) == Some(s.pendingCalls[i])
    ensures IsReadInput(s.pendingCalls[i].args)
  {
    BookedDistinctPairs(host, s);
    FindReadFirst(s.pendingCalls, i);
    assert ReservationOf(persisted.pendingCalls, s.pendingCalls[i].fingerprint).Some?;
  }

  lemma AnsweredCharges(host: Host, s: LoopState, persisted: LoopState, i: nat, response: Json, t: LoopState, skill: string)
    requires Booked(host, s) && ReadsCopy(s, persisted) && persisted.completedCalls == s.completedCalls
    requires Answers(host, s, persisted, i, response, t)
    requires s.pendingCalls[i].name == READ ==>
      && s.pendingCalls[i].fingerprint in persisted.skillReservations
      && PageByteLen(response) == Some(persisted.skillReservations[s.pendingCalls[i].fingerprint])
    requires Covers(System(s, persisted), skill, Unaccounted(s, skill))
    ensures Unaccounted(t, skill) == Unaccounted(s, skill)
  {
    if s.pendingCalls[i].name == READ {
      ReservedRead(host, s, persisted, i);
      UnaccountedReadDone(persisted, t, i, response, skill);
    } else {
      OtherDoneCharges(s, t, i, response, skill);
    }
  }

  lemma CallAnsweredCharges(g: Setting, s: LoopState, persisted: LoopState, e: Event, t: LoopState, skill: string)
    requires e.Tool? && ToolDone(g.host, g.raw, s, persisted, e.name, e.input, e.response) == Ok(t)
    requires Booked(g.host, s) && ReadsCopy(s, persisted) && persisted.completedCalls == s.completedCalls
    requires Unaccounted(s, skill) == Unaccounted(persisted, skill)
    ensures Unaccounted(t, skill) == Unaccounted(s, skill)
  {
    var i := ToolDoneAnswers(g.host, g.raw, s, persisted, e.name, e.input, e.response);
    AnsweredCharges(g.host, s, persisted, i, e.response, t, skill);
  }

  lemma ToolMakes(g: Setting, sys: System, e: Event, next: System)
    requires Step(g, sys, e) == Some(next) && e.Tool?
    ensures ToolDone(g.host, g.raw, sys.controller, sys.ledger, e.name, e.input, e.response) == Ok(next.controller)
    ensures next.ledger == next.controller
  {
  }

  lemma ToolCharges(g: Setting, sys: System, e: Event, next: System, skill: string, beyond: int)
    requires Kept(g, sys) && Step(g, sys, e) == Some(next) && e.Tool? && Covers(sys, skill, beyond)
    ensures Covers(next, skill, beyond)
  {
    ToolMakes(g, sys, e, next);
    CallAnsweredCharges(g, sys.controller, sys.ledger, e, next.controller, skill);
  }

  lemma CallReplayedCharges(host: Host, s: LoopState, otherBytes: nat, call: PendingCall, result: Json, limit: nat, skill: string)
    requires Booked(host, s) && ReadsTracked(s)
    requires CompletePending(host, s, otherBytes, call, result, limit).1.None?
    ensures Unaccounted(CompletePending(host, s, otherBytes, call, result, limit).0, skill) == Unaccounted(s, skill)
  {
    var i := ReplayAnswers(host, s, otherBytes, call, result, limit);
    AnsweredCharges(host, s, s, i, result, CompletePending(host, s, otherBytes, call, result, limit).0, skill);
  }

  lemma ReplayCharges(g: Setting, sys: System, e: Event, next: System, skill: string, beyond: int)
    requires Kept(g, sys) && Step(g, sys, e) == Some(next) && e.Replay? && Covers(sys, skill, beyond)
    ensures Covers(next, skill, beyond)
  {
    ReplayMakes(g, sys, e, next);
    CallReplayedCharges(g.host, sys.ledger, e.otherBytes, e.call, e.result, g.limits.maxToolOutputBytes, skill);
  }

  lemma TranscriptCharges(g: Setting, sys: System, e: Event, next: System, skill: string, beyond: int)
    requires Kept(g, sys) && Step(g, sys, e) == Some(next) && TranscriptEvent(e) && Covers(sys, skill, beyond)
    ensures Covers(next, skill, beyond)
  {
    TranscriptStepShape(g, sys, e, next);
    MorePendingCharges(sys.controller, next.controller, skill);
    if next.ledger != next.controller {
      MorePendingCharges(sys.ledger, next.ledger, skill);
    }
  }

  lemma StepCharges(g: Setting, sys: System, e: Event, next: System, skill: string, beyond: int)
    requires Kept(g, sys) && Step(g, sys, e) == Some(next) && Covers(sys, skill, beyond)
    ensures Covers(next, skill, beyond)
  {
    match e {
      case Model(content, interactionId) =>
        TurnFrame(g.host, g.allowed, sys.controller, content, interactionId);
        MorePendingCharges(sys.controller, next.controller, skill);
      case Tool(_, _, _) => ToolCharges(g, sys, e, next, skill, beyond);
      case Replay(_, _, _) => ReplayCharges(g, sys, e, next, skill, beyond);
      case ReadReserved(owner, fp, bytes) => UnaccountedReserve(sys.ledger, owner, fp, bytes, skill);
      case _ => TranscriptCharges(g, sys, e, next, skill, beyond);
    }
  }

  /** Wherever a run starts, the charge of a skill less its completed reads and reservations stays
      what it was. */
  lemma RunsKeepCharges(g: Setting, events: seq<Event>, states: seq<System>, n: nat, skill: string)
    requires Sound(g) && IsRun(g, events, states) && Kept(g, states[0]) && n < |states|
    requires forall i :: 0 <= i < n ==> Orderly(g, states[i], events[i])
    requires Unaccounted(states[0].controller, skill) == Unaccounted(states[0].ledger, skill)
    ensures Covers(states[n], skill, Unaccounted(states[0].ledger, skill))
  {
    var beyond := Unaccounted(states[0].ledger, skill);
    for i := 0 to n
      invariant Covers(states[i], skill, beyond)
    {
      OrderlyRunsKeep(g, events, states, i);
      StepCharges(g, states[i], events[i], states[i + 1], skill, beyond);
    }
  }

  /** The bytes charged to each skill are its completed reads plus what is reserved, and stay
      within the limit; each reservation belongs to a pending read. */
  ghost predicate Charged(s: LoopState) {
    && (forall skill :: CountOf(s.skillReadBytes, skill) == ReadBytes(s.completedCalls, skill) + Sum(Held(s, skill)))
    && (forall skill <- s.skillReadBytes :: s.skillReadBytes[skill] <= SKILL_RESOURCE_READ_LIMIT)
    && (forall fp <- s.skillReservations :: ReservationOf(s.pendingCalls, fp).Some?)
  }

  lemma FreshCharges(skill: string)
    ensures Unaccounted(FRESH, skill) == 0
  {
    assert Held(FRESH, skill) == map[];
  }

  /** From a fresh node on, skill reads are charged exactly, in every interleaving. */
  lemma RunsCharged(g: Setting, events: seq<Event>, states: seq<System>, n: nat)
    requires Sound(g) && IsRun(g, events, states) && n < |states|
    requires forall i :: 0 <= i < n ==> Orderly(g, states[i], events[i])
    requires states[0] == System(FRESH, FRESH)
    ensures Charged(states[n].controller) && Charged(states[n].ledger)
  {
    FreshFit(g.host);
    OrderlyRunsKeep(g, events, states, n);
    forall skill ensures Covers(states[n], skill, 0) {
      FreshCharges(skill);
      RunsKeepCharges(g, events, states, n, skill);
    }
    CoveredIsCharged(states[n]);
  }

  lemma CoveredIsCharged(sys: System)
    requires ReadsTracked(sys.controller) && ReadsTracked(sys.ledger)
    requires forall skill :: Covers(sys, skill, 0)
    ensures Charged(sys.controller) && Charged(sys.ledger)
  {
    forall skill
      ensures CountOf(sys.controller.skillReadBytes, skill)
        == ReadBytes(sys.controller.completedCalls, skill) + Sum(Held(sys.controller, skill))
      ensures CountOf(sys.ledger.skillReadBytes, skill)
        == ReadBytes(sys.ledger.completedCalls, skill) + Sum(Held(sys.ledger, skill))
    {
      assert Covers(sys, skill, 0);
    }
  }
}
