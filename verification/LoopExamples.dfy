/** Small runs, for every host, in which the conditions of the theorems fail. */
module LoopExamples {
  import opened Prelude
  import opened Json
  import opened Sums
  import opened LoopStates
  import opened LoopValidation
  import opened Redaction
  import opened LoopControl
  import opened LoopAccounting
  import opened LoopBookkeeping
  import opened LoopRuns
  import opened LoopSystem
  import opened LoopRedactedRuns
  import opened LoopReservations
  import C = Content

  const READ_ARGS: Json :=
    Obj(map["skill_id" := Str("s"), "resource_id" := Str("r"), "offset" := Num(0), "limit" := Num(1)])
  const OTHER_ARGS: Json := Obj(map[])
  const HELLO: Content := C.Content("user", [C.Text("hello")])
  const READ_PART: Part := C.FunctionCall(READ, READ_ARGS, Some("1"), None)
  const OTHER_PART: Part := C.FunctionCall("x", OTHER_ARGS, Some("2"), None)
  const ASKS_ONE: Content := C.Content("model", [READ_PART])
  const ASKS_TWO: Content := C.Content("model", [READ_PART, OTHER_PART])

  function ReadCall(host: Host): PendingCall {
    PendingCall("1", READ, READ_ARGS, host.fingerprint(READ_ARGS), 1, 1, None)
  }

  function OtherCall(host: Host): PendingCall {
    PendingCall("2", "x", OTHER_ARGS, host.fingerprint(OTHER_ARGS), 1, 2, None)
  }

  /** The node after its first request. */
  const STARTED: LoopState := FRESH.(conversation := [HELLO])

  /** And after a turn that asked for the read, or for both tools. */
  function AskedOne(host: Host): LoopState {
    EndTurn(WithCall(STARTED, ReadCall(host)), ASKS_ONE, None, None)
  }

  function AskedTwo(host: Host): LoopState {
    EndTurn(WithCall(WithCall(STARTED, ReadCall(host)), OtherCall(host)), ASKS_TWO, None, None)
  }

  lemma AsksAreTurns(host: Host)
    ensures AdmittedFinish(host, ASKS_ONE) == Ok(None) && AdmittedFinish(host, ASKS_TWO) == Ok(None)
    ensures CallCount(ASKS_ONE.parts) == 1 && CallCount(ASKS_TWO.parts) == 2
    ensures !HasResponse(ASKS_ONE) && !HasResponse(ASKS_TWO)
  {
    assert ASKS_ONE.parts[0].FunctionCall? && ASKS_TWO.parts[0].FunctionCall?;
    assert HasCall(ASKS_ONE) && HasCall(ASKS_TWO);
    assert ASKS_ONE.parts[1..] == [] && ASKS_TWO.parts[1..] == [OTHER_PART] && ASKS_TWO.parts[1..][1..] == [];
    assert ModelText([OTHER_PART]).None?;
    assert ModelText(ASKS_ONE.parts).None? && ModelText(ASKS_TWO.parts).None?;
    assert ASKS_ONE.parts[..0] == [] && ASKS_TWO.parts[..1] == [READ_PART] && ASKS_TWO.parts[..1][..0] == [];
  }

  lemma ReadAdmitted(host: Host, allowed: set<string>)
    requires READ in allowed
    ensures AdmitParts(host, allowed, STARTED, [READ_PART]) == Ok(WithCall(STARTED, ReadCall(host)))
  {
    assert [READ_PART][..0] == [];
    assert AdmitParts(host, allowed, STARTED, []) == Ok(STARTED);
  }

  lemma OneAsked(host: Host, allowed: set<string>)
    requires READ in allowed
    ensures ModelTurn(host, allowed, STARTED, ASKS_ONE, None) == Ok(AskedOne(host))
  {
    AsksAreTurns(host);
    ReadAdmitted(host, allowed);
  }

  lemma TwoAsked(host: Host, allowed: set<string>)
    requires READ in allowed && "x" in allowed
    ensures ModelTurn(host, allowed, STARTED, ASKS_TWO, None) == Ok(AskedTwo(host))
  {
    AsksAreTurns(host);
    ReadAdmitted(host, allowed);
    assert ASKS_TWO.parts[..1] == [READ_PART];
  }

  // ---- A read whose reservation is lost ----

  /** Room for these runs. */
  predicate Roomy(g: Setting) {
    && READ in g.allowed && "x" in g.allowed
    && g.limits.maxModelTurns > 0 && g.limits.maxToolCalls >= 2
    && g.host.size(Null) <= g.limits.maxToolOutputBytes
  }

  function Reading(host: Host, bytes: nat): Event {
    ReadReserved("s", host.fingerprint(READ_ARGS), bytes)
  }

  lemma ReadIsPending(host: Host, s: LoopState)
    requires s.pendingCalls != [] && s.pendingCalls[0] == ReadCall(host)
    ensures ReservationOf(s.pendingCalls, host.fingerprint(READ_ARGS)) == Some("s")
  {
    assert READ_ARGS.fields.Keys == {"skill_id", "resource_id", "offset", "limit"};
  }

  /** The node once the page is reserved. */
  function Reserved(host: Host, s: LoopState, bytes: nat): LoopState {
    s.(skillReadBytes := map["s" := bytes], skillReservations := map[host.fingerprint(READ_ARGS) := bytes])
  }

  lemma OtherProjects(host: Host)
    ensures Project(host, AskedTwo(host).conversation, OtherCall(host)).Some?
  {
    var conversation := AskedTwo(host).conversation;
    assert conversation == [HELLO, ASKS_TWO];
    assert FindCallPart(ASKS_TWO.parts, "2") == Some(1);
  }

  lemma OtherIsSecond(host: Host)
    ensures Position(AskedTwo(host).pendingCalls, "x", host.fingerprint(OTHER_ARGS)) == Some(1)
    ensures Without(AskedTwo(host).pendingCalls, 1) == [ReadCall(host)]
  {
    assert AskedTwo(host).pendingCalls == [ReadCall(host), OtherCall(host)];
  }

  lemma OtherAnswers(g: Setting) returns (answered: LoopState)
    ensures var asked := AskedTwo(g.host);
      ToolDone(g.host, g.raw, asked, Reserved(g.host, asked, 5), "x", OTHER_ARGS, Null) == Ok(answered)
    ensures answered.pendingCalls == [ReadCall(g.host)] && answered.skillReservations == map[]
    ensures answered.toolOutputBytes == Min(g.host.size(Null), U64_MAX)
  {
    OtherIsSecond(g.host);
    OtherProjects(g.host);
    answered := ToolDone(g.host, g.raw, AskedTwo(g.host), Reserved(g.host, AskedTwo(g.host), 5),
                         "x", OTHER_ARGS, Null).value;
  }

  lemma Started(g: Setting)
    requires Roomy(g)
    ensures Step(g, System(FRESH, FRESH), Before([HELLO])) == Some(System(STARTED, STARTED))
  {
  }

  lemma StepReserved(g: Setting, s: LoopState, bytes: nat)
    requires s.pendingCalls != [] && s.pendingCalls[0] == ReadCall(g.host)
    requires s.skillReadBytes == map[] && s.skillReservations == map[] && bytes <= SKILL_RESOURCE_READ_LIMIT
    ensures Step(g, System(s, s), Reading(g.host, bytes)) == Some(System(s, Reserved(g.host, s, bytes)))
  {
    ReadIsPending(g.host, s);
  }

  lemma RunMore(g: Setting, events: seq<Event>, states: seq<System>, e: Event, next: System)
    requires IsRun(g, events, states) && Step(g, states[|events|], e) == Some(next)
    ensures IsRun(g, events + [e], states + [next])
  {
  }

  lemma StartedRun(g: Setting) returns (events: seq<Event>, states: seq<System>)
    requires Roomy(g)
    ensures IsRun(g, events, states) && events == [Before([HELLO])]
    ensures states == [System(FRESH, FRESH), System(STARTED, STARTED)]
  {
    Started(g);
    assert IsRun(g, [], [System(FRESH, FRESH)]);
    RunMore(g, [], [System(FRESH, FRESH)], Before([HELLO]), System(STARTED, STARTED));
    events, states := [] + [Before([HELLO])], [System(FRESH, FRESH)] + [System(STARTED, STARTED)];
  }

  /** A turn of the model, then the reservation of the page it asked for. */
  lemma ReservingRun(g: Setting, content: Content, asked: LoopState, bytes: nat)
    returns (events: seq<Event>, states: seq<System>)
    requires Roomy(g) && bytes <= SKILL_RESOURCE_READ_LIMIT
    requires ModelTurn(g.host, g.allowed, STARTED, content, None) == Ok(asked) && asked.totalToolCalls <= 2
    requires asked.pendingCalls != [] && asked.pendingCalls[0] == ReadCall(g.host)
    requires asked.skillReadBytes == map[] && asked.skillReservations == map[]
    ensures IsRun(g, events, states) && events == [Before([HELLO]), Model(content, None), Reading(g.host, bytes)]
    ensures states == [System(FRESH, FRESH), System(STARTED, STARTED), System(asked, asked),
                       System(asked, Reserved(g.host, asked, bytes))]
  {
    events, states := StartedRun(g);
    RunMore(g, events, states, Model(content, None), System(asked, asked));
    events, states := events + [Model(content, None)], states + [System(asked, asked)];
    StepReserved(g, asked, bytes);
    RunMore(g, events, states, Reading(g.host, bytes), System(asked, Reserved(g.host, asked, bytes)));
    events, states := events + [Reading(g.host, bytes)], states + [System(asked, Reserved(g.host, asked, bytes))];
  }

  lemma OtherAnswersStep(g: Setting) returns (answered: LoopState)
    requires Roomy(g)
    ensures Step(g, System(AskedTwo(g.host), Reserved(g.host, AskedTwo(g.host), 5)), Tool("x", OTHER_ARGS, Null))
      == Some(System(answered, answered))
    ensures answered.pendingCalls == [ReadCall(g.host)] && answered.skillReservations == map[]
  {
    answered := OtherAnswers(g);
  }

  lemma OtherToolRun(g: Setting) returns (events: seq<Event>, states: seq<System>, answered: LoopState)
    requires Roomy(g)
    ensures IsRun(g, events, states)
    ensures events == [Before([HELLO]), Model(ASKS_TWO, None), Reading(g.host, 5), Tool("x", OTHER_ARGS, Null)]
    ensures |states| == 5 && states[0] == System(FRESH, FRESH) && states[4] == System(answered, answered)
    ensures states[3].ledger == Reserved(g.host, AskedTwo(g.host), 5)
    ensures answered.pendingCalls == [ReadCall(g.host)] && answered.skillReservations == map[]
  {
    TwoAsked(g.host, g.allowed);
    events, states := ReservingRun(g, ASKS_TWO, AskedTwo(g.host), 5);
    answered := OtherAnswersStep(g);
    RunMore(g, events, states, Tool("x", OTHER_ARGS, Null), System(answered, answered));
    events, states := events + [Tool("x", OTHER_ARGS, Null)], states + [System(answered, answered)];
  }

  /** The model asks for a page and for another tool; the page is reserved, then the other tool
      answers first.  The reservation is gone, and no page is accepted any more though its call is
      still open. */
  lemma OtherToolFirst(g: Setting, page: Json) returns (events: seq<Event>, states: seq<System>)
    requires Roomy(g)
    ensures |events| == 4 && IsRun(g, events, states) && states[0] == System(FRESH, FRESH)
    ensures Reserves(events[2], g.host.fingerprint(READ_ARGS)) && Holds(states[3].ledger, g.host.fingerprint(READ_ARGS))
    ensures !Holds(states[4].ledger, g.host.fingerprint(READ_ARGS))
    ensures states[4].controller.pendingCalls == [ReadCall(g.host)]
    ensures Step(g, states[4], Tool(READ, READ_ARGS, page)).None?
  {
    var answered;
    events, states, answered := OtherToolRun(g);
    NotReservedRefused(g, System(answered, answered), READ_ARGS, page);
  }

  lemma NotReservedRefused(g: Setting, sys: System, input: Json, page: Json)
    requires !Holds(sys.ledger, g.host.fingerprint(input))
    ensures Step(g, sys, Tool(READ, input, page)).None?
  {
    if Step(g, sys, Tool(READ, input, page)).Some? {
      ReadNeedsReservation(g, sys, input, page);
    }
  }

  // ---- An empty page ----

  lemma AskedOneIsCanonical(host: Host, bytes: nat)
    ensures Canonical(Reserved(host, AskedOne(host), bytes))
  {
    assert READ_ARGS.fields.Keys == {"skill_id", "resource_id", "offset", "limit"};
    assert CanonicalPending(ReadCall(host));
  }

  lemma EmptyPageHoldsNothing(host: Host)
    ensures !HoldsBytes(Reserved(host, AskedOne(host), 0))
  {
    var s := Reserved(host, AskedOne(host), 0);
    var fp := host.fingerprint(READ_ARGS);
    ReadIsPending(host, s);
    assert Held(s, "s") == map[fp := 0];
    SumSplit(Held(s, "s"), fp);
    assert Held(s, "s") - {fp} == map[];
    assert fp in s.skillReservations;
  }

  lemma EmptyPageRun(g: Setting) returns (events: seq<Event>, states: seq<System>)
    requires Roomy(g)
    ensures |events| == 3 && IsRun(g, events, states) && states[0] == System(FRESH, FRESH)
    ensures forall i :: 0 <= i < 3 ==> Orderly(g, states[i], events[i])
    ensures states[3].ledger == Reserved(g.host, AskedOne(g.host), 0)
  {
    OneAsked(g.host, g.allowed);
    AsksAreTurns(g.host);
    events, states := ReservingRun(g, ASKS_ONE, AskedOne(g.host), 0);
  }

  /** A run that only asks for an empty page: every call is canonical, but what is written is
      refused. */
  lemma EmptyPageRefused(g: Setting) returns (events: seq<Event>, states: seq<System>)
    requires Sound(g) && Roomy(g) && CollisionFree(g.host) && NoSelfReference(g.host)
    ensures |events| == 3 && IsRun(g, events, states) && states[0] == System(FRESH, FRESH)
    ensures forall i :: 0 <= i < 3 ==> Orderly(g, states[i], events[i])
    ensures Canonical(states[3].ledger) && !AcceptedOnReopen(g.host, states[3].ledger)
  {
    events, states := EmptyPageRun(g);
    AskedOneIsCanonical(g.host, 0);
    EmptyPageHoldsNothing(g.host);
    FreshFit(g.host);
    RedactedRunsAcceptedIff(g, events, states, 3);
  }

  // ---- Turns that the validator refuses ----

  /** A tool result among the parts of a model response. */
  const ANSWERS_ITSELF: Content :=
    C.Content("model", [READ_PART, C.FunctionResponse(C.FunctionResponseData(READ, Null, [], []), Some("1"), None)])

  lemma AnswersItselfIsTurn(host: Host, allowed: set<string>)
    requires READ in allowed
    ensures HasResponse(ANSWERS_ITSELF) && ModelTurn(host, allowed, STARTED, ANSWERS_ITSELF, None).Ok?
    ensures CallsFit(STARTED, ANSWERS_ITSELF)
  {
    var parts := ANSWERS_ITSELF.parts;
    assert parts[0].FunctionCall? && parts[1].FunctionResponse?;
    assert HasCall(ANSWERS_ITSELF) && HasResponse(ANSWERS_ITSELF);
    assert parts[1..][1..] == [];
    assert ModelText(parts[1..]).None?;
    assert parts[..1] == [READ_PART] && [READ_PART][..0] == [];
    assert CallCount([READ_PART]) == 1;
    ReadAdmitted(host, allowed);
  }

  lemma StartedIsFit(host: Host)
    ensures RawFit(host, STARTED)
  {
    FreshFit(host);
    assert ModelText(HELLO.parts[1..]).None?;
    assert Plain(host, HELLO);
    BeforeModelValidIff(host, FRESH, [HELLO]);
  }

  /** From a fit state, a turn within all limits leaves one that is refused. */
  lemma ResponseInTurnRefused(host: Host, allowed: set<string>)
    requires PositiveSizes(host) && (forall a :: host.fingerprint(a) != "") && READ in allowed && "" !in allowed
    ensures RawFit(host, STARTED) && CallsFit(STARTED, ANSWERS_ITSELF)
    ensures ModelTurn(host, allowed, STARTED, ANSWERS_ITSELF, None).Ok?
    ensures !ValidLoopState(host, ModelTurn(host, allowed, STARTED, ANSWERS_ITSELF, None).value)
  {
    StartedIsFit(host);
    AnswersItselfIsTurn(host, allowed);
    ModelTurnValidIff(host, allowed, STARTED, ANSWERS_ITSELF, None);
  }

  lemma AskedOneBooked(host: Host, allowed: set<string>)
    requires (forall a :: host.fingerprint(a) != "") && READ in allowed && "" !in allowed
    ensures Booked(host, AskedOne(host))
  {
    StartedIsFit(host);
    OneAsked(host, allowed);
    AsksAreTurns(host);
    ModelTurnBookedIff(host, allowed, STARTED, ASKS_ONE, None);
  }

  lemma DoneIsFinish(host: Host, text: string)
    requires host.parseFinish(text).Some? && !host.isBlank(text)
    ensures IsFinish(host, C.Content("model", [C.Text(text)])) && CallCount([C.Text(text)]) == 0
  {
    var parts: seq<Part> := [C.Text(text)];
    assert parts[1..] == [] && parts[..0] == [];
    assert ModelText(parts) == Some(text + "") && text + "" == text;
  }

  /** The model says it is done while its read is open. */
  lemma FinishOverOpenCall(host: Host, allowed: set<string>, text: string)
    requires (forall a :: host.fingerprint(a) != "") && READ in allowed && "" !in allowed
    requires host.parseFinish(text).Some? && !host.isBlank(text)
    ensures var done: Content := C.Content("model", [C.Text(text)]);
            && Booked(host, AskedOne(host)) && CallsFit(AskedOne(host), done)
            && ModelTurn(host, allowed, AskedOne(host), done, None).Ok?
            && !Booked(host, ModelTurn(host, allowed, AskedOne(host), done, None).value)
  {
    var done: Content := C.Content("model", [C.Text(text)]);
    AskedOneBooked(host, allowed);
    DoneIsFinish(host, text);
    FinishHasNoCalls(host, allowed, AskedOne(host), done);
    ModelTurnBookedIff(host, allowed, AskedOne(host), done, None);
  }

  /** Reserving an empty page for the only open read. */
  lemma EmptyReservationInvalid(host: Host)
    ensures ValidReadAccounting(AskedOne(host))
    ensures ReservationOf(AskedOne(host).pendingCalls, host.fingerprint(READ_ARGS)) == Some("s")
    ensures Reserve(AskedOne(host), false, "s", host.fingerprint(READ_ARGS), 0).Ok?
    ensures !ValidReadAccounting(Reserve(AskedOne(host), false, "s", host.fingerprint(READ_ARGS), 0).value.0)
  {
    var s := AskedOne(host);
    ReadIsPending(host, s);
    assert Held(s, "s") == map[];
    ReserveValidIff(s, "s", host.fingerprint(READ_ARGS), 0);
  }
}
