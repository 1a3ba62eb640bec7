/** How long a read reservation lives: the controller works on its own copy of the skill records, and
    writing that copy over the ledger's drops every reservation made in the meantime. */
module LoopReservations {
  import opened Prelude
  import opened Json
  import opened LoopStates
  import opened LoopValidation
  import opened Redaction
  import opened LoopControl
  import opened LoopRecovery
  import opened LoopSystem

  predicate Holds(s: LoopState, fp: string) {
    fp in s.skillReservations
  }

  /** The step ends the reservation: it answers the read, or puts the controller's copy, which does
      not have the reservation, in place of the ledger's. */
  predicate Drops(g: Setting, sys: System, e: Event, fp: string) {
    match e
    case Before(_) => sys.controller.conversation == [] && !Holds(sys.controller, fp)
    case Model(_, _) => !Holds(sys.controller, fp)
    case Tool(name, input, _) => if name == READ then g.host.fingerprint(input) == fp else !Holds(sys.controller, fp)
    case Replay(call, _, _) => call.name == READ && call.fingerprint == fp
    case _ => false
  }

  predicate Reserves(e: Event, fp: string) {
    e.ReadReserved? && e.fingerprint == fp
  }

  /** The controller has no reservation that the ledger lacks. */
  predicate Behind(sys: System, fp: string) {
    Holds(sys.controller, fp) ==> Holds(sys.ledger, fp)
  }

  lemma ReplayReleases(g: Setting, sys: System, e: Event, next: System, fp: string)
    requires Step(g, sys, e) == Some(next) && e.Replay?
    ensures Behind(next, fp) && (Holds(next.ledger, fp) <==> Holds(sys.ledger, fp) && !Drops(g, sys, e, fp))
  {
    var i := ReplayAnswers(g.host, sys.ledger, e.otherBytes, e.call, e.result, g.limits.maxToolOutputBytes);
  }

  lemma ToolReleases(g: Setting, sys: System, e: Event, next: System, fp: string)
    requires Step(g, sys, e) == Some(next) && e.Tool? && Behind(sys, fp)
    ensures Behind(next, fp) && (Holds(next.ledger, fp) <==> Holds(sys.ledger, fp) && !Drops(g, sys, e, fp))
  {
    var i := ToolDoneAnswers(g.host, g.raw, sys.controller, sys.ledger, e.name, e.input, e.response);
  }

  lemma {:induction false} PartsKeepReservations(host: Host, allowed: set<string>, s: LoopState, parts: seq<Part>)
    requires AdmitParts(host, allowed, s, parts).Ok?
    ensures AdmitParts(host, allowed, s, parts).value.skillReservations == s.skillReservations
  {
    if parts != [] {
      PartsKeepReservations(host, allowed, s, parts[..|parts| - 1]);
    }
  }

  /** One step: a reservation is in the ledger afterwards exactly when the step makes it, or it was
      there and the step does not end it. */
  lemma StepReleases(g: Setting, sys: System, e: Event, next: System, fp: string)
    requires Step(g, sys, e) == Some(next) && Behind(sys, fp)
    ensures Behind(next, fp)
    ensures Holds(next.ledger, fp) <==> Reserves(e, fp) || (Holds(sys.ledger, fp) && !Drops(g, sys, e, fp))
  {
    match e {
      case Model(content, _) => PartsKeepReservations(g.host, g.allowed, sys.controller, content.parts);
      case Tool(_, _, _) => ToolReleases(g, sys, e, next, fp);
      case Replay(_, _, _) => ReplayReleases(g, sys, e, next, fp);
      case _ =>
    }
  }

  /** At moment `j` the reservation has just been made, or was there from the start. */
  predicate MadeAt(events: seq<Event>, start: System, fp: string, j: nat)
    requires j <= |events|
  {
    if j == 0 then Holds(start.ledger, fp) else Reserves(events[j - 1], fp)
  }

  predicate KeptFrom(g: Setting, events: seq<Event>, states: seq<System>, fp: string, j: nat, n: nat)
    requires j <= n <= |events| && |states| == |events| + 1
  {
    forall k :: j <= k < n ==> !Drops(g, states[k], events[k], fp)
  }

  lemma {:induction false} StayBehind(g: Setting, events: seq<Event>, states: seq<System>, n: nat, fp: string)
    requires IsRun(g, events, states) && Behind(states[0], fp) && n < |states|
    ensures Behind(states[n], fp)
  {
    if n > 0 {
      StayBehind(g, events, states, n - 1, fp);
      StepReleases(g, states[n - 1], events[n - 1], states[n], fp);
    }
  }

  /** No step since the reservation was last made ended it. */
  predicate Unbroken(g: Setting, events: seq<Event>, states: seq<System>, fp: string, n: nat)
    requires n <= |events| && |states| == |events| + 1
  {
    exists j :: 0 <= j <= n && MadeAt(events, states[0], fp, j) && KeptFrom(g, events, states, fp, j, n)
  }

  lemma UnbrokenNext(g: Setting, events: seq<Event>, states: seq<System>, fp: string, n: nat)
    requires 0 < n <= |events| && |states| == |events| + 1
    ensures Unbroken(g, events, states, fp, n) <==>
      || Reserves(events[n - 1], fp)
      || (Unbroken(g, events, states, fp, n - 1) && !Drops(g, states[n - 1], events[n - 1], fp))
  {
    if Reserves(events[n - 1], fp) {
      assert MadeAt(events, states[0], fp, n) && KeptFrom(g, events, states, fp, n, n);
    } else if Unbroken(g, events, states, fp, n) {
      var j :| 0 <= j <= n && MadeAt(events, states[0], fp, j) && KeptFrom(g, events, states, fp, j, n);
      assert j < n && KeptFrom(g, events, states, fp, j, n - 1);
    } else if Unbroken(g, events, states, fp, n - 1) && !Drops(g, states[n - 1], events[n - 1], fp) {
      var j :| 0 <= j <= n - 1 && MadeAt(events, states[0], fp, j) && KeptFrom(g, events, states, fp, j, n - 1);
      assert KeptFrom(g, events, states, fp, j, n);
    }
  }

  /** Over a run, a reservation is in the ledger exactly when no step since it was made answered it
      or wrote a controller's copy without it over the ledger's. */
  lemma {:induction false} ReservedIff(g: Setting, events: seq<Event>, states: seq<System>, n: nat, fp: string)
    requires IsRun(g, events, states) && Behind(states[0], fp) && n < |states|
    ensures Holds(states[n].ledger, fp) <==> Unbroken(g, events, states, fp, n)
  {
    if n == 0 {
      assert Holds(states[0].ledger, fp) ==> MadeAt(events, states[0], fp, 0) && KeptFrom(g, events, states, fp, 0, 0);
    } else {
      ReservedIff(g, events, states, n - 1, fp);
      StayBehind(g, events, states, n - 1, fp);
      StepReleases(g, states[n - 1], events[n - 1], states[n], fp);
      UnbrokenNext(g, events, states, fp, n);
    }
  }

  /** The result of a read is accepted only while its reservation is there. */
  lemma ReadNeedsReservation(g: Setting, sys: System, input: Json, page: Json)
    requires Step(g, sys, Tool(READ, input, page)).Some?
    ensures Holds(sys.ledger, g.host.fingerprint(input))
  {
    var i := ToolDoneAnswers(g.host, g.raw, sys.controller, sys.ledger, READ, input, page);
  }

  /** So after a step that drops it, a read is refused. */
  lemma DroppedReadRefused(g: Setting, events: seq<Event>, states: seq<System>, n: nat, input: Json, page: Json)
    requires var fp := g.host.fingerprint(input);
      && IsRun(g, events, states) && Behind(states[0], fp) && n < |states| && !Unbroken(g, events, states, fp, n)
    ensures Step(g, states[n], Tool(READ, input, page)).None?
  {
    ReservedIff(g, events, states, n, g.host.fingerprint(input));
    if Step(g, states[n], Tool(READ, input, page)).Some? {
      ReadNeedsReservation(g, states[n], input, page);
    }
  }

  /** The shortest such run: another tool's result between a reservation and its own read result. */
  lemma InterleavedReadRefused(g: Setting, sys: System, skill: string, fp: string, bytes: nat,
                               name: string, input: Json, response: Json, readInput: Json, page: Json)
    requires fp !in sys.controller.skillReservations && g.host.fingerprint(readInput) == fp
    requires Step(g, sys, ReadReserved(skill, fp, bytes)).Some? && name != READ
    requires var reserved := Step(g, sys, ReadReserved(skill, fp, bytes)).value;
             Step(g, reserved, Tool(name, input, response)).Some?
    ensures var reserved := Step(g, sys, ReadReserved(skill, fp, bytes)).value;
            var after := Step(g, reserved, Tool(name, input, response)).value;
            fp !in after.ledger.skillReservations && Step(g, after, Tool(READ, readInput, page)).None?
  {
    var reserved := Step(g, sys, ReadReserved(skill, fp, bytes)).value;
    var after := Step(g, reserved, Tool(name, input, response)).value;
    ToolReleases(g, reserved, Tool(name, input, response), after, fp);
    if Step(g, after, Tool(READ, readInput, page)).Some? {
      ReadNeedsReservation(g, after, readInput, page);
    }
  }
}
