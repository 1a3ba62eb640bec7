/** Crash recovery and validation together: what a crashed run can be resumed from. */
module Resume {
  import opened Prelude
  import opened Json
  import opened LoopStates
  import opened LoopValidation
  import opened Redaction
  import opened LoopRuns
  import opened LoopSystem
  import opened LoopRedactedRuns
  import opened Limits
  import opened Fleet
  import opened Ledger
  import G = Generations

  /** `open` accepts a generation when every loop state in it is valid. */
  ghost predicate ValidatesStates(host: Host, u: G.Setup<Nodes>) {
    && u.empty == map[]
    && forall m: Nodes :: u.valid(m) <==> forall node <- m :: ValidLoopState(host, m[node])
  }

  /** The store holds only nodes that have a controller. */
  predicate Owned(fleet: Fleet) {
    fleet.nodes.Keys <= fleet.controllers.Keys
  }

  lemma {:induction false} FleetsOwned(g: Setting, events: seq<(string, Event)>, fleets: seq<Fleet>, n: nat)
    requires IsFleetRun(g, events, fleets) && n < |fleets| && Owned(fleets[0])
    ensures Owned(fleets[n])
  {
    if n > 0 {
      FleetsOwned(g, events, fleets, n - 1);
      StepOwned(g, fleets[n - 1], events[n - 1].0, events[n - 1].1, fleets[n]);
    }
  }

  lemma StepOwned(g: Setting, fleet: Fleet, node: string, e: Event, next: Fleet)
    requires Owned(fleet) && FleetStep(g, fleet, node, e) == Some(next)
    ensures Owned(next)
  {
    var c := NodeStep(g, fleet.nodes, node, fleet.controllers[node], e).value;
    assert next == Apply(fleet, node, c);
  }

  /** Every write of the protocol run is the store of the fleet run at some moment, in the form in
      which it is kept on disk. */
  ghost predicate Writes(raw: bool, fleets: seq<Fleet>, events: seq<G.Event<Nodes>>) {
    forall i :: 0 <= i < |events| && events[i].Write? ==> IsStored(raw, fleets, events[i].target)
  }

  ghost predicate IsStored(raw: bool, fleets: seq<Fleet>, target: Nodes) {
    exists j :: 0 <= j < |fleets| && StoredAs(raw, fleets[j].nodes, target)
  }

  /** The generation `Persist` writes for these nodes. */
  predicate StoredAs(raw: bool, nodes: Nodes, target: Nodes) {
    CompletedsDurable(nodes) && Target(raw, nodes) == Some(target)
  }

  lemma BoundIsStored(raw: bool, fleets: seq<Fleet>, u: G.Setup<Nodes>, events: seq<G.Event<Nodes>>,
                      states: seq<G.System<Nodes>>, n: nat)
    requires G.CollisionFree(u) && G.IsRun(u, events, states) && G.HonestSaves(events) && n <= |events|
    requires Writes(raw, fleets, events)
    ensures var bound := G.LastBound(u, events, states, n);
      bound == u.empty || IsStored(raw, fleets, bound)
  {
    G.CrashRecovery(u, events, states, n);
  }

  /** A run that keeps its transcripts and makes only good steps can be resumed after a crash at any
      moment, with saves that leave the old checkpoint when they fail: the last bound generation is
      found and passes validation. */
  lemma GoodRunsReopen(g: Setting, fleetEvents: seq<(string, Event)>, fleets: seq<Fleet>,
                       u: G.Setup<Nodes>, events: seq<G.Event<Nodes>>, states: seq<G.System<Nodes>>, n: nat)
    requires Sound(g) && g.raw && IsFleetRun(g, fleetEvents, fleets)
    requires AllInvariant(g, fleets[0]) && Owned(fleets[0])
    requires forall i :: 0 <= i < |fleetEvents| ==> GoodInFleet(g, fleets[i], fleetEvents[i].0, fleetEvents[i].1)
    requires ValidatesStates(g.host, u) && G.CollisionFree(u)
    requires G.IsRun(u, events, states) && G.HonestSaves(events) && n <= |events| && Writes(true, fleets, events)
    requires states[n].memory.Down?
    ensures G.Step(u, states[n], G.Open) ==
      Some(states[n].(memory := G.Up(G.LastBound(u, events, states, n), G.Idle)))
  {
    var bound := G.LastBound(u, events, states, n);
    BoundIsStored(true, fleets, u, events, states, n);
    if bound != u.empty {
      var j :| 0 <= j < |fleets| && StoredAs(true, fleets[j].nodes, bound);
      FleetsOwned(g, fleetEvents, fleets, j);
      forall node | node in bound ensures ValidLoopState(g.host, bound[node]) {
        FleetsValidate(g, fleetEvents, fleets, j, node);
        assert Project(fleets[j], node).ledger == bound[node];
      }
    }
    G.OpenSucceedsIff(u, events, states, n);
  }

  // ---- Without transcripts ----

  ghost predicate AllKept(g: Setting, fleet: Fleet) {
    forall node <- fleet.controllers :: Kept(g, Project(fleet, node))
  }

  lemma OrderlyStepKeepsAll(g: Setting, fleet: Fleet, node: string, e: Event, next: Fleet)
    requires Sound(g) && AllKept(g, fleet)
    requires FleetStep(g, fleet, node, e) == Some(next) && Entered(fleet.nodes, node, e)
    requires node in fleet.controllers && Orderly(g, Project(fleet, node), e)
    ensures AllKept(g, next)
  {
    assert Kept(g, Project(fleet, node));
    FleetStepProjects(g, fleet, node, e, next);
    StepKept(g, Project(fleet, node), e, Project(next, node));
    forall other | other in next.controllers ensures Kept(g, Project(next, other)) {
      if other != node {
        assert Project(next, other) == Project(fleet, other);
      }
    }
  }

  predicate OrderlyInFleet(g: Setting, fleet: Fleet, node: string, e: Event) {
    node in fleet.controllers && Orderly(g, Project(fleet, node), e)
  }

  lemma OrderlyRunStep(g: Setting, events: seq<(string, Event)>, fleets: seq<Fleet>, n: nat)
    requires Sound(g) && IsFleetRun(g, events, fleets) && n < |events| && AllKept(g, fleets[n])
    requires OrderlyInFleet(g, fleets[n], events[n].0, events[n].1)
    ensures AllKept(g, fleets[n + 1])
  {
    RunsEnter(g, events, fleets, n);
    OrderlyStepKeepsAll(g, fleets[n], events[n].0, events[n].1, fleets[n + 1]);
  }

  lemma OrderlyFleetsKeepAll(g: Setting, events: seq<(string, Event)>, fleets: seq<Fleet>, n: nat)
    requires Sound(g) && IsFleetRun(g, events, fleets) && n < |fleets| && AllKept(g, fleets[0])
    requires forall i :: 0 <= i < |events| ==> OrderlyInFleet(g, fleets[i], events[i].0, events[i].1)
    ensures AllKept(g, fleets[n])
  {
    for i := 0 to n
      invariant AllKept(g, fleets[i])
    {
      OrderlyRunStep(g, events, fleets, i);
    }
  }

  /** What a stored state must be like for its redacted form to be accepted. */
  ghost predicate Reopenable(s: LoopState) {
    Canonical(s) && HoldsBytes(s)
  }

  lemma StoredStateAcceptedIff(g: Setting, fleet: Fleet, node: string)
    requires CollisionFree(g.host) && NoSelfReference(g.host)
    requires AllKept(g, fleet) && Owned(fleet) && node in fleet.nodes
    ensures Redactable(fleet.nodes[node])
    ensures ValidLoopState(g.host, Redact(fleet.nodes[node])) <==> Reopenable(fleet.nodes[node])
  {
    var s := fleet.nodes[node];
    assert Project(fleet, node).ledger == s;
    InOrderAcceptedIff(g.host, s);
    BookedRedactable(g.host, s);
  }

  /** The stored form of a node's state is accepted exactly when the state is reopenable. */
  ghost predicate DecidedByState(host: Host, nodes: Nodes, bound: Nodes, node: string) {
    && node in nodes && node in bound
    && (ValidLoopState(host, bound[node]) <==> Reopenable(nodes[node]))
  }

  lemma StoredFormDecided(g: Setting, fleet: Fleet, bound: Nodes, node: string)
    requires CollisionFree(g.host) && NoSelfReference(g.host) && AllKept(g, fleet) && Owned(fleet)
    requires StoredAs(false, fleet.nodes, bound) && node in fleet.nodes
    ensures DecidedByState(g.host, fleet.nodes, bound, node)
  {
    StoredStateAcceptedIff(g, fleet, node);
  }

  lemma StoredNodes(nodes: Nodes, bound: Nodes)
    requires StoredAs(false, nodes, bound)
    ensures bound.Keys == nodes.Keys
  {
  }

  lemma StoreAcceptedIff(g: Setting, fleet: Fleet, u: G.Setup<Nodes>, bound: Nodes)
    requires CollisionFree(g.host) && NoSelfReference(g.host) && ValidatesStates(g.host, u)
    requires AllKept(g, fleet) && Owned(fleet) && StoredAs(false, fleet.nodes, bound)
    ensures u.valid(bound) <==> forall node <- fleet.nodes :: Reopenable(fleet.nodes[node])
  {
    StoredNodes(fleet.nodes, bound);
    forall node | node in fleet.nodes ensures DecidedByState(g.host, fleet.nodes, bound, node) {
      StoredFormDecided(g, fleet, bound, node);
    }
    EachAcceptedIff(g.host, fleet.nodes, u, bound);
  }

  lemma EachAcceptedIff(host: Host, nodes: Nodes, u: G.Setup<Nodes>, bound: Nodes)
    requires ValidatesStates(host, u) && bound.Keys == nodes.Keys
    requires forall node <- nodes :: DecidedByState(host, nodes, bound, node)
    ensures u.valid(bound) <==> forall node <- nodes :: Reopenable(nodes[node])
  {
    if u.valid(bound) {
      forall node | node in nodes ensures Reopenable(nodes[node]) {
        assert DecidedByState(host, nodes, bound, node);
      }
    }
  }

  lemma BoundAcceptedIff(g: Setting, fleetEvents: seq<(string, Event)>, fleets: seq<Fleet>,
                         u: G.Setup<Nodes>, bound: Nodes, j: nat)
    requires Sound(g) && CollisionFree(g.host) && NoSelfReference(g.host) && IsFleetRun(g, fleetEvents, fleets)
    requires AllKept(g, fleets[0]) && Owned(fleets[0]) && ValidatesStates(g.host, u)
    requires forall i :: 0 <= i < |fleetEvents| ==> OrderlyInFleet(g, fleets[i], fleetEvents[i].0, fleetEvents[i].1)
    requires j < |fleets| && StoredAs(false, fleets[j].nodes, bound)
    ensures u.valid(bound) <==> forall node <- fleets[j].nodes :: Reopenable(fleets[j].nodes[node])
  {
    OrderlyFleetsKeepAll(g, fleetEvents, fleets, j);
    FleetsOwned(g, fleetEvents, fleets, j);
    StoreAcceptedIff(g, fleets[j], u, bound);
  }

  /** A run that keeps no transcripts can be resumed after a crash exactly when nothing was ever bound,
      or when at the moment whose store the checkpoint was last bound to - and there is one - every
      call in the store had canonical arguments and no skill had only empty pages in reserve. */
  lemma RedactedRunsReopenIff(g: Setting, fleetEvents: seq<(string, Event)>, fleets: seq<Fleet>,
                              u: G.Setup<Nodes>, events: seq<G.Event<Nodes>>, states: seq<G.System<Nodes>>, n: nat)
    requires Sound(g) && CollisionFree(g.host) && NoSelfReference(g.host) && IsFleetRun(g, fleetEvents, fleets)
    requires AllKept(g, fleets[0]) && Owned(fleets[0])
    requires forall i :: 0 <= i < |fleetEvents| ==> OrderlyInFleet(g, fleets[i], fleetEvents[i].0, fleetEvents[i].1)
    requires ValidatesStates(g.host, u) && G.CollisionFree(u)
    requires G.IsRun(u, events, states) && G.HonestSaves(events) && n <= |events| && Writes(false, fleets, events)
    requires states[n].memory.Down?
    ensures var bound, opens := G.LastBound(u, events, states, n), G.Step(u, states[n], G.Open).value.memory.Up?;
            if bound == u.empty then opens
            else
              && IsStored(false, fleets, bound)
              && forall j :: 0 <= j < |fleets| && StoredAs(false, fleets[j].nodes, bound) ==>
                   (opens <==> forall node <- fleets[j].nodes :: Reopenable(fleets[j].nodes[node]))
  {
    var bound := G.LastBound(u, events, states, n);
    BoundIsStored(false, fleets, u, events, states, n);
    G.OpenSucceedsIff(u, events, states, n);
    forall j | 0 <= j < |fleets| && StoredAs(false, fleets[j].nodes, bound)
      ensures u.valid(bound) <==> forall node <- fleets[j].nodes :: Reopenable(fleets[j].nodes[node])
    {
      BoundAcceptedIff(g, fleetEvents, fleets, u, bound, j);
    }
  }
}
