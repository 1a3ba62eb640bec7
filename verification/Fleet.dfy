/** All agent loops of a run against one ledger: any interleaving of their steps, under the limits
    they share. */
module Fleet {
  import opened Prelude
  import opened Json
  import opened Sums
  import opened LoopStates
  import opened LoopValidation
  import opened Redaction
  import opened LoopControl
  import opened LoopRuns
  import opened LoopRecovery
  import opened LoopSystem
  import opened Limits

  /** The store's copy of every node, and the copy of every running controller. */
  datatype Fleet = Fleet(nodes: Nodes, controllers: Nodes)

  function Snapshot(nodes: Nodes, node: string): LoopState {
    if node in nodes then nodes[node] else FRESH
  }

  /** What one step of a node does: its controller's new copy, and what it stores, if anything. */
  datatype Change = Change(controller: LoopState, stored: Option<LoopState>)

  function Both(s: LoopState): Change {
    Change(s, Some(s))
  }

  ghost function ModelChange(g: Setting, nodes: Nodes, node: string, s: LoopState, next: LoopState): Option<Change> {
    if s.modelIterations >= g.limits.maxModelTurns then None
    else if CallVerdict(Counted(nodes, node, next), g.limits.maxToolCalls, g.limits.maxCallsPerTool).Some? then None
    else Some(Both(next))
  }

  ghost function ToolChange(g: Setting, nodes: Nodes, node: string, next: LoopState): Option<Change> {
    if Min(Total(Counted(nodes, node, next), BYTES), U64_MAX) > g.limits.maxToolOutputBytes then None
    else Some(Both(next))
  }

  ghost function ReplayChange(g: Setting, nodes: Nodes, node: string, s: LoopState, e: Event): Option<Change>
    requires e.Replay?
  {
    if node !in nodes || nodes[node] != s || e.otherBytes != Min(Total(nodes - {node}, BYTES), U64_MAX) then None
    else
      var (next, failure) := CompletePending(g.host, s, e.otherBytes, e.call, e.result, g.limits.maxToolOutputBytes);
      if failure.Some? then None else Some(Both(next))
  }

  /** A step that consults no other node; reservations and restored turns need the node to be in
      the store. */
  function OwnChange(g: Setting, nodes: Nodes, node: string, s: LoopState, e: Event): Option<Change>
    requires e.ReadReserved? || e.SkillActivated? || e.Restore?
  {
    if node !in nodes && !e.SkillActivated? then None
    else
      var own :- Step(g, System(s, Snapshot(nodes, node)), e);
      Some(Change(own.controller, Some(own.ledger)))
  }

  /** One step of one node, checked against the store as it is at that moment. */
  ghost function NodeStep(g: Setting, nodes: Nodes, node: string, s: LoopState, e: Event): Option<Change> {
    match e
    case Before(contents) =>
      if s.modelIterations >= g.limits.maxModelTurns then None
      else
        var next := BeforeModel(s, contents).0;
        Some(Change(next, if s.conversation == [] then Some(next) else None))
    case Model(content, interactionId) =>
      (match ModelTurn(g.host, g.allowed, s, content, interactionId)
       case Err(_) => None
       case Ok(next) => ModelChange(g, nodes, node, s, next))
    case Tool(name, input, response) =>
      (match ToolDone(g.host, g.raw, s, Snapshot(nodes, node), name, input, response)
       case Err(_) => None
       case Ok(next) => ToolChange(g, nodes, node, next))
    case Replay(_, _, _) => ReplayChange(g, nodes, node, s, e)
    case _ => OwnChange(g, nodes, node, s, e)
  }

  function Apply(fleet: Fleet, node: string, c: Change): Fleet {
    Fleet(if c.stored.Some? then fleet.nodes[node := c.stored.value] else fleet.nodes,
          fleet.controllers[node := c.controller])
  }

  ghost function FleetStep(g: Setting, fleet: Fleet, node: string, e: Event): Option<Fleet> {
    if node !in fleet.controllers then None
    else
      var c :- NodeStep(g, fleet.nodes, node, fleet.controllers[node], e);
      Some(Apply(fleet, node, c))
  }

  /** One node's view of the fleet. */
  function Project(fleet: Fleet, node: string): System
    requires node in fleet.controllers
  {
    System(fleet.controllers[node], Snapshot(fleet.nodes, node))
  }

  /** The node of a model or tool callback is in the store. */
  predicate Entered(nodes: Nodes, node: string, e: Event) {
    e.Model? || e.Tool? ==> node in nodes
  }

  // ---- Every node sees a run of its own ----

  /** The copy in the store after the change. */
  function StoredAfter(nodes: Nodes, node: string, c: Change): LoopState {
    if c.stored.Some? then c.stored.value else Snapshot(nodes, node)
  }

  lemma {:induction false} PartsWithinU64(host: Host, allowed: set<string>, s: LoopState, parts: seq<Part>)
    requires AdmitParts(host, allowed, s, parts).Ok? && s.totalToolCalls <= U64_MAX
    ensures AdmitParts(host, allowed, s, parts).value.totalToolCalls <= U64_MAX
  {
    if parts != [] {
      PartsWithinU64(host, allowed, s, parts[..|parts| - 1]);
    }
  }

  lemma ModelChangeIsStep(g: Setting, nodes: Nodes, node: string, s: LoopState, e: Event, c: Change)
    requires s.totalToolCalls <= U64_MAX && node in nodes && e.Model? && NodeStep(g, nodes, node, s, e) == Some(c)
    ensures Step(g, System(s, nodes[node]), e) == Some(System(c.controller, c.controller)) && c == Both(c.controller)
  {
    OwnAtMostTotal(nodes[node := c.controller], CALLS, node);
    PartsWithinU64(g.host, g.allowed, s, e.content.parts);
  }

  lemma ToolChangeIsStep(g: Setting, nodes: Nodes, node: string, s: LoopState, e: Event, c: Change)
    requires node in nodes && e.Tool? && NodeStep(g, nodes, node, s, e) == Some(c)
    ensures Step(g, System(s, nodes[node]), e) == Some(System(c.controller, c.controller)) && c == Both(c.controller)
  {
    OwnAtMostTotal(nodes[node := c.controller], BYTES, node);
  }

  /** Within the shared limits a node also keeps within what its own run allows. */
  lemma NodeStepIsStep(g: Setting, nodes: Nodes, node: string, s: LoopState, e: Event, c: Change)
    requires s.totalToolCalls <= U64_MAX && Entered(nodes, node, e) && NodeStep(g, nodes, node, s, e) == Some(c)
    ensures Step(g, System(s, Snapshot(nodes, node)), e) == Some(System(c.controller, StoredAfter(nodes, node, c)))
  {
    if e.Model? {
      ModelChangeIsStep(g, nodes, node, s, e, c);
    } else if e.Tool? {
      ToolChangeIsStep(g, nodes, node, s, e, c);
    }
  }

  /** A step of the fleet is a step of the node it belongs to and no step of any other node. */
  lemma FleetStepProjects(g: Setting, fleet: Fleet, node: string, e: Event, next: Fleet)
    requires FleetStep(g, fleet, node, e) == Some(next) && Entered(fleet.nodes, node, e)
    requires fleet.controllers[node].totalToolCalls <= U64_MAX
    ensures next.controllers.Keys == fleet.controllers.Keys && node in next.controllers
    ensures Step(g, Project(fleet, node), e) == Some(Project(next, node))
    ensures forall other <- fleet.controllers :: other != node ==> Project(next, other) == Project(fleet, other)
  {
    var c := NodeStep(g, fleet.nodes, node, fleet.controllers[node], e).value;
    NodeStepIsStep(g, fleet.nodes, node, fleet.controllers[node], e, c);
  }

  // ---- The shared limits ----

  predicate SameLoad(s: LoopState, t: LoopState) {
    s.totalToolCalls == t.totalToolCalls && s.toolCalls == t.toolCalls && s.toolOutputBytes == t.toolOutputBytes
  }

  /** Controller and store agree on what counts against the limits. */
  predicate LoadsAgree(fleet: Fleet) {
    forall node <- fleet.controllers :: SameLoad(fleet.controllers[node], Snapshot(fleet.nodes, node))
  }

  ghost predicate WithinLimits(g: Setting, nodes: Nodes) {
    Within(nodes, g.limits.maxToolCalls, g.limits.maxCallsPerTool, g.limits.maxToolOutputBytes)
  }

  lemma TotalReplace(nodes: Nodes, measure: LoopState -> nat, node: string, s: LoopState)
    requires measure(FRESH) == 0
    ensures Total(nodes[node := s], measure) + measure(Snapshot(nodes, node)) == Total(nodes, measure) + measure(s)
  {
    TotalUpdate(nodes, measure, node, s);
    if node in nodes {
      TotalSplit(nodes, measure, node);
    } else {
      assert nodes - {node} == nodes;
    }
  }

  lemma SameLoadWithin(g: Setting, nodes: Nodes, node: string, s: LoopState)
    requires WithinLimits(g, nodes) && SameLoad(s, Snapshot(nodes, node))
    ensures WithinLimits(g, nodes[node := s])
  {
    TotalReplace(nodes, CALLS, node, s);
    TotalReplace(nodes, BYTES, node, s);
    forall tool: string ensures Total(nodes[node := s], CallsOf(tool)) <= g.limits.maxCallsPerTool {
      TotalReplace(nodes, CallsOf(tool), node, s);
    }
  }

  lemma MoreCallsWithin(g: Setting, nodes: Nodes, node: string, s: LoopState)
    requires WithinLimits(g, nodes) && node in nodes && s.toolOutputBytes == nodes[node].toolOutputBytes
    requires g.limits.maxToolCalls < U64_MAX && g.limits.maxCallsPerTool < U64_MAX
    requires CallVerdict(nodes[node := s], g.limits.maxToolCalls, g.limits.maxCallsPerTool).None?
    ensures WithinLimits(g, nodes[node := s])
  {
    CallVerdictExact(nodes[node := s], g.limits.maxToolCalls, g.limits.maxCallsPerTool);
    TotalReplace(nodes, BYTES, node, s);
  }

  lemma MoreBytesWithin(g: Setting, nodes: Nodes, node: string, s: LoopState)
    requires WithinLimits(g, nodes)
    requires s.totalToolCalls == Snapshot(nodes, node).totalToolCalls && s.toolCalls == Snapshot(nodes, node).toolCalls
    requires Total(nodes[node := s], BYTES) <= g.limits.maxToolOutputBytes
    ensures WithinLimits(g, nodes[node := s])
  {
    TotalReplace(nodes, CALLS, node, s);
    forall tool: string ensures Total(nodes[node := s], CallsOf(tool)) <= g.limits.maxCallsPerTool {
      TotalReplace(nodes, CallsOf(tool), node, s);
    }
  }

  lemma {:induction false} PartsKeepBytes(host: Host, allowed: set<string>, s: LoopState, parts: seq<Part>)
    requires AdmitParts(host, allowed, s, parts).Ok?
    ensures AdmitParts(host, allowed, s, parts).value.toolOutputBytes == s.toolOutputBytes
  {
    if parts != [] {
      PartsKeepBytes(host, allowed, s, parts[..|parts| - 1]);
    }
  }

  lemma ReplayWithin(g: Setting, nodes: Nodes, node: string, s: LoopState, e: Event, c: Change)
    requires WithinLimits(g, nodes) && g.limits.maxToolOutputBytes < U64_MAX
    requires e.Replay? && ReplayChange(g, nodes, node, s, e) == Some(c)
    ensures WithinLimits(g, nodes[node := c.controller]) && c == Both(c.controller)
  {
    TotalUpdate(nodes, BYTES, node, c.controller);
    CompletePendingLoad(g.host, s, e.otherBytes, e.call, e.result, g.limits.maxToolOutputBytes);
    MoreBytesWithin(g, nodes, node, c.controller);
  }

  lemma CompletePendingLoad(host: Host, s: LoopState, otherBytes: nat, call: PendingCall, response: Json, limit: nat)
    requires CompletePending(host, s, otherBytes, call, response, limit).1.None?
    ensures var t := CompletePending(host, s, otherBytes, call, response, limit).0;
            && t.totalToolCalls == s.totalToolCalls && t.toolCalls == s.toolCalls
            && SaturatingAdd(otherBytes, t.toolOutputBytes) <= limit
  {
  }

  lemma ModelWithin(g: Setting, nodes: Nodes, node: string, s: LoopState, e: Event, c: Change)
    requires LimitsBelowCeiling(g) && WithinLimits(g, nodes) && node in nodes && SameLoad(s, nodes[node])
    requires e.Model? && NodeStep(g, nodes, node, s, e) == Some(c)
    ensures WithinLimits(g, nodes[node := c.controller]) && c == Both(c.controller)
  {
    PartsKeepBytes(g.host, g.allowed, s, e.content.parts);
    MoreCallsWithin(g, nodes, node, c.controller);
  }

  lemma ToolWithin(g: Setting, nodes: Nodes, node: string, s: LoopState, e: Event, c: Change)
    requires LimitsBelowCeiling(g) && WithinLimits(g, nodes) && node in nodes && SameLoad(s, nodes[node])
    requires e.Tool? && NodeStep(g, nodes, node, s, e) == Some(c)
    ensures WithinLimits(g, nodes[node := c.controller]) && c == Both(c.controller)
  {
    MoreBytesWithin(g, nodes, node, c.controller);
  }

  lemma QuietChange(g: Setting, nodes: Nodes, node: string, s: LoopState, e: Event, c: Change)
    requires SameLoad(s, Snapshot(nodes, node)) && NodeStep(g, nodes, node, s, e) == Some(c)
    requires e.Before? || e.ReadReserved? || e.SkillActivated? || e.Restore?
    ensures SameLoad(c.controller, s) && SameLoad(StoredAfter(nodes, node, c), s)
  {
  }

  ghost predicate LimitsBelowCeiling(g: Setting) {
    g.limits.maxToolCalls < U64_MAX && g.limits.maxCallsPerTool < U64_MAX && g.limits.maxToolOutputBytes < U64_MAX
  }

  lemma NodeStepWithin(g: Setting, nodes: Nodes, node: string, s: LoopState, e: Event, c: Change)
    requires LimitsBelowCeiling(g) && WithinLimits(g, nodes) && SameLoad(s, Snapshot(nodes, node))
    requires NodeStep(g, nodes, node, s, e) == Some(c) && Entered(nodes, node, e)
    ensures SameLoad(c.controller, StoredAfter(nodes, node, c))
    ensures c.stored.Some? ==> WithinLimits(g, nodes[node := c.stored.value])
  {
    match e {
      case Model(_, _) => ModelWithin(g, nodes, node, s, e, c);
      case Tool(_, _, _) => ToolWithin(g, nodes, node, s, e, c);
      case Replay(_, _, _) => ReplayWithin(g, nodes, node, s, e, c);
      case _ =>
        QuietChange(g, nodes, node, s, e, c);
        if c.stored.Some? {
          SameLoadWithin(g, nodes, node, c.stored.value);
        }
    }
  }

  lemma StepWithin(g: Setting, fleet: Fleet, node: string, e: Event, next: Fleet)
    requires LimitsBelowCeiling(g) && WithinLimits(g, fleet.nodes) && LoadsAgree(fleet)
    requires FleetStep(g, fleet, node, e) == Some(next) && Entered(fleet.nodes, node, e)
    ensures WithinLimits(g, next.nodes) && LoadsAgree(next)
  {
    var c := NodeStep(g, fleet.nodes, node, fleet.controllers[node], e).value;
    NodeStepWithin(g, fleet.nodes, node, fleet.controllers[node], e, c);
  }

  // ---- Runs ----

  /** A controller whose node is not in the store has not sent a request. */
  predicate NewAreFresh(fleet: Fleet) {
    forall node <- fleet.controllers :: node !in fleet.nodes ==> fleet.controllers[node].conversation == []
  }

  /** The node's callback at `i` is that of a model response or tool result only after a model
      request of the node, in this run or before it. */
  predicate Requested(events: seq<(string, Event)>, start: Fleet, i: nat)
    requires i < |events|
  {
    events[i].1.Model? || events[i].1.Tool? ==>
      || events[i].0 in start.nodes
      || exists j :: 0 <= j < i && events[j].0 == events[i].0 && events[j].1.Before?
  }

  ghost predicate IsFleetRun(g: Setting, events: seq<(string, Event)>, fleets: seq<Fleet>) {
    && |fleets| == |events| + 1 && NewAreFresh(fleets[0])
    && (forall i :: 0 <= i < |events| ==> FleetStep(g, fleets[i], events[i].0, events[i].1) == Some(fleets[i + 1]))
    && (forall i :: 0 <= i < |events| ==> Requested(events, fleets[0], i))
  }

  lemma StepStores(g: Setting, fleet: Fleet, node: string, e: Event, next: Fleet)
    requires FleetStep(g, fleet, node, e) == Some(next) && NewAreFresh(fleet)
    ensures NewAreFresh(next) && fleet.nodes.Keys <= next.nodes.Keys
    ensures e.Before? ==> node in next.nodes
  {
    var c := NodeStep(g, fleet.nodes, node, fleet.controllers[node], e).value;
    assert next == Apply(fleet, node, c);
  }

  lemma {:induction false} RunsStore(g: Setting, events: seq<(string, Event)>, fleets: seq<Fleet>, n: nat)
    requires IsFleetRun(g, events, fleets) && n < |fleets|
    ensures NewAreFresh(fleets[n]) && fleets[0].nodes.Keys <= fleets[n].nodes.Keys
    ensures forall j :: 0 <= j < n && events[j].1.Before? ==> events[j].0 in fleets[n].nodes
  {
    if n > 0 {
      RunsStore(g, events, fleets, n - 1);
      StepStores(g, fleets[n - 1], events[n - 1].0, events[n - 1].1, fleets[n]);
    }
  }

  /** In a run every model response and tool result finds its node in the store. */
  lemma RunsEnter(g: Setting, events: seq<(string, Event)>, fleets: seq<Fleet>, n: nat)
    requires IsFleetRun(g, events, fleets) && n < |events|
    ensures Entered(fleets[n].nodes, events[n].0, events[n].1)
  {
    RunsStore(g, events, fleets, n);
    assert Requested(events, fleets[0], n);
  }

  /** Where a fleet may start: nothing in the store, or controllers made from a store within its
      limits. */
  ghost predicate Launched(g: Setting, fleet: Fleet) {
    && WithinLimits(g, fleet.nodes)
    && forall node <- fleet.controllers :: fleet.controllers[node] == Snapshot(fleet.nodes, node)
  }

  lemma EmptyStoreLaunches(g: Setting, controllers: Nodes)
    requires forall node <- controllers :: controllers[node] == FRESH
    ensures Launched(g, Fleet(map[], controllers))
  {
    var nodes: Nodes := map[];
    assert Each(nodes, CALLS) == map[] && Each(nodes, BYTES) == map[];
    forall tool: string ensures Total(nodes, CallsOf(tool)) == 0 {
      assert Each(nodes, CallsOf(tool)) == map[];
    }
  }

  /** However the nodes' steps interleave, all calls, all calls of one tool, and all output bytes,
      summed without clamping over the nodes, stay within the limits. */
  lemma LimitsHold(g: Setting, events: seq<(string, Event)>, fleets: seq<Fleet>, n: nat)
    requires LimitsBelowCeiling(g) && IsFleetRun(g, events, fleets) && Launched(g, fleets[0]) && n < |fleets|
    ensures WithinLimits(g, fleets[n].nodes) && LoadsAgree(fleets[n])
  {
    for i := 0 to n
      invariant WithinLimits(g, fleets[i].nodes) && LoadsAgree(fleets[i])
    {
      RunsEnter(g, events, fleets, i);
      StepWithin(g, fleets[i], events[i].0, events[i].1, fleets[i + 1]);
    }
  }

  ghost predicate GoodInFleet(g: Setting, fleet: Fleet, node: string, e: Event) {
    node in fleet.controllers && Good(g, Project(fleet, node), e)
  }

  /** Every node's two copies are as its own run would have them. */
  ghost predicate AllInvariant(g: Setting, fleet: Fleet) {
    forall node <- fleet.controllers :: Invariant(g, Project(fleet, node))
  }

  lemma GoodStepKeepsAll(g: Setting, fleet: Fleet, node: string, e: Event, next: Fleet)
    requires Sound(g) && g.raw && AllInvariant(g, fleet)
    requires FleetStep(g, fleet, node, e) == Some(next) && Entered(fleet.nodes, node, e)
    requires GoodInFleet(g, fleet, node, e)
    ensures AllInvariant(g, next)
  {
    assert Invariant(g, Project(fleet, node));
    FleetStepProjects(g, fleet, node, e, next);
    StepPreserves(g, Project(fleet, node), e, Project(next, node));
    forall other | other in next.controllers ensures Invariant(g, Project(next, other)) {
      if other != node {
        assert Project(next, other) == Project(fleet, other);
      }
    }
  }

  lemma GoodRunStep(g: Setting, events: seq<(string, Event)>, fleets: seq<Fleet>, n: nat)
    requires Sound(g) && g.raw && IsFleetRun(g, events, fleets) && n < |events| && AllInvariant(g, fleets[n])
    requires GoodInFleet(g, fleets[n], events[n].0, events[n].1)
    ensures AllInvariant(g, fleets[n + 1])
  {
    RunsEnter(g, events, fleets, n);
    GoodStepKeepsAll(g, fleets[n], events[n].0, events[n].1, fleets[n + 1]);
  }

  lemma {:induction false} GoodFleetsKeepAll(g: Setting, events: seq<(string, Event)>, fleets: seq<Fleet>, n: nat)
    requires Sound(g) && g.raw && IsFleetRun(g, events, fleets) && n < |fleets| && AllInvariant(g, fleets[0])
    requires forall i :: 0 <= i < n ==> GoodInFleet(g, fleets[i], events[i].0, events[i].1)
    ensures AllInvariant(g, fleets[n])
  {
    if n > 0 {
      GoodFleetsKeepAll(g, events, fleets, n - 1);
      GoodRunStep(g, events, fleets, n - 1);
    }
  }

  /** And when every step is good, every node's two copies stay acceptable to the validator
      throughout, whatever the other nodes do. */
  lemma FleetsValidate(g: Setting, events: seq<(string, Event)>, fleets: seq<Fleet>, n: nat, node: string)
    requires Sound(g) && g.raw && IsFleetRun(g, events, fleets) && n < |fleets| && AllInvariant(g, fleets[0])
    requires forall i :: 0 <= i < n ==> GoodInFleet(g, fleets[i], events[i].0, events[i].1)
    requires node in fleets[n].controllers
    ensures AllValid(g, Project(fleets[n], node))
  {
    GoodFleetsKeepAll(g, events, fleets, n);
    InvariantValid(g, Project(fleets[n], node));
  }
}
