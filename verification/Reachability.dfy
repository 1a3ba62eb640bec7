/** Reachability in the workflow graph, and which nodes fan branches in. */
module Reachability {
  import opened Prelude
  import opened WorkflowIr
  import opened Worklist

  type Adjacency = map<string, set<string>>

  function Successors(g: Adjacency, n: string): set<string> {
    if n in g then g[n] else {}
  }

  function Link(g: Adjacency, from: string, to: string): Adjacency {
    g[from := Successors(g, from) + {to}]
  }

  // ---- Building the two adjacency maps ----

  predicate NoneEmpty(g: Adjacency) {
    forall n <- g :: g[n] != {}
  }

  /** `successors` and `incoming` hold exactly the edges of the workflow. */
  ghost predicate Adjacent(ir: Ir, successors: Adjacency, incoming: Adjacency) {
    && (forall u, v :: v in Successors(successors, u) <==> Leads(ir, u, v))
    && (forall u, v :: u in Successors(incoming, v) <==> Leads(ir, u, v))
    && NoneEmpty(incoming)
  }

  /** Edges seen so far: the first `e` edges, and the targets of the first `r` routes. */
  ghost predicate Seen(ir: Ir, e: nat, r: nat, successors: Adjacency, incoming: Adjacency)
    requires e <= |ir.edges| && r <= |ir.routes|
  {
    var part := Ir(ir.nodes, ir.entry, ir.edges[..e], ir.routes[..r]);
    Adjacent(part, successors, incoming)
  }

  lemma LinkEdge(ir: Ir, part: Ir, edge: (string, string), successors: Adjacency, incoming: Adjacency)
    requires Adjacent(part, successors, incoming)
    requires ir == part.(edges := part.edges + [edge])
    ensures Adjacent(ir, Link(successors, edge.0, edge.1), Link(incoming, edge.1, edge.0))
  {
    forall u, v ensures Leads(ir, u, v) <==> Leads(part, u, v) || (u, v) == edge {
    }
  }

  /** `g` with edges from one node to each of the targets, and the same edges seen from behind. */
  function LeadingTo(g: Adjacency, from: string, targets: set<string>): Adjacency {
    if targets == {} then g else g[from := Successors(g, from) + targets]
  }

  function ComingFrom(g: Adjacency, from: string, targets: set<string>): Adjacency {
    map v | v in g.Keys + targets :: Successors(g, v) + (if v in targets then {from} else {})
  }

  lemma LeadingToMore(g: Adjacency, from: string, targets: set<string>, target: string)
    ensures Link(LeadingTo(g, from, targets), from, target) == LeadingTo(g, from, targets + {target})
  {
    assert Successors(g, from) + targets + {target} == Successors(g, from) + (targets + {target});
    if targets == {} {
      assert targets + {target} == {target};
    }
  }

  lemma ComingFromMore(g: Adjacency, from: string, targets: set<string>, target: string)
    ensures Link(ComingFrom(g, from, targets), target, from) == ComingFrom(g, from, targets + {target})
  {
    var a, b := Link(ComingFrom(g, from, targets), target, from), ComingFrom(g, from, targets + {target});
    assert a.Keys == b.Keys;
    forall v | v in a ensures a[v] == b[v] {
      if v == target {
        assert a[v] == Successors(g, v) + {from};
      }
    }
  }

  lemma ComingFromNone(g: Adjacency, from: string)
    ensures ComingFrom(g, from, {}) == g
  {
    var none := ComingFrom(g, from, {});
    assert none.Keys == g.Keys;
    forall v | v in g ensures none[v] == g[v] {
    }
  }

  method LinkAll(from: string, targets: set<string>, successors0: Adjacency, incoming0: Adjacency)
    returns (successors: Adjacency, incoming: Adjacency)
    ensures successors == LeadingTo(successors0, from, targets)
    ensures incoming == ComingFrom(incoming0, from, targets)
  {
    successors, incoming := successors0, incoming0;
    ComingFromNone(incoming0, from);
    var list := Listed(targets);
    for i := 0 to |list|
      invariant successors == LeadingTo(successors0, from, Elements(list[..i]))
      invariant incoming == ComingFrom(incoming0, from, Elements(list[..i]))
    {
      var target := list[i];
      assert list[..i + 1][..i] == list[..i];
      ComingFromMore(incoming0, from, Elements(list[..i]), target);
      LeadingToMore(successors0, from, Elements(list[..i]), target);
      incoming := Link(incoming, target, from);
      successors := Link(successors, from, target);
    }
    assert list[..|list|] == list;
  }

  lemma OneMoreRoute(ir: Ir, part: Ir, route: Route, u: string, v: string)
    requires ir == part.(routes := part.routes + [route])
    ensures Leads(ir, u, v) <==> Leads(part, u, v) || (u == route.from && v in RouteTargets(route))
  {
    assert route in ir.routes;
  }

  lemma LinkRoute(ir: Ir, part: Ir, route: Route, successors: Adjacency, incoming: Adjacency)
    requires Adjacent(part, successors, incoming)
    requires ir == part.(routes := part.routes + [route])
    ensures Adjacent(ir, LeadingTo(successors, route.from, RouteTargets(route)),
                     ComingFrom(incoming, route.from, RouteTargets(route)))
  {
    var targets := RouteTargets(route);
    var forward, back := LeadingTo(successors, route.from, targets), ComingFrom(incoming, route.from, targets);
    forall u, v
      ensures v in Successors(forward, u) <==> Leads(ir, u, v)
      ensures u in Successors(back, v) <==> Leads(ir, u, v)
    {
      OneMoreRoute(ir, part, route, u, v);
    }
  }

  method BuildAdjacency(ir: Ir) returns (successors: Adjacency, incoming: Adjacency)
    ensures Adjacent(ir, successors, incoming)
  {
    successors, incoming := map[], map[];
    for i := 0 to |ir.edges|
      invariant Seen(ir, i, 0, successors, incoming)
    {
      var (from, to) := ir.edges[i];
      var part := Ir(ir.nodes, ir.entry, ir.edges[..i], ir.routes[..0]);
      assert ir.edges[..i + 1] == part.edges + [(from, to)];
      LinkEdge(part.(edges := ir.edges[..i + 1]), part, (from, to), successors, incoming);
      incoming := Link(incoming, to, from);
      successors := Link(successors, from, to);
    }
    for i := 0 to |ir.routes|
      invariant Seen(ir, |ir.edges|, i, successors, incoming)
    {
      var route := ir.routes[i];
      ghost var part := Ir(ir.nodes, ir.entry, ir.edges[..|ir.edges|], ir.routes[..i]);
      assert ir.routes[..i + 1] == part.routes + [route];
      LinkRoute(part.(routes := ir.routes[..i + 1]), part, route, successors, incoming);
      successors, incoming := LinkAll(route.from, RouteTargets(route), successors, incoming);
    }
    assert ir.edges[..|ir.edges|] == ir.edges && ir.routes[..|ir.routes|] == ir.routes;
  }

  // ---- Reachability before a target ----

  /** A walk along edges on which only the last node may be the target. */
  predicate Walk(g: Adjacency, p: seq<string>, from: string, to: string, target: string) {
    && p != [] && p[0] == from && p[|p| - 1] == to
    && (forall i :: 0 <= i < |p| - 1 ==> p[i + 1] in Successors(g, p[i]))
    && (forall i :: 0 <= i < |p| - 1 ==> p[i] != target)
  }

  ghost predicate Reaches(g: Adjacency, from: string, to: string, target: string) {
    exists p :: Walk(g, p, from, to, target)
  }

  lemma ReachesSelf(g: Adjacency, n: string, target: string)
    ensures Reaches(g, n, n, target)
  {
    assert Walk(g, [n], n, n, target);
  }

  lemma ReachesNext(g: Adjacency, from: string, n: string, next: string, target: string)
    requires Reaches(g, from, n, target) && n != target && next in Successors(g, n)
    ensures Reaches(g, from, next, target)
  {
    var p :| Walk(g, p, from, n, target);
    assert Walk(g, p + [next], from, next, target);
  }

  /** A set that holds the start and, but for the target, all it leads to, holds every node that
      is reached. */
  lemma {:induction false} ClosedHoldsReached(g: Adjacency, closed: set<string>, p: seq<string>,
                                              from: string, to: string, target: string)
    requires from in closed
    requires forall n <- closed :: n != target ==> Successors(g, n) <= closed
    requires Walk(g, p, from, to, target)
    ensures to in closed
    decreases |p|
  {
    if |p| > 1 {
      assert p[0 + 1] in Successors(g, p[0]);
      forall i | 0 <= i < |p| - 2 ensures p[1..][i + 1] in Successors(g, p[1..][i]) && p[1..][i] != target {
        assert p[i + 1 + 1] in Successors(g, p[i + 1]);
      }
      ClosedHoldsReached(g, closed, p[1..], p[1], to, target);
    }
  }

  function AllNodes(g: Adjacency, from: string): set<string> {
    {from} + g.Keys + (set u, v | u in g && v in g[u] :: v)
  }

  /** What the search has established: everything met is reached, and what was visited leads only
      to what was met. */
  ghost predicate Searching(g: Adjacency, from: string, to: string, target: string,
                            pending: seq<string>, visited: set<string>) {
    && (forall n <- pending :: Reaches(g, from, n, target) && n in AllNodes(g, from))
    && visited <= AllNodes(g, from)
    && to !in visited
    && (from in pending || from in visited)
    && (forall n <- visited, m <- Successors(g, n) :: n != target ==> m in pending || m in visited)
  }

  lemma Visit(g: Adjacency, from: string, to: string, target: string,
              pending: seq<string>, visited: set<string>, node: string, targets: seq<string>)
    requires Searching(g, from, to, target, pending + [node], visited) && node != to
    requires if node == target then targets == [] else forall m :: m in targets <==> m in Successors(g, node)
    ensures Searching(g, from, to, target, pending + targets, visited + {node})
  {
    assert node in pending + [node];
    forall m | m in targets ensures Reaches(g, from, m, target) && m in AllNodes(g, from) {
      ReachesNext(g, from, node, m, target);
    }
  }

  lemma SkipVisited(g: Adjacency, from: string, to: string, target: string,
                    pending: seq<string>, visited: set<string>, node: string)
    requires Searching(g, from, to, target, pending + [node], visited) && node in visited
    ensures Searching(g, from, to, target, pending, visited)
  {
  }

  lemma SearchExhausted(g: Adjacency, from: string, to: string, target: string, visited: set<string>)
    requires Searching(g, from, to, target, [], visited)
    ensures !Reaches(g, from, to, target)
  {
    if Reaches(g, from, to, target) {
      var p :| Walk(g, p, from, to, target);
      assert forall n <- visited :: n != target ==> Successors(g, n) <= visited;
      ClosedHoldsReached(g, visited, p, from, to, target);
    }
  }

  /** The worklist search ends, and answers exactly whether there is a walk. */
  method CanReachBeforeTarget(g: Adjacency, from: string, to: string, target: string) returns (found: bool)
    ensures found <==> Reaches(g, from, to, target)
  {
    var pending, visited := [from], {};
    ReachesSelf(g, from, target);
    while pending != []
      invariant Searching(g, from, to, target, pending, visited)
      decreases |AllNodes(g, from) - visited|, |pending|
    {
      var node := pending[|pending| - 1];
      assert pending == pending[..|pending| - 1] + [node];
      ghost var met := node in AllNodes(g, from) && Reaches(g, from, node, target);
      assert met by {
        assert node in pending;
      }
      pending := pending[..|pending| - 1];
      if node in visited {
        SkipVisited(g, from, to, target, pending, visited, node);
        continue;
      }
      if node == to {
        return true;
      }
      var targets := [];
      if node != target {
        targets := Listed(Successors(g, node));
      }
      Visit(g, from, to, target, pending, visited, node, targets);
      FewerLeft(AllNodes(g, from), visited, node);
      visited := visited + {node};
      pending := pending + targets;
    }
    SearchExhausted(g, from, to, target, visited);
    found := false;
  }

  // ---- Fan-in ----

  /** Neither of two predecessors of the target comes before the other. */
  ghost predicate Incomparable(g: Adjacency, a: string, b: string, target: string) {
    a != b && !Reaches(g, a, b, target) && !Reaches(g, b, a, target)
  }

  ghost predicate HasPartner(g: Adjacency, s: string, sources: set<string>, target: string) {
    exists other <- sources :: Incomparable(g, s, other, target)
  }

  /** The predecessors that are incomparable to some other predecessor. */
  ghost function FanInSources(g: Adjacency, sources: set<string>, target: string): set<string> {
    set s | s in sources && HasPartner(g, s, sources, target)
  }

  ghost function ReachedSources(g: Adjacency, sources: set<string>, writer: string, target: string): set<string> {
    set s | s in sources && Reaches(g, writer, s, target)
  }

  /** Some node of the workflow reaches two of the sources before the target. */
  ghost predicate Diverging(g: Adjacency, ids: set<string>, sources: set<string>, target: string) {
    exists writer <- ids :: |ReachedSources(g, sources, writer, target)| > 1
  }

  ghost predicate IsFanIn(g: Adjacency, ids: set<string>, sources: set<string>, target: string) {
    |FanInSources(g, sources, target)| > 1 && Diverging(g, ids, FanInSources(g, sources, target), target)
  }

  /** There is never exactly one source. */
  lemma SourcesComeInPairs(g: Adjacency, sources: set<string>, target: string)
    ensures |FanInSources(g, sources, target)| > 1 <==> FanInSources(g, sources, target) != {}
  {
    var fan := FanInSources(g, sources, target);
    if fan != {} {
      var a :| a in fan;
      var b :| b in sources && Incomparable(g, a, b, target);
      assert Incomparable(g, b, a, target);
      assert b in fan;
      TwoMembers(fan, a, b);
    }
  }

  lemma TwoMembers<T>(s: set<T>, a: T, b: T)
    requires a in s && b in s && a != b
    ensures |s| > 1
  {
    assert {a, b} <= s;
    assert |s| == |s - {a, b}| + |{a, b}|;
  }

  lemma MoreThanOne<T>(s: set<T>)
    requires |s| > 1
    ensures exists a, b :: a in s && b in s && a != b
  {
    var a :| a in s;
    assert |s - {a}| == |s| - 1;
    var b :| b in s - {a};
  }

  /** A target fans in exactly when two of its predecessors are incomparable, and some node leads
      to two predecessors that each have an incomparable partner. */
  lemma FanInIff(g: Adjacency, ids: set<string>, sources: set<string>, target: string)
    ensures IsFanIn(g, ids, sources, target) <==>
      exists writer, a, b :: writer in ids && a != b
        && a in FanInSources(g, sources, target) && b in FanInSources(g, sources, target)
        && Reaches(g, writer, a, target) && Reaches(g, writer, b, target)
  {
    var fan := FanInSources(g, sources, target);
    if writer, a, b :| (writer in ids && a != b && a in fan && b in fan
                        && Reaches(g, writer, a, target) && Reaches(g, writer, b, target)) {
      TwoMembers(fan, a, b);
      TwoMembers(ReachedSources(g, fan, writer, target), a, b);
    }
    if IsFanIn(g, ids, sources, target) {
      var writer :| writer in ids && |ReachedSources(g, fan, writer, target)| > 1;
      MoreThanOne(ReachedSources(g, fan, writer, target));
    }
  }

  method HasIncomparable(g: Adjacency, source: string, sources: set<string>, target: string) returns (found: bool)
    ensures found <==> HasPartner(g, source, sources, target)
  {
    var remaining := sources;
    while remaining != {}
      invariant remaining <= sources
      invariant forall other <- sources :: other !in remaining ==> !Incomparable(g, source, other, target)
      decreases |remaining|
    {
      var other :| other in remaining;
      if source != other {
        var forth := CanReachBeforeTarget(g, source, other, target);
        var back := CanReachBeforeTarget(g, other, source, target);
        if !forth && !back {
          return true;
        }
      }
      remaining := remaining - {other};
    }
    found := false;
  }

  method SelectSources(g: Adjacency, sources: set<string>, target: string) returns (fan: set<string>)
    ensures fan == FanInSources(g, sources, target)
  {
    fan := {};
    var remaining := sources;
    while remaining != {}
      invariant remaining <= sources && fan <= sources
      invariant forall s <- sources :: s in fan <==> s !in remaining && HasPartner(g, s, sources, target)
      decreases |remaining|
    {
      var source :| source in remaining;
      var keep := HasIncomparable(g, source, sources, target);
      if keep {
        fan := fan + {source};
      }
      remaining := remaining - {source};
    }
  }

  method ReachedBy(g: Adjacency, sources: set<string>, writer: string, target: string) returns (reached: set<string>)
    ensures reached == ReachedSources(g, sources, writer, target)
  {
    reached := {};
    var remaining := sources;
    while remaining != {}
      invariant remaining <= sources && reached <= sources
      invariant forall s <- sources :: s in reached <==> s !in remaining && Reaches(g, writer, s, target)
      decreases |remaining|
    {
      var source :| source in remaining;
      var yes := CanReachBeforeTarget(g, writer, source, target);
      if yes {
        reached := reached + {source};
      }
      remaining := remaining - {source};
    }
  }

  method IsDiverging(g: Adjacency, ids: set<string>, sources: set<string>, target: string) returns (found: bool)
    ensures found <==> Diverging(g, ids, sources, target)
  {
    var remaining := ids;
    while remaining != {}
      invariant remaining <= ids
      invariant forall writer <- ids :: writer !in remaining ==> |ReachedSources(g, sources, writer, target)| <= 1
      decreases |remaining|
    {
      var writer :| writer in remaining;
      var reached := ReachedBy(g, sources, writer, target);
      if |reached| > 1 {
        return true;
      }
      remaining := remaining - {writer};
    }
    found := false;
  }

  /** The map of fan-in targets to their sources. */
  ghost predicate IsFanInMap(g: Adjacency, ids: set<string>, incoming: Adjacency, fanIn: Adjacency) {
    && (forall t :: t in fanIn <==> t in incoming && IsFanIn(g, ids, incoming[t], t))
    && (forall t <- fanIn :: t in incoming && fanIn[t] == FanInSources(g, incoming[t], t))
  }

  method ClassifyFanIn(g: Adjacency, ids: set<string>, incoming: Adjacency) returns (fanIn: Adjacency)
    ensures IsFanInMap(g, ids, incoming, fanIn)
  {
    fanIn := map[];
    var remaining := incoming.Keys;
    while remaining != {}
      invariant remaining <= incoming.Keys
      invariant forall t :: t in fanIn <==> t in incoming && t !in remaining && IsFanIn(g, ids, incoming[t], t)
      invariant forall t <- fanIn :: t in incoming && fanIn[t] == FanInSources(g, incoming[t], t)
      decreases |remaining|
    {
      var target :| target in remaining;
      var sources := SelectSources(g, incoming[target], target);
      var diverging := IsDiverging(g, ids, sources, target);
      if |sources| > 1 && diverging {
        fanIn := fanIn[target := sources];
      }
      remaining := remaining - {target};
    }
  }

  /** An agent writes for a source of a fan-in target when that source is the only one it reaches. */
  ghost predicate Bound(g: Adjacency, fanIn: Adjacency, writer: string, target: string, source: string) {
    target in fanIn && ReachedSources(g, fanIn[target], writer, target) == {source}
  }

  method BindWriter(g: Adjacency, fanIn: Adjacency, writer: string) returns (bindings: set<(string, string)>)
    ensures forall t, s :: (t, s) in bindings <==> Bound(g, fanIn, writer, t, s)
  {
    bindings := {};
    var remaining := fanIn.Keys;
    while remaining != {}
      invariant remaining <= fanIn.Keys
      invariant forall t, s :: (t, s) in bindings <==> t !in remaining && Bound(g, fanIn, writer, t, s)
      decreases |remaining|
    {
      var target :| target in remaining;
      var reached := ReachedBy(g, fanIn[target], writer, target);
      if |reached| == 1 {
        var source :| source in reached;
        assert |reached - {source}| == 0;
        assert reached == {source};
        bindings := bindings + {(target, source)};
      }
      remaining := remaining - {target};
    }
  }

  /** At most one source per target: a writer's state goes into one branch of each fan-in. */
  lemma BoundOnce(g: Adjacency, fanIn: Adjacency, writer: string, target: string, s: string, s': string)
    requires Bound(g, fanIn, writer, target, s) && Bound(g, fanIn, writer, target, s')
    ensures s == s' && s in fanIn[target] && Reaches(g, writer, s, target)
  {
    assert s in ReachedSources(g, fanIn[target], writer, target);
    assert s' in {s};
  }

  /** A source that reaches no other source of the target writes for itself. */
  lemma SourceBindsItself(g: Adjacency, fanIn: Adjacency, source: string, target: string)
    requires target in fanIn && source in fanIn[target]
    ensures Bound(g, fanIn, source, target, source) <==>
      forall other <- fanIn[target] :: other != source ==> !Reaches(g, source, other, target)
  {
    ReachesSelf(g, source, target);
    var reached := ReachedSources(g, fanIn[target], source, target);
    assert source in reached;
    if exists other <- fanIn[target] :: other != source && Reaches(g, source, other, target) {
      var other :| other in fanIn[target] && other != source && Reaches(g, source, other, target);
      assert other in reached;
    }
  }
}
