/** Workflows with a node named like the guard of a fan-in target.  The guard's edge is then added to
    that node: what exactly goes wrong, when, and a workflow that shows it. */
module GuardNames {
  import opened Prelude
  import opened WorkflowIr
  import opened Reachability
  import opened Translation
  import opened TranslationMeaning

  // ---- Moves ----

  /** From every workflow node, in every state, the graph makes the translated moves and no other. */
  ghost predicate MovesFaithfully(ir: Ir, fanIn: Adjacency, admit: Option<string>, graph: Graph)
    requires |graph.conditionals| == |ir.routes|
  {
    forall n <- Ids(ir), state: State, x ::
      GraphMoves(graph, n, state, x) <==> Translated(ir, fanIn, admit, graph, n, state, x)
  }

  /** The guard's edge is among the moves the node makes anyway. */
  ghost predicate MovesLikeGuard(ir: Ir, fanIn: Adjacency, admit: Option<string>, t: string, state: State) {
    exists m :: Real(ir, m) && Rewrite(fanIn, admit, m) == AfterGuard(admit, t) && Moves(ir, Guard(t), state, m)
  }

  lemma AfterGuardIsNoFailure(ir: Ir, fanIn: Adjacency, admit: Option<string>, graph: Graph, t: string)
    requires WellFormed(ir, fanIn) && IsTranslation(ir, fanIn, admit, graph) && t in fanIn
    ensures AfterGuard(admit, t) !in graph.unknownNodes
  {
    Kinds(ir, fanIn, admit, graph, AfterGuard(admit, t));
  }

  /** Each move of the graph is one of the workflow exactly when every node that is named like a
      guard makes, in every state, a move that is translated to the guard's edge. */
  lemma MovesFaithfullyIff(ir: Ir, fanIn: Adjacency, admit: Option<string>, graph: Graph)
    requires WellFormed(ir, fanIn) && IsTranslation(ir, fanIn, admit, graph)
    ensures MovesFaithfully(ir, fanIn, admit, graph) <==>
      forall t <- fanIn, state: State :: Guard(t) in Ids(ir) ==> MovesLikeGuard(ir, fanIn, admit, t, state)
  {
    if MovesFaithfully(ir, fanIn, admit, graph) {
      forall t, state: State | t in fanIn && Guard(t) in Ids(ir) ensures MovesLikeGuard(ir, fanIn, admit, t, state) {
        GuardMoveIsTranslated(ir, fanIn, admit, graph, t, state);
      }
    }
    if forall t <- fanIn, state: State :: Guard(t) in Ids(ir) ==> MovesLikeGuard(ir, fanIn, admit, t, state) {
      forall n, state: State, x | n in Ids(ir)
        ensures GraphMoves(graph, n, state, x) <==> Translated(ir, fanIn, admit, graph, n, state, x)
      {
        MovesExactly(ir, fanIn, admit, graph, n, state, x);
        if t :| t in fanIn && n == Guard(t) && x == AfterGuard(admit, t) {
          assert MovesLikeGuard(ir, fanIn, admit, t, state);
        }
      }
    }
  }

  lemma FailureIsListed(ir: Ir, fanIn: Adjacency, admit: Option<string>, graph: Graph, i: nat, state: State)
    requires IsTranslation(ir, fanIn, admit, graph) && i < |ir.routes| && Chosen(ir.routes[i], state).None?
    ensures graph.conditionals[i].unknown.Some? && graph.conditionals[i].unknown.value in graph.unknownNodes
  {
    assert Serves(fanIn, admit, ir.routes[i], graph.conditionals[i], graph.unknownNodes);
    assert ir.routes[i].default.None?;
  }

  lemma GuardMoveIsTranslated(ir: Ir, fanIn: Adjacency, admit: Option<string>, graph: Graph, t: string, state: State)
    requires WellFormed(ir, fanIn) && IsTranslation(ir, fanIn, admit, graph)
    requires MovesFaithfully(ir, fanIn, admit, graph) && t in fanIn && Guard(t) in Ids(ir)
    ensures MovesLikeGuard(ir, fanIn, admit, t, state)
  {
    var x := AfterGuard(admit, t);
    MovesExactly(ir, fanIn, admit, graph, Guard(t), state, x);
    AfterGuardIsNoFailure(ir, fanIn, admit, graph, t);
    assert Translated(ir, fanIn, admit, graph, Guard(t), state, x);
    forall i | 0 <= i < |ir.routes| && Chosen(ir.routes[i], state).None?
      ensures graph.conditionals[i].unknown != Some(x)
    {
      FailureIsListed(ir, fanIn, admit, graph, i, state);
    }
  }

  // ---- Traces ----

  /** Every node can be reached from the entry along edges and routes. */
  ghost predicate AllReached(ir: Ir, successors: Adjacency) {
    forall n <- Ids(ir) :: Reaches(successors, ir.entry, n, n)
  }

  /** Some trace of the workflow visits the node last. */
  ghost predicate Visited(ir: Ir, n: string) {
    exists x: seq<Visit> :: IsIrTrace(ir, x) && x != [] && x[|x| - 1].node == n
  }

  ghost predicate SameTraces(ir: Ir, graph: Graph) {
    forall x :: IsIrTrace(ir, x) <==> ErasesTo(ir, graph, x)
  }

  /** No target is rewritten to a fan-in target, unless that is itself named like a guard. */
  lemma RewriteMisses(ir: Ir, fanIn: Adjacency, admit: Option<string>, graph: Graph, m: string, t: string)
    requires WellFormed(ir, fanIn) && IsTranslation(ir, fanIn, admit, graph)
    requires t in fanIn && forall s <- fanIn :: Guard(s) != t
    ensures Rewrite(fanIn, admit, m) != t
  {
  }

  /** The graph enters a fan-in target from its guard, or from the revise-admit node. */
  lemma IntoFanIn(ir: Ir, fanIn: Adjacency, admit: Option<string>, graph: Graph, y: string, state: State, t: string)
    requires WellFormed(ir, fanIn) && IsTranslation(ir, fanIn, admit, graph)
    requires t in fanIn && forall s <- fanIn :: Guard(s) != t
    requires GraphMoves(graph, y, state, t)
    ensures y == Guard(t) || (t == REVISE && admit == Some(y))
  {
    RewriteMisses(ir, fanIn, admit, graph, ir.entry, t);
    forall i | 0 <= i < |ir.edges| ensures Rewrite(fanIn, admit, ir.edges[i].1) != t {
      RewriteMisses(ir, fanIn, admit, graph, ir.edges[i].1, t);
    }
    forall i | 0 <= i < |ir.routes|
      ensures Lookup(graph.conditionals[i].targets, SelectKey(graph.conditionals[i], state)) != Some(t)
    {
      if Chosen(ir.routes[i], state).None? {
        FailureIsListed(ir, fanIn, admit, graph, i, state);
      } else {
        RewriteMisses(ir, fanIn, admit, graph, Chosen(ir.routes[i], state).value, t);
      }
      RouteLeads(ir, fanIn, admit, graph, i, state);
    }
    assert (y, t) in graph.edges <==> IsGraphEdge(ir, fanIn, admit, y, t);
  }

  /** Where the conditional edge of a route leads. */
  lemma RouteLeads(ir: Ir, fanIn: Adjacency, admit: Option<string>, graph: Graph, i: nat, state: State)
    requires WellFormed(ir, fanIn) && IsTranslation(ir, fanIn, admit, graph) && i < |ir.routes|
    ensures Lookup(graph.conditionals[i].targets, SelectKey(graph.conditionals[i], state)) ==
      match Chosen(ir.routes[i], state)
      case Some(m) => Some(Rewrite(fanIn, admit, m))
      case None => graph.conditionals[i].unknown
  {
    var route, c := ir.routes[i], graph.conditionals[i];
    assert Serves(fanIn, admit, route, c, graph.unknownNodes);
    RouteAgrees(fanIn, admit, route, if c.unknown.Some? then c.unknown.value else "", state);
  }

  /** A fan-in target that stands before the others: no guard of a fan-in target has its name. */
  predicate IsUnguarded(ir: Ir, fanIn: Adjacency, t: string) {
    t in fanIn && Guard(t) in Ids(ir) && forall s <- fanIn :: Guard(s) != t
  }

  /** With a fan-in target that is itself named like a guard, the target of that guard collides
      too, and has the shorter name. */
  lemma {:induction false} UnguardedExists(ir: Ir, fanIn: Adjacency, t0: string) returns (t: string)
    requires fanIn.Keys <= Ids(ir) && t0 in fanIn && Guard(t0) in Ids(ir)
    ensures IsUnguarded(ir, fanIn, t)
    decreases |t0|
  {
    if s :| s in fanIn && Guard(s) == t0 {
      t := UnguardedExists(ir, fanIn, s);
    } else {
      t := t0;
    }
  }

  /** The graph enters the revise-admit node of a fan-in target from the guard only. */
  lemma IntoAdmit(ir: Ir, fanIn: Adjacency, admit: Option<string>, graph: Graph, y: string, state: State)
    requires WellFormed(ir, fanIn) && IsTranslation(ir, fanIn, admit, graph)
    requires IsUnguarded(ir, fanIn, REVISE) && admit.Some? && GraphMoves(graph, y, state, admit.value)
    ensures y == Guard(REVISE)
  {
    forall m | m in Ids(ir) ensures Rewrite(fanIn, admit, m) != admit.value {
      Kinds(ir, fanIn, admit, graph, admit.value);
    }
    Kinds(ir, fanIn, admit, graph, admit.value);
    forall i | 0 <= i < |ir.routes|
      ensures Lookup(graph.conditionals[i].targets, SelectKey(graph.conditionals[i], state)) != admit
    {
      RouteLeads(ir, fanIn, admit, graph, i, state);
      if Chosen(ir.routes[i], state).None? {
        FailureIsListed(ir, fanIn, admit, graph, i, state);
      } else {
        ChosenIsTarget(ir.routes[i], state);
      }
    }
    assert (y, admit.value) in graph.edges <==> IsGraphEdge(ir, fanIn, admit, y, admit.value);
  }

  lemma StartIsNotInto(ir: Ir, fanIn: Adjacency, admit: Option<string>, graph: Graph, t: string)
    requires WellFormed(ir, fanIn) && IsTranslation(ir, fanIn, admit, graph) && IsUnguarded(ir, fanIn, t)
    ensures (START, t) !in graph.edges
    ensures t == REVISE && admit.Some? ==> (START, admit.value) !in graph.edges
  {
    Kinds(ir, fanIn, admit, graph, START);
    if (START, t) in graph.edges {
      IntoFanIn(ir, fanIn, admit, graph, START, map[], t);
    }
    if t == REVISE && admit.Some? && (START, admit.value) in graph.edges {
      IntoAdmit(ir, fanIn, admit, graph, START, map[]);
    }
  }

  /** A graph trace that ends at the target has the node named like its guard as the last workflow
      node before. */
  lemma LastIsGuarded(ir: Ir, fanIn: Adjacency, admit: Option<string>, graph: Graph, g: seq<Visit>, t: string)
    requires WellFormed(ir, fanIn) && IsTranslation(ir, fanIn, admit, graph) && IsUnguarded(ir, fanIn, t)
    requires IsGraphTrace(graph, g) && g != [] && g[|g| - 1].node == t
    ensures var before := Erase(ir, g[..|g| - 1]); before != [] && before[|before| - 1].node == Guard(t)
  {
    StartIsNotInto(ir, fanIn, admit, graph, t);
    var front := g[..|g| - 1];
    assert front != [];
    var y := front[|front| - 1];
    assert GraphMoves(graph, g[|g| - 2].node, g[|g| - 2].state, g[|g| - 2 + 1].node);
    IntoFanIn(ir, fanIn, admit, graph, y.node, y.state, t);
    if y.node != Guard(t) {
      var farther := front[..|front| - 1];
      assert farther != [];
      var z := farther[|farther| - 1];
      assert GraphMoves(graph, g[|g| - 3].node, g[|g| - 3].state, g[|g| - 3 + 1].node);
      IntoAdmit(ir, fanIn, admit, graph, z.node, z.state);
      Kinds(ir, fanIn, admit, graph, admit.value);
      assert !Real(ir, y.node);
      assert Erase(ir, front) == Erase(ir, farther);
    }
  }

  /** A trace up to its last workflow node. */
  lemma {:induction false} TrimUnreal(ir: Ir, graph: Graph, g: seq<Visit>) returns (short: seq<Visit>)
    requires IsGraphTrace(graph, g) && Erase(ir, g) != []
    ensures IsGraphTrace(graph, short) && Erase(ir, short) == Erase(ir, g)
    ensures short != [] && Real(ir, short[|short| - 1].node)
  {
    if Real(ir, g[|g| - 1].node) {
      short := g;
    } else {
      short := TrimUnreal(ir, graph, g[..|g| - 1]);
    }
  }

  lemma LastErased(ir: Ir, t: seq<Visit>)
    requires t != [] && Real(ir, t[|t| - 1].node)
    ensures var x := Erase(ir, t);
      x != [] && x[|x| - 1] == t[|t| - 1] && Erase(ir, t[..|t| - 1]) == x[..|x| - 1]
  {
  }

  /** A trace of the workflow that enters the target from anywhere but the node named like its guard
      is lost. */
  lemma EntryIsLost(ir: Ir, fanIn: Adjacency, admit: Option<string>, graph: Graph, x: seq<Visit>, t: string)
    requires WellFormed(ir, fanIn) && IsTranslation(ir, fanIn, admit, graph) && IsUnguarded(ir, fanIn, t)
    requires |x| >= 2 && x[|x| - 1].node == t && x[|x| - 2].node != Guard(t)
    ensures !ErasesTo(ir, graph, x)
  {
    if g :| IsGraphTrace(graph, g) && Erase(ir, g) == x {
      var short := TrimUnreal(ir, graph, g);
      LastErased(ir, short);
      LastIsGuarded(ir, fanIn, admit, graph, short, t);
    }
  }

  /** Some selector makes a route take any of its targets. */
  lemma LeadsMoves(ir: Ir, fanIn: Adjacency, p: string, t: string) returns (state: State)
    requires WellFormed(ir, fanIn) && Leads(ir, p, t)
    ensures Moves(ir, p, state, t)
  {
    state := map[];
    if (p, t) !in ir.edges {
      var r :| r in ir.routes && r.from == p && t in RouteTargets(r);
      var i :| 0 <= i < |ir.routes| && ir.routes[i] == r;
      if c :| c in r.cases && c.target == t {
        var k :| 0 <= k < |r.cases| && r.cases[k] == c;
        state := map["route:" + p := Json.Str(c.key)];
        CaseTargetAt(r.cases, k);
        assert Chosen(ir.routes[i], state) == Some(t);
      } else {
        assert Selected(state, p).None?;
        assert Chosen(ir.routes[i], state) == Some(t);
      }
    }
  }

  lemma LeaderIsNode(ir: Ir, fanIn: Adjacency, p: string, t: string)
    requires WellFormed(ir, fanIn) && Leads(ir, p, t)
    ensures p in Ids(ir)
  {
    if (p, t) in ir.edges {
      var i :| 0 <= i < |ir.edges| && ir.edges[i] == (p, t);
    } else {
      var r :| r in ir.routes && r.from == p && t in RouteTargets(r);
      var i :| 0 <= i < |ir.routes| && ir.routes[i] == r;
    }
  }

  /** A fan-in target is led to by more than one node. */
  lemma AnotherSource(ir: Ir, successors: Adjacency, incoming: Adjacency, fanIn: Adjacency, t: string)
    returns (p: string)
    requires Adjacent(ir, successors, incoming) && IsFanInMap(successors, Ids(ir), incoming, fanIn) && t in fanIn
    ensures Leads(ir, p, t) && p != Guard(t)
  {
    MoreThanOne(fanIn[t]);
    var a, b :| a in fanIn[t] && b in fanIn[t] && a != b;
    p := if a == Guard(t) then b else a;
    assert p in Successors(incoming, t);
  }

  /** A trace that enters a node from a node that is reached. */
  lemma EnterFrom(ir: Ir, p: string, state: State, t: string) returns (longer: seq<Visit>)
    requires Visited(ir, p) && Moves(ir, p, state, t)
    ensures IsIrTrace(ir, longer) && |longer| >= 2
    ensures longer[|longer| - 1].node == t && longer[|longer| - 2].node == p
  {
    var x: seq<Visit> :| IsIrTrace(ir, x) && x != [] && x[|x| - 1].node == p;
    longer := x[..|x| - 1] + [Visit(p, state), Visit(t, map[])];
    forall i | 0 <= i < |longer| - 1 ensures Moves(ir, longer[i].node, longer[i].state, longer[i + 1].node) {
      if i < |x| - 1 {
        assert longer[i] == x[i] && longer[i + 1].node == x[i + 1].node;
      }
    }
  }

  /** A walk along edges and routes is the way of some trace. */
  lemma {:induction false} WalkIsTrace(ir: Ir, successors: Adjacency, incoming: Adjacency, fanIn: Adjacency,
                                       p: seq<string>, n: string, target: string)
    requires WellFormed(ir, fanIn) && Adjacent(ir, successors, incoming) && Walk(successors, p, ir.entry, n, target)
    ensures Visited(ir, n)
    decreases |p|
  {
    if |p| == 1 {
      assert IsIrTrace(ir, [Visit(n, map[])]);
    } else {
      var m := p[|p| - 2];
      assert p[|p| - 2 + 1] in Successors(successors, m);
      assert Walk(successors, p[..|p| - 1], ir.entry, m, target);
      WalkIsTrace(ir, successors, incoming, fanIn, p[..|p| - 1], m, target);
      var state := LeadsMoves(ir, fanIn, m, n);
      var longer := EnterFrom(ir, m, state, n);
    }
  }

  lemma ReachedIsVisited(ir: Ir, successors: Adjacency, incoming: Adjacency, fanIn: Adjacency, n: string)
    requires WellFormed(ir, fanIn) && Adjacent(ir, successors, incoming) && AllReached(ir, successors) && n in Ids(ir)
    ensures Visited(ir, n)
  {
    var p :| Walk(successors, p, ir.entry, n, n);
    WalkIsTrace(ir, successors, incoming, fanIn, p, n, n);
  }

  /** With such a node some trace of the workflow is lost. */
  lemma SomeTraceIsLost(ir: Ir, successors: Adjacency, incoming: Adjacency, fanIn: Adjacency,
                        admit: Option<string>, graph: Graph, t0: string)
    requires WellFormed(ir, fanIn) && IsTranslation(ir, fanIn, admit, graph)
    requires Adjacent(ir, successors, incoming) && IsFanInMap(successors, Ids(ir), incoming, fanIn)
    requires AllReached(ir, successors) && t0 in fanIn && Guard(t0) in Ids(ir)
    ensures !SameTraces(ir, graph)
  {
    var t := UnguardedExists(ir, fanIn, t0);
    var p := AnotherSource(ir, successors, incoming, fanIn, t);
    LeaderIsNode(ir, fanIn, p, t);
    var state := LeadsMoves(ir, fanIn, p, t);
    ReachedIsVisited(ir, successors, incoming, fanIn, p);
    var longer := EnterFrom(ir, p, state, t);
    EntryIsLost(ir, fanIn, admit, graph, longer, t);
  }

  /** Where every node is reached, the graph has the traces of the workflow exactly when no node is
      named like the guard of a fan-in target. */
  lemma TracesPreservedIff(ir: Ir, successors: Adjacency, incoming: Adjacency, fanIn: Adjacency,
                           admit: Option<string>, graph: Graph)
    requires WellFormed(ir, fanIn) && IsTranslation(ir, fanIn, admit, graph)
    requires Adjacent(ir, successors, incoming) && IsFanInMap(successors, Ids(ir), incoming, fanIn)
    requires AllReached(ir, successors)
    ensures SameTraces(ir, graph) <==> NoGuardNames(ir, fanIn)
  {
    if NoGuardNames(ir, fanIn) {
      forall x ensures IsIrTrace(ir, x) <==> ErasesTo(ir, graph, x) {
        TranslationPreservesTraces(ir, fanIn, admit, graph, x);
      }
    } else {
      var t :| t in fanIn && Guard(t) in Ids(ir);
      SomeTraceIsLost(ir, successors, incoming, fanIn, admit, graph, t);
    }
  }

  // ---- A workflow that shows it ----

  /** Two branches join at `t`; a third ends at a node named like the guard of `t`. */
  function Colliding(): Ir {
    Ir([Node("s", Agent), Node("a", Agent), Node("b", Agent), Node("t", Terminal), Node(Guard("t"), Terminal)],
       "s", [("s", "a"), ("s", "b"), ("s", Guard("t")), ("a", "t"), ("b", "t")], [])
  }

  lemma CollidingIds()
    ensures Ids(Colliding()) == {"s", "a", "b", "t", Guard("t")}
  {
    var nodes := Colliding().nodes;
    assert nodes[0].id in Ids(Colliding()) && nodes[1].id in Ids(Colliding()) && nodes[2].id in Ids(Colliding());
    assert nodes[3].id in Ids(Colliding()) && nodes[4].id in Ids(Colliding());
  }

  lemma CollidingLeads(u: string, v: string)
    ensures Leads(Colliding(), u, v) <==>
      (u == "s" && v in {"a", "b", Guard("t")}) || (u in {"a", "b"} && v == "t")
  {
    var edges := Colliding().edges;
    assert edges[0] in edges && edges[1] in edges && edges[2] in edges && edges[3] in edges && edges[4] in edges;
  }

  lemma BranchesAreSources(successors: Adjacency, incoming: Adjacency)
    requires Adjacent(Colliding(), successors, incoming)
    ensures "t" in incoming
    ensures "a" in FanInSources(successors, incoming["t"], "t") && "b" in FanInSources(successors, incoming["t"], "t")
  {
    CollidingLeads("a", "t");
    CollidingLeads("b", "t");
    assert "a" in Successors(incoming, "t") && "b" in Successors(incoming, "t");
    NeitherFirst(successors, incoming, "a", "b");
    NeitherFirst(successors, incoming, "b", "a");
    assert Incomparable(successors, "a", "b", "t") && Incomparable(successors, "b", "a", "t");
  }

  lemma EntryReaches(successors: Adjacency, incoming: Adjacency, branch: string)
    requires Adjacent(Colliding(), successors, incoming) && branch in {"a", "b"}
    ensures Reaches(successors, "s", branch, "t")
  {
    CollidingLeads("s", branch);
    assert branch in Successors(successors, "s");
    assert Walk(successors, ["s", branch], "s", branch, "t");
  }

  lemma CollidingFansIn(successors: Adjacency, incoming: Adjacency, fanIn: Adjacency)
    requires Adjacent(Colliding(), successors, incoming)
    requires IsFanInMap(successors, Ids(Colliding()), incoming, fanIn)
    ensures "t" in fanIn
  {
    BranchesAreSources(successors, incoming);
    EntryReaches(successors, incoming, "a");
    EntryReaches(successors, incoming, "b");
    assert "s" in Ids(Colliding()) by {
      CollidingIds();
    }
    FanInIff(successors, Ids(Colliding()), incoming["t"], "t");
  }

  lemma NeitherFirst(successors: Adjacency, incoming: Adjacency, one: string, other: string)
    requires Adjacent(Colliding(), successors, incoming) && one in {"a", "b"} && other in {"a", "b"} && one != other
    ensures !Reaches(successors, one, other, "t")
  {
    forall v ensures v in Successors(successors, one) ==> v == "t" {
      CollidingLeads(one, v);
    }
    if p :| Walk(successors, p, one, other, "t") {
      ClosedHoldsReached(successors, {one, "t"}, p, one, other, "t");
    }
  }

  lemma CollidingIsWellFormed(successors: Adjacency, incoming: Adjacency, fanIn: Adjacency)
    requires Adjacent(Colliding(), successors, incoming)
    requires IsFanInMap(successors, Ids(Colliding()), incoming, fanIn)
    ensures WellFormed(Colliding(), fanIn)
  {
    CollidingIds();
    FanInTargetsAreNodes(Colliding(), successors, incoming, fanIn);
  }

  lemma OnlyOneFansIn(successors: Adjacency, incoming: Adjacency, fanIn: Adjacency, m: string)
    requires Adjacent(Colliding(), successors, incoming)
    requires IsFanInMap(successors, Ids(Colliding()), incoming, fanIn) && m in fanIn
    ensures m == "t"
  {
    MoreThanOne(fanIn[m]);
    var a, b :| a in fanIn[m] && b in fanIn[m] && a != b;
    assert a in Successors(incoming, m) && b in Successors(incoming, m);
    CollidingLeads(a, m);
    CollidingLeads(b, m);
  }

  /** What the guard's edge adds: a way from the node named like the guard to the target. */
  lemma CollidingEdges(fanIn: Adjacency, admit: Option<string>, graph: Graph)
    requires IsTranslation(Colliding(), fanIn, admit, graph) && "t" in fanIn && forall m <- fanIn :: m == "t"
    ensures (START, "s") in graph.edges && ("s", Guard("t")) in graph.edges && (Guard("t"), "t") in graph.edges
  {
    assert Rewrite(fanIn, admit, "s") == "s" && Rewrite(fanIn, admit, Guard("t")) == Guard("t");
    assert Colliding().edges[2] == ("s", Guard("t"));
    assert IsGraphEdge(Colliding(), fanIn, admit, START, "s");
    assert IsGraphEdge(Colliding(), fanIn, admit, "s", Guard("t"));
    assert IsGraphEdge(Colliding(), fanIn, admit, Guard("t"), "t");
  }

  lemma CollidingGains(successors: Adjacency, incoming: Adjacency, fanIn: Adjacency,
                       admit: Option<string>, graph: Graph, state: State)
    requires Adjacent(Colliding(), successors, incoming)
    requires IsFanInMap(successors, Ids(Colliding()), incoming, fanIn) && "t" in fanIn
    requires IsTranslation(Colliding(), fanIn, admit, graph)
    ensures ErasesTo(Colliding(), graph, [Visit("s", state), Visit(Guard("t"), state), Visit("t", state)])
  {
    forall m | m in fanIn ensures m == "t" {
      OnlyOneFansIn(successors, incoming, fanIn, m);
    }
    CollidingEdges(fanIn, admit, graph);
    CollidingIds();
    EdgesErase(graph, [Visit("s", state), Visit(Guard("t"), state), Visit("t", state)]);
  }

  lemma EdgesErase(graph: Graph, x: seq<Visit>)
    requires |x| == 3 && forall i :: 0 <= i < 3 ==> x[i].node in Ids(Colliding())
    requires (START, x[0].node) in graph.edges
    requires (x[0].node, x[1].node) in graph.edges && (x[1].node, x[2].node) in graph.edges
    ensures ErasesTo(Colliding(), graph, x)
  {
    assert IsGraphTrace(graph, x);
    EraseReal(Colliding(), x);
  }

  lemma {:induction false} EraseReal(ir: Ir, x: seq<Visit>)
    requires forall i :: 0 <= i < |x| ==> Real(ir, x[i].node)
    ensures Erase(ir, x) == x
  {
    if x != [] {
      EraseReal(ir, x[..|x| - 1]);
      assert x == x[..|x| - 1] + [x[|x| - 1]];
    }
  }

  lemma CollidingUnguarded(successors: Adjacency, incoming: Adjacency, fanIn: Adjacency)
    requires Adjacent(Colliding(), successors, incoming)
    requires IsFanInMap(successors, Ids(Colliding()), incoming, fanIn) && "t" in fanIn
    ensures IsUnguarded(Colliding(), fanIn, "t")
  {
    assert Guard("t") in Ids(Colliding()) by {
      CollidingIds();
    }
    forall s | s in fanIn ensures Guard(s) != "t" {
      OnlyOneFansIn(successors, incoming, fanIn, s);
    }
  }

  lemma CollidingMoves(state: State)
    ensures IsIrTrace(Colliding(), [Visit("s", state), Visit("a", state), Visit("t", state)])
    ensures !Moves(Colliding(), Guard("t"), state, "t")
    ensures !IsIrTrace(Colliding(), [Visit("s", state), Visit(Guard("t"), state), Visit("t", state)])
  {
    var edges := Colliding().edges;
    assert edges[0] == ("s", "a") && edges[3] == ("a", "t");
    var x := [Visit("s", state), Visit(Guard("t"), state), Visit("t", state)];
    assert !Moves(Colliding(), x[1].node, x[1].state, x[1 + 1].node);
  }

  lemma GuardMovesOnlyToEnd(fanIn: Adjacency, admit: Option<string>, state: State)
    requires "t" in fanIn
    ensures !MovesLikeGuard(Colliding(), fanIn, admit, "t", state)
  {
    forall m | Moves(Colliding(), Guard("t"), state, m) ensures m == END {
    }
    assert !Moves(Colliding(), Guard("t"), state, "t");
  }

  lemma NextReached(successors: Adjacency, incoming: Adjacency, n: string)
    requires Adjacent(Colliding(), successors, incoming) && n in {"a", "b", Guard("t")}
    ensures Reaches(successors, "s", n, n)
  {
    CollidingLeads("s", n);
    assert n in Successors(successors, "s");
    assert Walk(successors, ["s", n], "s", n, n);
  }

  lemma JoinReached(successors: Adjacency, incoming: Adjacency)
    requires Adjacent(Colliding(), successors, incoming)
    ensures Reaches(successors, "s", "t", "t")
  {
    CollidingLeads("s", "a");
    CollidingLeads("a", "t");
    assert "a" in Successors(successors, "s") && "t" in Successors(successors, "a");
    assert Walk(successors, ["s", "a", "t"], "s", "t", "t");
  }

  lemma CollidingReached(successors: Adjacency, incoming: Adjacency)
    requires Adjacent(Colliding(), successors, incoming)
    ensures AllReached(Colliding(), successors)
  {
    CollidingIds();
    ReachesSelf(successors, "s", "s");
    NextReached(successors, incoming, "a");
    NextReached(successors, incoming, "b");
    NextReached(successors, incoming, Guard("t"));
    JoinReached(successors, incoming);
  }

  /** The join is classified and the workflow is well-formed, but the traces that reach `t` through
      `a` are lost, and the graph goes on to `t` from the node named like the guard. */
  lemma CollidingLosesTraces(successors: Adjacency, incoming: Adjacency, fanIn: Adjacency,
                             admit: Option<string>, graph: Graph, state: State)
    requires Adjacent(Colliding(), successors, incoming)
    requires IsFanInMap(successors, Ids(Colliding()), incoming, fanIn)
    requires IsTranslation(Colliding(), fanIn, admit, graph)
    ensures "t" in fanIn && WellFormed(Colliding(), fanIn) && AllReached(Colliding(), successors)
    ensures var x := [Visit("s", state), Visit("a", state), Visit("t", state)];
      IsIrTrace(Colliding(), x) && !ErasesTo(Colliding(), graph, x)
    ensures var x := [Visit("s", state), Visit(Guard("t"), state), Visit("t", state)];
      !IsIrTrace(Colliding(), x) && ErasesTo(Colliding(), graph, x)
    ensures !MovesFaithfully(Colliding(), fanIn, admit, graph)
  {
    CollidingFansIn(successors, incoming, fanIn);
    CollidingReached(successors, incoming);
    CollidingIsWellFormed(successors, incoming, fanIn);
    CollidingUnguarded(successors, incoming, fanIn);
    CollidingMoves(state);
    EntryIsLost(Colliding(), fanIn, admit, graph, [Visit("s", state), Visit("a", state), Visit("t", state)], "t");
    CollidingGains(successors, incoming, fanIn, admit, graph, state);
    GuardMovesOnlyToEnd(fanIn, admit, state);
    MovesFaithfullyIff(Colliding(), fanIn, admit, graph);
  }
}
