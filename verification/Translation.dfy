/** `translate_ir`: the executable graph with its fan-in guards, revise-admit node and
    unknown-route nodes.  The theorems say that erasing those nodes gives back exactly the
    transitions of the workflow. */
module Translation {
  import opened Prelude
  import opened Json
  import opened WorkflowIr
  import opened Reachability

  const START := "__start__"
  const END := "__end__"
  const REVISE := "revise"
  const IR_DEFAULT_KEY := "__ir_default__"
  const UNKNOWN_ROUTE_PREFIX := "__workflow_unknown_route_"
  const REVISE_ADMIT := "__workflow_revise_admit"
  const GUARD_PREFIX := "__workflow_fanin_guard_"

  // ---- Fresh names ----

  function Numbered(prefix: string, i: nat): string {
    prefix + Decimal(i)
  }

  lemma NumberedInjective(prefix: string, i: nat, j: nat)
    requires Numbered(prefix, i) == Numbered(prefix, j)
    ensures i == j
  {
    assert Numbered(prefix, i)[|prefix|..] == Decimal(i);
    assert Numbered(prefix, j)[|prefix|..] == Decimal(j);
    DecimalInjective(i, j);
  }

  /** The names numbered from `first` up to `next`, all different. */
  ghost function Tried(prefix: string, first: nat, next: nat): (tried: set<string>)
    requires first <= next
    ensures |tried| == next - first
    ensures forall i :: first <= i < next ==> Numbered(prefix, i) in tried
    ensures forall name <- tried :: exists i :: first <= i < next && name == Numbered(prefix, i)
    decreases next - first
  {
    if first == next then {}
    else
      var before := Tried(prefix, first, next - 1);
      assert Numbered(prefix, next - 1) !in before by {
        if Numbered(prefix, next - 1) in before {
          var i :| first <= i < next - 1 && Numbered(prefix, next - 1) == Numbered(prefix, i);
          NumberedInjective(prefix, next - 1, i);
        }
      }
      before + {Numbered(prefix, next - 1)}
  }

  lemma SubsetAtMost<T>(a: set<T>, b: set<T>)
    requires a <= b
    ensures |a| <= |b|
  {
    assert b == a + (b - a);
  }

  /** Searching numbered names among finitely many taken ones must end. */
  lemma SearchMustEnd(prefix: string, taken: set<string>, first: nat, next: nat)
    requires first <= next && forall i :: first <= i < next ==> Numbered(prefix, i) in taken
    ensures next - first <= |taken|
  {
    SubsetAtMost(Tried(prefix, first, next), taken);
  }

  /** `unused_node_id`: the preferred name if it is free, else the first numbered one that is. */
  method UnusedNodeId(ids: set<string>, preferred: string) returns (name: string)
    ensures name !in ids
    ensures name == preferred || exists i :: IsFirstFree(preferred + "_", ids, 0, i, name)
  {
    if preferred !in ids {
      return preferred;
    }
    var index := 0;
    while true
      invariant forall i :: 0 <= i < index ==> Numbered(preferred + "_", i) in ids
      decreases |ids| - index
    {
      SearchMustEnd(preferred + "_", ids, 0, index);
      name := Numbered(preferred + "_", index);
      if name !in ids {
        assert IsFirstFree(preferred + "_", ids, 0, index, name);
        return;
      }
      assert forall i :: 0 <= i < index + 1 ==> Numbered(preferred + "_", i) in ids;
      index := index + 1;
      SearchMustEnd(preferred + "_", ids, 0, index);
    }
  }

  predicate IsFirstFree(prefix: string, taken: set<string>, first: nat, i: nat, name: string) {
    && first <= i && name == Numbered(prefix, i) && name !in taken
    && forall j :: first <= j < i ==> Numbered(prefix, j) in taken
  }

  /** The loop that names an unknown-route node; the index runs on over all routes. */
  method UnknownRouteName(ids: set<string>, keys: set<string>, first: nat) returns (name: string, next: nat)
    ensures next > first && IsFirstFree(UNKNOWN_ROUTE_PREFIX, ids + keys, first, next - 1, name)
  {
    next := first;
    while true
      invariant first <= next
      invariant forall i :: first <= i < next ==> Numbered(UNKNOWN_ROUTE_PREFIX, i) in ids + keys
      decreases |ids + keys| - (next - first)
    {
      SearchMustEnd(UNKNOWN_ROUTE_PREFIX, ids + keys, first, next);
      name := Numbered(UNKNOWN_ROUTE_PREFIX, next);
      next := next + 1;
      if name !in ids && name !in keys {
        return;
      }
      SearchMustEnd(UNKNOWN_ROUTE_PREFIX, ids + keys, first, next);
    }
  }

  // ---- What the workflow does ----

  type State = map<string, Json>

  /** `route:n` decides when it is there, even when it is not a string; else `node:n`. */
  function Selected(state: State, n: string): Option<string> {
    if "route:" + n in state then AsStr(Some(state["route:" + n]))
    else if "node:" + n in state then AsStr(Some(state["node:" + n]))
    else None
  }

  function CaseTarget(cases: seq<Case>, key: string): Option<string> {
    if cases == [] then None
    else if cases[0].key == key then Some(cases[0].target)
    else CaseTarget(cases[1..], key)
  }

  /** The target of a route in a state; `None` is the unknown-route failure. */
  function Chosen(route: Route, state: State): Option<string> {
    match Selected(state, route.from)
    case None => route.default
    case Some(key) =>
      var target := CaseTarget(route.cases, key);
      if target.Some? then target else route.default
  }

  predicate IsTerminal(ir: Ir, n: string) {
    exists i :: 0 <= i < |ir.nodes| && ir.nodes[i].id == n && ir.nodes[i].kind.Terminal?
  }

  /** The workflow may go from `n` in this state to `m`. */
  predicate Moves(ir: Ir, n: string, state: State, m: string) {
    || (exists i :: 0 <= i < |ir.edges| && ir.edges[i] == (n, m))
    || (exists i :: 0 <= i < |ir.routes| && ir.routes[i].from == n && Chosen(ir.routes[i], state) == Some(m))
    || (IsTerminal(ir, n) && m == END)
  }

  /** A route from `n` has no case for the selector and no default. */
  predicate UnknownRoute(ir: Ir, n: string, state: State) {
    exists i :: 0 <= i < |ir.routes| && ir.routes[i].from == n && Chosen(ir.routes[i], state).None?
  }

  // ---- The graph ----

  datatype Conditional = Conditional(
    from: string, known: set<string>, hasDefault: bool, unknown: Option<string>, targets: seq<(string, string)>)

  /** Plain edges, conditional edges, and the unknown-route nodes with the routes they fail. */
  datatype Graph = Graph(edges: set<(string, string)>, conditionals: seq<Conditional>, unknownNodes: map<string, string>)

  /** The selector closure. */
  function SelectKey(c: Conditional, state: State): string {
    var key := Selected(state, c.from);
    if key.Some? && key.value in c.known then key.value
    else if c.hasDefault then IR_DEFAULT_KEY
    else if c.unknown.Some? then c.unknown.value
    else ""
  }

  /** A later entry for a key replaces an earlier one. */
  function Lookup(targets: seq<(string, string)>, key: string): Option<string> {
    if targets == [] then None
    else if targets[|targets| - 1].0 == key then Some(targets[|targets| - 1].1)
    else Lookup(targets[..|targets| - 1], key)
  }

  predicate GraphMoves(graph: Graph, n: string, state: State, m: string) {
    || (n, m) in graph.edges
    || (exists i :: 0 <= i < |graph.conditionals| && graph.conditionals[i].from == n
         && Lookup(graph.conditionals[i].targets, SelectKey(graph.conditionals[i], state)) == Some(m))
  }

  function Guard(target: string): string {
    GUARD_PREFIX + target
  }

  /** `rewrite_target`. */
  function Rewrite(fanIn: Adjacency, admit: Option<string>, target: string): string {
    if target in fanIn then Guard(target)
    else if target == REVISE && admit.Some? then admit.value
    else target
  }

  function AfterGuard(admit: Option<string>, target: string): string {
    if target == REVISE && admit.Some? then admit.value else target
  }

  predicate IsGraphEdge(ir: Ir, fanIn: Adjacency, admit: Option<string>, a: string, b: string) {
    || (a == START && b == Rewrite(fanIn, admit, ir.entry))
    || (exists i :: 0 <= i < |ir.edges| && ir.edges[i].0 == a && b == Rewrite(fanIn, admit, ir.edges[i].1))
    || (exists t <- fanIn :: a == Guard(t) && b == AfterGuard(admit, t))
    || (admit == Some(a) && b == REVISE)
    || (IsTerminal(ir, a) && b == END)
  }

  function CaseKeys(cases: seq<Case>): set<string> {
    set c <- cases :: c.key
  }

  function CaseEntries(fanIn: Adjacency, admit: Option<string>, cases: seq<Case>): seq<(string, string)> {
    seq(|cases|, i requires 0 <= i < |cases| => (cases[i].key, Rewrite(fanIn, admit, cases[i].target)))
  }

  /** The conditional edge of a route; `name` is its unknown-route node when it has no default. */
  function ConditionalFor(fanIn: Adjacency, admit: Option<string>, route: Route, name: string): Conditional {
    Conditional(
      route.from, CaseKeys(route.cases), route.default.Some?,
      if route.default.Some? then None else Some(name),
      CaseEntries(fanIn, admit, route.cases) +
      (if route.default.Some? then [(IR_DEFAULT_KEY, Rewrite(fanIn, admit, route.default.value))]
       else [(name, name)]))
  }

  ghost predicate IsUnknownName(name: string) {
    exists i :: name == Numbered(UNKNOWN_ROUTE_PREFIX, i)
  }

  ghost predicate IsAdmitName(name: string) {
    name == REVISE_ADMIT || exists i :: name == Numbered(REVISE_ADMIT + "_", i)
  }

  /** The conditional edge `c` and the node table serve this route. */
  ghost predicate Serves(fanIn: Adjacency, admit: Option<string>, route: Route, c: Conditional,
                         unknownNodes: map<string, string>) {
    && c == ConditionalFor(fanIn, admit, route, if c.unknown.Some? then c.unknown.value else "")
    && (route.default.None? ==>
          && c.unknown.value in unknownNodes && unknownNodes[c.unknown.value] == route.from
          && c.unknown.value !in CaseKeys(route.cases))
  }

  /** The graph is a translation: its edges are those required, each route has its conditional
      edge, and the unknown-route nodes are fresh and fail their own routes. */
  ghost predicate IsTranslation(ir: Ir, fanIn: Adjacency, admit: Option<string>, graph: Graph) {
    && (admit.Some? <==> REVISE in Ids(ir))
    && (admit.Some? ==> admit.value !in Ids(ir) && IsAdmitName(admit.value))
    && (forall a, b :: (a, b) in graph.edges <==> IsGraphEdge(ir, fanIn, admit, a, b))
    && |graph.conditionals| == |ir.routes|
    && (forall i :: 0 <= i < |ir.routes| ==>
          Serves(fanIn, admit, ir.routes[i], graph.conditionals[i], graph.unknownNodes))
    && (forall name <- graph.unknownNodes :: name !in Ids(ir) && IsUnknownName(name))
  }

  datatype TranslationError = MissingEntry(node: string) | UnknownTarget(from: string, target: string)

  predicate TargetsKnown(ir: Ir) {
    && ir.entry in Ids(ir)
    && (forall i :: 0 <= i < |ir.edges| ==> ir.edges[i].1 in Ids(ir))
    && (forall i :: 0 <= i < |ir.routes| ==> RouteTargets(ir.routes[i]) <= Ids(ir))
  }

  method CheckTargets(ir: Ir) returns (error: Option<TranslationError>)
    ensures error.None? <==> TargetsKnown(ir)
  {
    var ids := Ids(ir);
    if ir.entry !in ids {
      return Some(MissingEntry(ir.entry));
    }
    for i := 0 to |ir.edges|
      invariant forall j :: 0 <= j < i ==> ir.edges[j].1 in ids
    {
      if ir.edges[i].1 !in ids {
        return Some(UnknownTarget(ir.edges[i].0, ir.edges[i].1));
      }
    }
    for i := 0 to |ir.routes|
      invariant forall j :: 0 <= j < i ==> RouteTargets(ir.routes[j]) <= ids
    {
      var route := ir.routes[i];
      for k := 0 to |route.cases|
        invariant forall j :: 0 <= j < k ==> route.cases[j].target in ids
      {
        if route.cases[k].target !in ids {
          assert route.cases[k].target in RouteTargets(route);
          return Some(UnknownTarget(route.from, route.cases[k].target));
        }
      }
      if route.default.Some? && route.default.value !in ids {
        assert route.default.value in RouteTargets(route);
        return Some(UnknownTarget(route.from, route.default.value));
      }
    }
    error := None;
  }

  // ---- Building the graph ----

  predicate IsAuthored(ir: Ir, fanIn: Adjacency, admit: Option<string>, a: string, b: string, n: nat)
    requires n <= |ir.edges|
  {
    exists j :: 0 <= j < n && ir.edges[j].0 == a && b == Rewrite(fanIn, admit, ir.edges[j].1)
  }

  method AddAuthored(ir: Ir, fanIn: Adjacency, admit: Option<string>, base: set<(string, string)>)
    returns (edges: set<(string, string)>)
    ensures forall a, b :: (a, b) in edges <==> (a, b) in base || IsAuthored(ir, fanIn, admit, a, b, |ir.edges|)
  {
    edges := base;
    for i := 0 to |ir.edges|
      invariant forall a, b :: (a, b) in edges <==> (a, b) in base || IsAuthored(ir, fanIn, admit, a, b, i)
    {
      edges := edges + {(ir.edges[i].0, Rewrite(fanIn, admit, ir.edges[i].1))};
    }
  }

  predicate IsGuardEdge(fanIn: Adjacency, admit: Option<string>, a: string, b: string) {
    exists t <- fanIn :: a == Guard(t) && b == AfterGuard(admit, t)
  }

  method AddGuards(fanIn: Adjacency, admit: Option<string>, base: set<(string, string)>)
    returns (edges: set<(string, string)>)
    ensures forall a, b :: (a, b) in edges <==> (a, b) in base || IsGuardEdge(fanIn, admit, a, b)
  {
    edges := base;
    var remaining, done: Adjacency := fanIn.Keys, map[];
    while remaining != {}
      invariant remaining <= fanIn.Keys
      invariant forall t :: t in done <==> t in fanIn && t !in remaining
      invariant forall a, b :: (a, b) in edges <==> (a, b) in base || IsGuardEdge(done, admit, a, b)
      decreases |remaining|
    {
      var target :| target in remaining;
      edges := edges + {(Guard(target), AfterGuard(admit, target))};
      remaining, done := remaining - {target}, done[target := fanIn[target]];
    }
  }

  method AddTerminals(ir: Ir, base: set<(string, string)>) returns (edges: set<(string, string)>)
    ensures forall a, b :: (a, b) in edges <==> (a, b) in base || (IsTerminal(ir, a) && b == END)
  {
    edges := base;
    for i := 0 to |ir.nodes|
      invariant forall e <- edges :: e in base || (IsTerminal(ir, e.0) && e.1 == END)
      invariant base <= edges
      invariant forall j :: 0 <= j < i && ir.nodes[j].kind.Terminal? ==> (ir.nodes[j].id, END) in edges
    {
      if ir.nodes[i].kind.Terminal? {
        edges := edges + {(ir.nodes[i].id, END)};
      }
    }
  }

  /** Plain edges, in the order the source adds them. */
  method BuildEdges(ir: Ir, fanIn: Adjacency, admit: Option<string>) returns (edges: set<(string, string)>)
    ensures forall a, b :: (a, b) in edges <==> IsGraphEdge(ir, fanIn, admit, a, b)
  {
    edges := if admit.Some? then {(admit.value, REVISE)} else {};
    edges := edges + {(START, Rewrite(fanIn, admit, ir.entry))};
    edges := AddAuthored(ir, fanIn, admit, edges);
    edges := AddGuards(fanIn, admit, edges);
    edges := AddTerminals(ir, edges);
  }

  method BuildConditional(fanIn: Adjacency, admit: Option<string>, route: Route, ids: set<string>, first: nat)
    returns (c: Conditional, name: string, next: nat)
    ensures first <= next && c == ConditionalFor(fanIn, admit, route, name)
    ensures route.default.None? ==>
      next > first && IsFirstFree(UNKNOWN_ROUTE_PREFIX, ids + CaseKeys(route.cases), first, next - 1, name)
  {
    var keys := CaseKeys(route.cases);
    name, next := "", first;
    if route.default.None? {
      name, next := UnknownRouteName(ids, keys, first);
    }
    var targets := [];
    for i := 0 to |route.cases|
      invariant targets == CaseEntries(fanIn, admit, route.cases[..i])
    {
      targets := targets + [(route.cases[i].key, Rewrite(fanIn, admit, route.cases[i].target))];
    }
    assert route.cases[..|route.cases|] == route.cases;
    if route.default.Some? {
      targets := targets + [(IR_DEFAULT_KEY, Rewrite(fanIn, admit, route.default.value))];
    } else {
      targets := targets + [(name, name)];
    }
    c := Conditional(route.from, keys, route.default.Some?, if route.default.Some? then None else Some(name), targets);
  }

  /** The names given out so far are numbered below `next`. */
  ghost predicate NamedBelow(unknownNodes: map<string, string>, ids: set<string>, next: nat) {
    forall name <- unknownNodes :: name !in ids && exists k :: 0 <= k < next && name == Numbered(UNKNOWN_ROUTE_PREFIX, k)
  }

  lemma NotNamedYet(unknownNodes: map<string, string>, ids: set<string>, next: nat, k: nat)
    requires NamedBelow(unknownNodes, ids, next) && next <= k
    ensures Numbered(UNKNOWN_ROUTE_PREFIX, k) !in unknownNodes
  {
    if Numbered(UNKNOWN_ROUTE_PREFIX, k) in unknownNodes {
      var j :| 0 <= j < next && Numbered(UNKNOWN_ROUTE_PREFIX, k) == Numbered(UNKNOWN_ROUTE_PREFIX, j);
      NumberedInjective(UNKNOWN_ROUTE_PREFIX, k, j);
    }
  }

  method BuildConditionals(ir: Ir, fanIn: Adjacency, admit: Option<string>)
    returns (conditionals: seq<Conditional>, unknownNodes: map<string, string>)
    ensures |conditionals| == |ir.routes|
    ensures forall i :: 0 <= i < |ir.routes| ==> Serves(fanIn, admit, ir.routes[i], conditionals[i], unknownNodes)
    ensures exists n :: NamedBelow(unknownNodes, Ids(ir), n)
  {
    var ids := Ids(ir);
    conditionals, unknownNodes := [], map[];
    var index := 0;
    for i := 0 to |ir.routes|
      invariant |conditionals| == i
      invariant forall j :: 0 <= j < i ==> Serves(fanIn, admit, ir.routes[j], conditionals[j], unknownNodes)
      invariant NamedBelow(unknownNodes, ids, index)
    {
      var route := ir.routes[i];
      var c, name, next := BuildConditional(fanIn, admit, route, ids, index);
      if route.default.None? {
        NotNamedYet(unknownNodes, ids, index, next - 1);
        ghost var before := unknownNodes;
        unknownNodes := unknownNodes[name := route.from];
        assert forall j :: 0 <= j < i ==> Serves(fanIn, admit, ir.routes[j], conditionals[j], before);
      }
      conditionals := conditionals + [c];
      index := next;
    }
    assert NamedBelow(unknownNodes, ids, index);
  }

  /** The part of `translate_ir` that makes the control graph. */
  method Translate(ir: Ir, fanIn: Adjacency) returns (r: Result<Graph, TranslationError>, admit: Option<string>)
    ensures r.Ok? <==> TargetsKnown(ir)
    ensures r.Ok? ==> IsTranslation(ir, fanIn, admit, r.value)
  {
    admit := None;
    var error := CheckTargets(ir);
    if error.Some? {
      return Err(error.value), None;
    }
    var ids := Ids(ir);
    if REVISE in ids {
      var name := UnusedNodeId(ids, REVISE_ADMIT);
      admit := Some(name);
    }
    var edges := BuildEdges(ir, fanIn, admit);
    var conditionals, unknownNodes := BuildConditionals(ir, fanIn, admit);
    r := Ok(Graph(edges, conditionals, unknownNodes));
  }
}
