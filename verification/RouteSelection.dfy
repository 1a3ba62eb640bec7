/** Which state entry selects a route: `route:n` where it is there, even when it is no string, and
    `node:n` only where it is not. */
module RouteSelection {
  import opened Prelude
  import opened Json
  import opened WorkflowIr
  import opened Reachability
  import opened Translation
  import opened TranslationMeaning

  /** The two states differ at most in this entry. */
  ghost predicate SameBut(state: State, other: State, entry: string) {
    forall k :: k != entry ==>
      (k in state <==> k in other) && (k in state && k in other ==> state[k] == other[k])
  }

  lemma EntriesDiffer(n: string)
    ensures "route:" + n != "node:" + n
  {
    assert ("route:" + n)[0] == 'r' && ("node:" + n)[0] == 'n';
  }

  lemma SameRouteEntry(state: State, other: State, n: string)
    requires "route:" + n in state && SameBut(state, other, "node:" + n)
    ensures "route:" + n in other && other["route:" + n] == state["route:" + n]
  {
    EntriesDiffer(n);
  }

  /** With an entry `route:n`, adding, changing or removing `node:n` changes no move from `n`: neither
      of the workflow, nor of any graph. */
  lemma NodeEntryIgnored(ir: Ir, graph: Graph, n: string, state: State, other: State, m: string)
    requires "route:" + n in state && SameBut(state, other, "node:" + n)
    ensures Moves(ir, n, state, m) <==> Moves(ir, n, other, m)
    ensures UnknownRoute(ir, n, state) <==> UnknownRoute(ir, n, other)
    ensures GraphMoves(graph, n, state, m) <==> GraphMoves(graph, n, other, m)
  {
    SameRouteEntry(state, other, n);
  }

  /** The node's one way on is this route. */
  predicate OnlyRoute(ir: Ir, fanIn: Adjacency, i: nat) {
    && i < |ir.routes|
    && (forall j :: 0 <= j < |ir.edges| ==> ir.edges[j].0 != ir.routes[i].from)
    && (forall j :: 0 <= j < |ir.routes| && j != i ==> ir.routes[j].from != ir.routes[i].from)
    && !IsTerminal(ir, ir.routes[i].from)
    && (forall t <- fanIn :: Guard(t) != ir.routes[i].from)
  }

  /** The entry that is looked at: `route:n`, or `node:n` in its absence. */
  predicate LooksAt(state: State, n: string, entry: string) {
    && entry in state
    && (entry == "route:" + n || (entry == "node:" + n && "route:" + n !in state))
  }

  /** The node goes on to `m`, and nowhere else; so does the graph, to where `m` is entered. */
  ghost predicate GoesOnlyTo(ir: Ir, fanIn: Adjacency, admit: Option<string>, graph: Graph, n: string, state: State, m: string) {
    && (forall x :: Moves(ir, n, state, x) <==> x == m)
    && !UnknownRoute(ir, n, state)
    && (forall x :: GraphMoves(graph, n, state, x) <==> x == Rewrite(fanIn, admit, m))
  }

  /** The node goes nowhere, and the graph to a node that reports the failure of its route. */
  ghost predicate FailsOnly(ir: Ir, graph: Graph, n: string, state: State) {
    && (forall x :: !Moves(ir, n, state, x))
    && UnknownRoute(ir, n, state)
    && exists name :: name in graph.unknownNodes && graph.unknownNodes[name] == n
         && forall x :: GraphMoves(graph, n, state, x) <==> x == name
  }

  /** Without a selected case the default is taken, or the route fails. */
  ghost predicate FallsBack(ir: Ir, fanIn: Adjacency, admit: Option<string>, graph: Graph, i: nat, state: State)
    requires i < |ir.routes|
  {
    match ir.routes[i].default
    case Some(m) => GoesOnlyTo(ir, fanIn, admit, graph, ir.routes[i].from, state, m)
    case None => FailsOnly(ir, graph, ir.routes[i].from, state)
  }

  lemma ChosenGoes(ir: Ir, fanIn: Adjacency, admit: Option<string>, graph: Graph, i: nat, state: State, m: string)
    requires WellFormed(ir, fanIn) && IsTranslation(ir, fanIn, admit, graph) && OnlyRoute(ir, fanIn, i)
    requires Chosen(ir.routes[i], state) == Some(m)
    ensures GoesOnlyTo(ir, fanIn, admit, graph, ir.routes[i].from, state, m)
  {
    var n := ir.routes[i].from;
    assert forall x :: Moves(ir, n, state, x) <==> x == m;
    assert !UnknownRoute(ir, n, state);
    forall x ensures GraphMoves(graph, n, state, x) <==> x == Rewrite(fanIn, admit, m) {
      MovesExactly(ir, fanIn, admit, graph, n, state, x);
      if x == Rewrite(fanIn, admit, m) {
        MoveTranslates(ir, fanIn, admit, graph, n, state, m);
      }
    }
  }

  /** Nothing chosen, nowhere to go. */
  lemma NoMove(ir: Ir, fanIn: Adjacency, i: nat, state: State, x: string)
    requires OnlyRoute(ir, fanIn, i) && Chosen(ir.routes[i], state).None?
    ensures !Moves(ir, ir.routes[i].from, state, x)
  {
  }

  /** The only translated move is to the node that fails the route. */
  lemma OnlyFailure(ir: Ir, fanIn: Adjacency, admit: Option<string>, graph: Graph, i: nat, state: State, x: string)
    requires OnlyRoute(ir, fanIn, i) && Chosen(ir.routes[i], state).None? && |graph.conditionals| == |ir.routes|
    ensures Translated(ir, fanIn, admit, graph, ir.routes[i].from, state, x) <==>
      graph.conditionals[i].unknown == Some(x)
  {
    forall m ensures !Moves(ir, ir.routes[i].from, state, m) {
      NoMove(ir, fanIn, i, state, m);
    }
  }

  lemma NoGuardEdge(ir: Ir, fanIn: Adjacency, admit: Option<string>, i: nat, x: string)
    requires OnlyRoute(ir, fanIn, i)
    ensures !IsGuardEdge(fanIn, admit, ir.routes[i].from, x)
  {
  }

  lemma NothingChosenFails(ir: Ir, fanIn: Adjacency, admit: Option<string>, graph: Graph, i: nat, state: State)
    requires WellFormed(ir, fanIn) && IsTranslation(ir, fanIn, admit, graph) && OnlyRoute(ir, fanIn, i)
    requires Chosen(ir.routes[i], state).None?
    ensures FailsOnly(ir, graph, ir.routes[i].from, state)
  {
    var n := ir.routes[i].from;
    assert Serves(fanIn, admit, ir.routes[i], graph.conditionals[i], graph.unknownNodes);
    var name := graph.conditionals[i].unknown.value;
    assert name in graph.unknownNodes && graph.unknownNodes[name] == n;
    assert UnknownRoute(ir, n, state);
    forall x ensures !Moves(ir, n, state, x) {
      NoMove(ir, fanIn, i, state, x);
    }
    forall x ensures GraphMoves(graph, n, state, x) <==> x == name {
      MovesExactly(ir, fanIn, admit, graph, n, state, x);
      OnlyFailure(ir, fanIn, admit, graph, i, state, x);
      NoGuardEdge(ir, fanIn, admit, i, x);
    }
  }

  /** The entry that is looked at selects its case, if it is a string that is the key of one;
      otherwise the route falls back. */
  lemma EntryDecides(ir: Ir, fanIn: Adjacency, admit: Option<string>, graph: Graph, i: nat, state: State, entry: string)
    requires WellFormed(ir, fanIn) && IsTranslation(ir, fanIn, admit, graph) && OnlyRoute(ir, fanIn, i)
    requires LooksAt(state, ir.routes[i].from, entry)
    ensures forall c <- ir.routes[i].cases :: state[entry] == Str(c.key) ==>
      GoesOnlyTo(ir, fanIn, admit, graph, ir.routes[i].from, state, c.target)
    ensures (forall c <- ir.routes[i].cases :: state[entry] != Str(c.key)) ==>
      FallsBack(ir, fanIn, admit, graph, i, state)
  {
    var route := ir.routes[i];
    EntriesDiffer(route.from);
    forall c | c in route.cases && state[entry] == Str(c.key)
      ensures GoesOnlyTo(ir, fanIn, admit, graph, route.from, state, c.target)
    {
      var k :| 0 <= k < |route.cases| && route.cases[k] == c;
      CaseTargetAt(route.cases, k);
      ChosenGoes(ir, fanIn, admit, graph, i, state, c.target);
    }
    if forall c <- route.cases :: state[entry] != Str(c.key) {
      NoCase(route, state, entry);
      Falls(ir, fanIn, admit, graph, i, state);
    }
  }

  lemma NoCase(route: Route, state: State, entry: string)
    requires LooksAt(state, route.from, entry) && forall c <- route.cases :: state[entry] != Str(c.key)
    ensures Chosen(route, state) == route.default
  {
    EntriesDiffer(route.from);
    if state[entry].Str? {
      forall k | 0 <= k < |route.cases| ensures route.cases[k].key != state[entry].s {
        assert route.cases[k] in route.cases;
      }
      CaseTargetMissing(route.cases, state[entry].s);
    }
  }

  lemma Falls(ir: Ir, fanIn: Adjacency, admit: Option<string>, graph: Graph, i: nat, state: State)
    requires WellFormed(ir, fanIn) && IsTranslation(ir, fanIn, admit, graph) && OnlyRoute(ir, fanIn, i)
    requires Chosen(ir.routes[i], state) == ir.routes[i].default
    ensures FallsBack(ir, fanIn, admit, graph, i, state)
  {
    match ir.routes[i].default {
      case Some(m) => ChosenGoes(ir, fanIn, admit, graph, i, state, m);
      case None => NothingChosenFails(ir, fanIn, admit, graph, i, state);
    }
  }

  /** And with neither entry it falls back as well. */
  lemma NoEntryFallsBack(ir: Ir, fanIn: Adjacency, admit: Option<string>, graph: Graph, i: nat, state: State)
    requires WellFormed(ir, fanIn) && IsTranslation(ir, fanIn, admit, graph) && OnlyRoute(ir, fanIn, i)
    requires "route:" + ir.routes[i].from !in state && "node:" + ir.routes[i].from !in state
    ensures FallsBack(ir, fanIn, admit, graph, i, state)
  {
    Falls(ir, fanIn, admit, graph, i, state);
  }
}
