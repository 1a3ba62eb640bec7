/** Translation preserves meaning: with the nodes it inserts erased, the graph makes exactly the
    moves of the workflow, step by step and over whole traces. */
module TranslationMeaning {
  import opened Prelude
  import opened Json
  import opened WorkflowIr
  import opened Reachability
  import opened Translation

  // ---- Assumptions on the workflow ----

  predicate DistinctKeys(cases: seq<Case>) {
    forall i, j :: 0 <= i < j < |cases| ==> cases[i].key != cases[j].key
  }

  predicate ProperRoute(route: Route) {
    DistinctKeys(route.cases) && (route.default.Some? ==> IR_DEFAULT_KEY !in CaseKeys(route.cases))
  }

  /** What graph validation and case uniqueness give. */
  predicate WellFormed(ir: Ir, fanIn: Adjacency) {
    && TargetsKnown(ir)
    && START !in Ids(ir) && END !in Ids(ir)
    && (forall i :: 0 <= i < |ir.edges| ==> ir.edges[i].0 in Ids(ir))
    && (forall i :: 0 <= i < |ir.routes| ==> ir.routes[i].from in Ids(ir) && ProperRoute(ir.routes[i]))
    && fanIn.Keys <= Ids(ir)
  }

  /** No node is named like the guard of a fan-in target. */
  predicate NoGuardNames(ir: Ir, fanIn: Adjacency) {
    forall t <- fanIn :: Guard(t) !in Ids(ir)
  }

  predicate Proper(ir: Ir, fanIn: Adjacency) {
    WellFormed(ir, fanIn) && NoGuardNames(ir, fanIn)
  }

  /** The fan-in map of a workflow names only its nodes. */
  lemma FanInTargetsAreNodes(ir: Ir, successors: Adjacency, incoming: Adjacency, fanIn: Adjacency)
    requires TargetsKnown(ir) && Adjacent(ir, successors, incoming)
    requires IsFanInMap(successors, Ids(ir), incoming, fanIn)
    ensures fanIn.Keys <= Ids(ir)
  {
    forall t | t in fanIn ensures t in Ids(ir) {
      var from :| from in incoming[t];
      assert from in Successors(incoming, t);
      assert Leads(ir, from, t);
      if (from, t) !in ir.edges {
        var r :| r in ir.routes && r.from == from && t in RouteTargets(r);
        var i :| 0 <= i < |ir.routes| && ir.routes[i] == r;
        assert RouteTargets(ir.routes[i]) <= Ids(ir);
      }
    }
  }

  // ---- Inserted nodes ----

  /** A node of the workflow, or its end. */
  predicate Real(ir: Ir, n: string) {
    n in Ids(ir) || n == END
  }

  /** The workflow node that an inserted node stands before; every other name stands for itself. */
  function Aim(fanIn: Adjacency, admit: Option<string>, n: string): string {
    if GUARD_PREFIX <= n && n[|GUARD_PREFIX|..] in fanIn then n[|GUARD_PREFIX|..]
    else if admit == Some(n) then REVISE
    else n
  }

  /** The three kinds of inserted names differ from one another and from the end markers. */
  lemma Kinds(ir: Ir, fanIn: Adjacency, admit: Option<string>, graph: Graph, n: string)
    requires IsTranslation(ir, fanIn, admit, graph)
    ensures GUARD_PREFIX <= n ==> |n| > 11 && n[11] == 'f'
    ensures admit == Some(n) ==> |n| > 11 && n[11] == 'r'
    ensures n in graph.unknownNodes ==> |n| > 11 && n[11] == 'u'
    ensures n == START || n == END ==> |n| < 11
  {
    if admit == Some(n) && n != REVISE_ADMIT {
      var i :| n == Numbered(REVISE_ADMIT + "_", i);
    }
    if n in graph.unknownNodes {
      assert IsUnknownName(n);
      var i :| n == Numbered(UNKNOWN_ROUTE_PREFIX, i);
    }
  }

  lemma GuardStrips(t: string)
    ensures GUARD_PREFIX <= Guard(t) && Guard(t)[|GUARD_PREFIX|..] == t
  {
  }

  lemma PrefixedIsGuard(n: string)
    requires GUARD_PREFIX <= n
    ensures n == Guard(n[|GUARD_PREFIX|..])
  {
  }

  /** Rewriting a target is undone by aiming. */
  lemma AimRewrite(ir: Ir, fanIn: Adjacency, admit: Option<string>, graph: Graph, m: string)
    requires Proper(ir, fanIn) && IsTranslation(ir, fanIn, admit, graph) && Real(ir, m)
    ensures Aim(fanIn, admit, Rewrite(fanIn, admit, m)) == m
    ensures Aim(fanIn, admit, AfterGuard(admit, m)) == m
    ensures Aim(fanIn, admit, m) == m
  {
    Kinds(ir, fanIn, admit, graph, m);
    GuardStrips(m);
    if GUARD_PREFIX <= m {
      PrefixedIsGuard(m);
    }
    if admit.Some? {
      Kinds(ir, fanIn, admit, graph, admit.value);
    }
  }

  /** An unknown-route node aims nowhere else. */
  lemma UnknownIsItself(ir: Ir, fanIn: Adjacency, admit: Option<string>, graph: Graph, n: string)
    requires IsTranslation(ir, fanIn, admit, graph) && n in graph.unknownNodes
    ensures Aim(fanIn, admit, n) == n && !Real(ir, n)
  {
    Kinds(ir, fanIn, admit, graph, n);
  }

  // ---- Route selection ----

  lemma {:induction false} CaseTargetAt(cases: seq<Case>, i: nat)
    requires DistinctKeys(cases) && i < |cases|
    ensures CaseTarget(cases, cases[i].key) == Some(cases[i].target)
  {
    if i > 0 {
      CaseTargetAt(cases[1..], i - 1);
    }
  }

  lemma {:induction false} CaseTargetMissing(cases: seq<Case>, key: string)
    requires forall i :: 0 <= i < |cases| ==> cases[i].key != key
    ensures CaseTarget(cases, key) == None
  {
    if cases != [] {
      CaseTargetMissing(cases[1..], key);
    }
  }

  lemma {:induction false} LookupAt(targets: seq<(string, string)>, i: nat)
    requires i < |targets| && forall j :: i < j < |targets| ==> targets[j].0 != targets[i].0
    ensures Lookup(targets, targets[i].0) == Some(targets[i].1)
  {
    if i < |targets| - 1 {
      LookupAt(targets[..|targets| - 1], i);
    }
  }

  predicate Agrees(fanIn: Adjacency, admit: Option<string>, route: Route, name: string, state: State) {
    var c := ConditionalFor(fanIn, admit, route, name);
    Lookup(c.targets, SelectKey(c, state)) ==
      match Chosen(route, state)
      case Some(m) => Some(Rewrite(fanIn, admit, m))
      case None => Some(name)
  }

  /** The conditional edge leads to the chosen target, or to the node that fails. */
  lemma RouteAgrees(fanIn: Adjacency, admit: Option<string>, route: Route, name: string, state: State)
    requires ProperRoute(route) && (route.default.None? ==> name !in CaseKeys(route.cases))
    ensures Agrees(fanIn, admit, route, name, state)
  {
    var c := ConditionalFor(fanIn, admit, route, name);
    var key := Selected(state, route.from);
    if key.Some? && key.value in c.known {
      var i :| 0 <= i < |route.cases| && route.cases[i].key == key.value;
      CaseTargetAt(route.cases, i);
      assert c.targets[i] == (key.value, Rewrite(fanIn, admit, route.cases[i].target));
      forall j | i < j < |c.targets| ensures c.targets[j].0 != key.value {
        if j < |route.cases| {
          assert c.targets[j].0 == route.cases[j].key;
        }
      }
      LookupAt(c.targets, i);
    } else {
      if key.Some? {
        forall i | 0 <= i < |route.cases| ensures route.cases[i].key != key.value {
          assert route.cases[i].key in CaseKeys(route.cases);
        }
        CaseTargetMissing(route.cases, key.value);
      }
      LookupAt(c.targets, |route.cases|);
    }
  }

  /** A case may be keyed like the default only if it leads where the default does: otherwise
      selecting it takes the default's edge. */
  lemma DefaultKeyShadowsIff(fanIn: Adjacency, admit: Option<string>, route: Route, name: string, i: nat)
    requires DistinctKeys(route.cases) && route.default.Some?
    requires i < |route.cases| && route.cases[i].key == IR_DEFAULT_KEY
    ensures Agrees(fanIn, admit, route, name, map["route:" + route.from := Str(IR_DEFAULT_KEY)]) <==>
      Rewrite(fanIn, admit, route.cases[i].target) == Rewrite(fanIn, admit, route.default.value)
  {
    var c := ConditionalFor(fanIn, admit, route, name);
    var state: State := map["route:" + route.from := Str(IR_DEFAULT_KEY)];
    CaseTargetAt(route.cases, i);
    assert route.cases[i].key in c.known;
    LookupAt(c.targets, |route.cases|);
    assert c.targets[|route.cases|].0 == IR_DEFAULT_KEY;
    assert SelectKey(c, state) == IR_DEFAULT_KEY;
  }

  // ---- One move ----

  /** Every move of the workflow is a move of the graph to the rewritten target. */
  lemma MoveTranslates(ir: Ir, fanIn: Adjacency, admit: Option<string>, graph: Graph,
                       n: string, state: State, m: string)
    requires WellFormed(ir, fanIn) && IsTranslation(ir, fanIn, admit, graph)
    requires Moves(ir, n, state, m)
    ensures Real(ir, m) && GraphMoves(graph, n, state, Rewrite(fanIn, admit, m))
  {
    if i :| 0 <= i < |ir.edges| && ir.edges[i] == (n, m) {
      assert IsGraphEdge(ir, fanIn, admit, n, Rewrite(fanIn, admit, m));
    } else if IsTerminal(ir, n) && m == END {
      assert IsGraphEdge(ir, fanIn, admit, n, END);
    } else {
      var i :| 0 <= i < |ir.routes| && ir.routes[i].from == n && Chosen(ir.routes[i], state) == Some(m);
      var route, c := ir.routes[i], graph.conditionals[i];
      assert Serves(fanIn, admit, route, c, graph.unknownNodes);
      RouteAgrees(fanIn, admit, route, if c.unknown.Some? then c.unknown.value else "", state);
      ChosenIsTarget(route, state);
    }
  }

  lemma ChosenIsTarget(route: Route, state: State)
    requires Chosen(route, state).Some?
    ensures Chosen(route, state).value in RouteTargets(route)
  {
    var key := Selected(state, route.from);
    if key.Some? && CaseTarget(route.cases, key.value).Some? {
      CaseTargetListed(route.cases, key.value);
    }
  }

  lemma {:induction false} CaseTargetListed(cases: seq<Case>, key: string)
    requires CaseTarget(cases, key).Some?
    ensures exists c <- cases :: c.target == CaseTarget(cases, key).value
  {
    if cases[0].key != key {
      CaseTargetListed(cases[1..], key);
    } else {
      assert cases[0] in cases;
    }
  }

  /** The graph's way of making a move of the workflow, or of failing a route. */
  ghost predicate Translated(ir: Ir, fanIn: Adjacency, admit: Option<string>, graph: Graph,
                             n: string, state: State, x: string)
    requires |graph.conditionals| == |ir.routes|
  {
    || (exists m :: Real(ir, m) && x == Rewrite(fanIn, admit, m) && Moves(ir, n, state, m))
    || (exists i :: 0 <= i < |ir.routes| && ir.routes[i].from == n && Chosen(ir.routes[i], state).None?
          && graph.conditionals[i].unknown == Some(x))
  }

  /** The plain edges of a workflow node, which may be named like a guard. */
  lemma EdgeComesFrom(ir: Ir, fanIn: Adjacency, admit: Option<string>, graph: Graph, n: string, x: string, state: State)
    requires WellFormed(ir, fanIn) && IsTranslation(ir, fanIn, admit, graph)
    requires n in Ids(ir) && (n, x) in graph.edges
    ensures IsGuardEdge(fanIn, admit, n, x)
      || exists m :: Real(ir, m) && x == Rewrite(fanIn, admit, m) && Moves(ir, n, state, m)
  {
    assert IsGraphEdge(ir, fanIn, admit, n, x);
    if i :| 0 <= i < |ir.edges| && ir.edges[i].0 == n && x == Rewrite(fanIn, admit, ir.edges[i].1) {
      assert ir.edges[i] == (n, ir.edges[i].1);
      assert Moves(ir, n, state, ir.edges[i].1) && Real(ir, ir.edges[i].1);
    } else if IsTerminal(ir, n) && x == END {
      assert Real(ir, END) && END == Rewrite(fanIn, admit, END) && Moves(ir, n, state, END);
    }
  }

  lemma RouteComesFrom(ir: Ir, fanIn: Adjacency, admit: Option<string>, graph: Graph, i: nat, state: State, x: string)
    requires WellFormed(ir, fanIn) && IsTranslation(ir, fanIn, admit, graph) && i < |ir.routes|
    requires Lookup(graph.conditionals[i].targets, SelectKey(graph.conditionals[i], state)) == Some(x)
    ensures match Chosen(ir.routes[i], state)
      case None => graph.conditionals[i].unknown == Some(x)
      case Some(m) => Real(ir, m) && x == Rewrite(fanIn, admit, m) && Moves(ir, ir.routes[i].from, state, m)
  {
    var route, c := ir.routes[i], graph.conditionals[i];
    assert Serves(fanIn, admit, route, c, graph.unknownNodes);
    RouteAgrees(fanIn, admit, route, if c.unknown.Some? then c.unknown.value else "", state);
    if Chosen(route, state).Some? {
      ChosenIsTarget(route, state);
    }
  }

  lemma FailureTranslates(ir: Ir, fanIn: Adjacency, admit: Option<string>, graph: Graph, i: nat, state: State)
    requires WellFormed(ir, fanIn) && IsTranslation(ir, fanIn, admit, graph) && i < |ir.routes|
    requires Chosen(ir.routes[i], state).None?
    ensures graph.conditionals[i].unknown.Some?
    ensures GraphMoves(graph, ir.routes[i].from, state, graph.conditionals[i].unknown.value)
  {
    var route, c := ir.routes[i], graph.conditionals[i];
    assert Serves(fanIn, admit, route, c, graph.unknownNodes);
    assert route.default.None?;
    RouteAgrees(fanIn, admit, route, c.unknown.value, state);
  }

  lemma GraphMoveTranslates(ir: Ir, fanIn: Adjacency, admit: Option<string>, graph: Graph, n: string, state: State, x: string)
    requires WellFormed(ir, fanIn) && IsTranslation(ir, fanIn, admit, graph) && n in Ids(ir)
    requires GraphMoves(graph, n, state, x)
    ensures Translated(ir, fanIn, admit, graph, n, state, x) || IsGuardEdge(fanIn, admit, n, x)
  {
    if (n, x) in graph.edges {
      EdgeComesFrom(ir, fanIn, admit, graph, n, x, state);
    } else {
      var i :| 0 <= i < |graph.conditionals| && graph.conditionals[i].from == n
        && Lookup(graph.conditionals[i].targets, SelectKey(graph.conditionals[i], state)) == Some(x);
      assert Serves(fanIn, admit, ir.routes[i], graph.conditionals[i], graph.unknownNodes);
      RouteComesFrom(ir, fanIn, admit, graph, i, state, x);
    }
  }

  lemma TranslatedMoves(ir: Ir, fanIn: Adjacency, admit: Option<string>, graph: Graph, n: string, state: State, x: string)
    requires WellFormed(ir, fanIn) && IsTranslation(ir, fanIn, admit, graph)
    requires Translated(ir, fanIn, admit, graph, n, state, x)
    ensures GraphMoves(graph, n, state, x)
  {
    if m :| Real(ir, m) && x == Rewrite(fanIn, admit, m) && Moves(ir, n, state, m) {
      MoveTranslates(ir, fanIn, admit, graph, n, state, m);
    } else {
      var i :| 0 <= i < |ir.routes| && ir.routes[i].from == n && Chosen(ir.routes[i], state).None?
        && graph.conditionals[i].unknown == Some(x);
      FailureTranslates(ir, fanIn, admit, graph, i, state);
    }
  }

  /** The moves of the graph from a workflow node are exactly the translated ones - and, if the node
      is named like a guard, the guard's. */
  lemma MovesExactly(ir: Ir, fanIn: Adjacency, admit: Option<string>, graph: Graph, n: string, state: State, x: string)
    requires WellFormed(ir, fanIn) && IsTranslation(ir, fanIn, admit, graph) && n in Ids(ir)
    ensures GraphMoves(graph, n, state, x) <==>
      Translated(ir, fanIn, admit, graph, n, state, x) || IsGuardEdge(fanIn, admit, n, x)
  {
    if GraphMoves(graph, n, state, x) {
      GraphMoveTranslates(ir, fanIn, admit, graph, n, state, x);
    }
    if Translated(ir, fanIn, admit, graph, n, state, x) {
      TranslatedMoves(ir, fanIn, admit, graph, n, state, x);
    }
    if IsGuardEdge(fanIn, admit, n, x) {
      assert IsGraphEdge(ir, fanIn, admit, n, x);
    }
  }

  /** Every move of the graph from a workflow node is a rewritten move of the workflow, or the
      failure of an unknown route of that node. */
  lemma MoveComesFrom(ir: Ir, fanIn: Adjacency, admit: Option<string>, graph: Graph,
                      n: string, state: State, x: string)
    requires Proper(ir, fanIn) && IsTranslation(ir, fanIn, admit, graph)
    requires n in Ids(ir) && GraphMoves(graph, n, state, x)
    ensures (x in graph.unknownNodes && graph.unknownNodes[x] == n && UnknownRoute(ir, n, state))
      || (Real(ir, Aim(fanIn, admit, x)) && x == Rewrite(fanIn, admit, Aim(fanIn, admit, x))
          && Moves(ir, n, state, Aim(fanIn, admit, x)))
  {
    MovesExactly(ir, fanIn, admit, graph, n, state, x);
    if m :| Real(ir, m) && x == Rewrite(fanIn, admit, m) && Moves(ir, n, state, m) {
      AimRewrite(ir, fanIn, admit, graph, m);
    } else {
      var i :| 0 <= i < |ir.routes| && ir.routes[i].from == n && Chosen(ir.routes[i], state).None?
        && graph.conditionals[i].unknown == Some(x);
      assert Serves(fanIn, admit, ir.routes[i], graph.conditionals[i], graph.unknownNodes);
    }
  }

  lemma TerminalIsNode(ir: Ir, n: string)
    ensures IsTerminal(ir, n) ==> n in Ids(ir)
  {
    if IsTerminal(ir, n) {
      var i :| 0 <= i < |ir.nodes| && ir.nodes[i].id == n && ir.nodes[i].kind.Terminal?;
      assert ir.nodes[i] in ir.nodes;
    }
  }

  /** An inserted node has one move, unconditional, towards what it stands before. */
  lemma InsertedMoves(ir: Ir, fanIn: Adjacency, admit: Option<string>, graph: Graph,
                      n: string, state: State, x: string)
    requires Proper(ir, fanIn) && IsTranslation(ir, fanIn, admit, graph)
    requires !Real(ir, n) && n != START
    ensures GraphMoves(graph, n, state, x) <==>
      || (exists t <- fanIn :: n == Guard(t) && x == AfterGuard(admit, t))
      || (admit == Some(n) && x == REVISE)
  {
    assert (n, x) in graph.edges <==> IsGraphEdge(ir, fanIn, admit, n, x);
    forall i | 0 <= i < |graph.conditionals| ensures graph.conditionals[i].from != n {
      assert Serves(fanIn, admit, ir.routes[i], graph.conditionals[i], graph.unknownNodes);
    }
    TerminalIsNode(ir, n);
  }

  /** So moving from an inserted node keeps the aim, and never leads to an unknown route. */
  lemma InsertedKeepsAim(ir: Ir, fanIn: Adjacency, admit: Option<string>, graph: Graph,
                         n: string, state: State, x: string)
    requires Proper(ir, fanIn) && IsTranslation(ir, fanIn, admit, graph)
    requires !Real(ir, n) && n != START && GraphMoves(graph, n, state, x)
    ensures n !in graph.unknownNodes
    ensures Aim(fanIn, admit, x) == Aim(fanIn, admit, n) && Real(ir, Aim(fanIn, admit, x))
    ensures Real(ir, x) ==> x == Aim(fanIn, admit, n)
    ensures x !in graph.unknownNodes
  {
    InsertedMoves(ir, fanIn, admit, graph, n, state, x);
    Kinds(ir, fanIn, admit, graph, n);
    if t :| t in fanIn && n == Guard(t) && x == AfterGuard(admit, t) {
      GuardStrips(t);
      AimRewrite(ir, fanIn, admit, graph, t);
    } else {
      AimRewrite(ir, fanIn, admit, graph, REVISE);
    }
    if Real(ir, x) {
      AimRewrite(ir, fanIn, admit, graph, x);
    }
    if x in graph.unknownNodes {
      UnknownIsItself(ir, fanIn, admit, graph, x);
    }
  }

  // ---- Traces ----

  datatype Visit = Visit(node: string, state: State)

  predicate IsIrTrace(ir: Ir, x: seq<Visit>) {
    && (x != [] ==> x[0].node == ir.entry)
    && forall i :: 0 <= i < |x| - 1 ==> Moves(ir, x[i].node, x[i].state, x[i + 1].node)
  }

  predicate IsGraphTrace(graph: Graph, t: seq<Visit>) {
    && (t != [] ==> (START, t[0].node) in graph.edges)
    && forall i :: 0 <= i < |t| - 1 ==> GraphMoves(graph, t[i].node, t[i].state, t[i + 1].node)
  }

  /** The visits of workflow nodes and of the end. */
  function Erase(ir: Ir, t: seq<Visit>): seq<Visit> {
    if t == [] then []
    else
      var front := Erase(ir, t[..|t| - 1]);
      if Real(ir, t[|t| - 1].node) then front + [t[|t| - 1]] else front
  }

  /** Some trace of the graph erases to this one. */
  ghost predicate ErasesTo(ir: Ir, graph: Graph, x: seq<Visit>) {
    exists t :: IsGraphTrace(graph, t) && Erase(ir, t) == x
  }

  /** `m` may come next after the trace. */
  predicate MayFollow(ir: Ir, x: seq<Visit>, m: string) {
    if x == [] then m == ir.entry else Moves(ir, x[|x| - 1].node, x[|x| - 1].state, m)
  }

  /** Where a graph trace stands: on an unknown-route node that fails the last real node's route,
      or on its way to a node the workflow allows next. */
  predicate Stands(ir: Ir, fanIn: Adjacency, admit: Option<string>, graph: Graph, x: seq<Visit>, n: string) {
    if n in graph.unknownNodes then
      x != [] && graph.unknownNodes[n] == x[|x| - 1].node && UnknownRoute(ir, x[|x| - 1].node, x[|x| - 1].state)
    else Real(ir, Aim(fanIn, admit, n)) && MayFollow(ir, x, Aim(fanIn, admit, n))
  }

  lemma StartStands(ir: Ir, fanIn: Adjacency, admit: Option<string>, graph: Graph, n: string)
    requires Proper(ir, fanIn) && IsTranslation(ir, fanIn, admit, graph) && (START, n) in graph.edges
    ensures Stands(ir, fanIn, admit, graph, [], n) && n == Rewrite(fanIn, admit, ir.entry)
  {
    assert IsGraphEdge(ir, fanIn, admit, START, n);
    Kinds(ir, fanIn, admit, graph, START);
    if t :| t in fanIn && START == Guard(t) {
      GuardStrips(t);
      assert false;
    }
    TerminalIsNode(ir, START);
    AimRewrite(ir, fanIn, admit, graph, ir.entry);
    if n in graph.unknownNodes {
      UnknownIsItself(ir, fanIn, admit, graph, n);
    }
  }

  lemma NextStands(ir: Ir, fanIn: Adjacency, admit: Option<string>, graph: Graph,
                   x: seq<Visit>, last: Visit, n: string)
    requires Proper(ir, fanIn) && IsTranslation(ir, fanIn, admit, graph)
    requires if Real(ir, last.node) then x != [] && x[|x| - 1] == last
             else last.node != START && Stands(ir, fanIn, admit, graph, x, last.node)
    requires last.node != END && GraphMoves(graph, last.node, last.state, n)
    ensures Stands(ir, fanIn, admit, graph, x, n)
  {
    if Real(ir, last.node) {
      MoveComesFrom(ir, fanIn, admit, graph, last.node, last.state, n);
      if n in graph.unknownNodes {
        UnknownIsItself(ir, fanIn, admit, graph, n);
      }
    } else {
      InsertedKeepsAim(ir, fanIn, admit, graph, last.node, last.state, n);
    }
  }

  lemma NothingAfterEnd(ir: Ir, fanIn: Adjacency, admit: Option<string>, graph: Graph, state: State, n: string)
    requires Proper(ir, fanIn) && IsTranslation(ir, fanIn, admit, graph)
    ensures !GraphMoves(graph, END, state, n)
  {
    assert (END, n) in graph.edges <==> IsGraphEdge(ir, fanIn, admit, END, n);
    Kinds(ir, fanIn, admit, graph, END);
    forall t | t in fanIn ensures END != Guard(t) {
      GuardStrips(t);
    }
    forall i | 0 <= i < |graph.conditionals| ensures graph.conditionals[i].from != END {
      assert Serves(fanIn, admit, ir.routes[i], graph.conditionals[i], graph.unknownNodes);
    }
    TerminalIsNode(ir, END);
  }

  lemma StartIsNotReached(ir: Ir, fanIn: Adjacency, admit: Option<string>, graph: Graph, x: seq<Visit>)
    requires Proper(ir, fanIn) && IsTranslation(ir, fanIn, admit, graph)
    ensures !Stands(ir, fanIn, admit, graph, x, START)
  {
    Kinds(ir, fanIn, admit, graph, START);
  }

  /** Where a trace stands after its last visit, given where it stood before. */
  predicate StandsAfter(ir: Ir, fanIn: Adjacency, admit: Option<string>, graph: Graph, x: seq<Visit>, last: Visit) {
    if Real(ir, last.node) then x != [] && x[|x| - 1] == last
    else Stands(ir, fanIn, admit, graph, x, last.node)
  }

  lemma OneVisitMore(ir: Ir, fanIn: Adjacency, admit: Option<string>, graph: Graph,
                     x: seq<Visit>, before: Visit, last: Visit)
    requires Proper(ir, fanIn) && IsTranslation(ir, fanIn, admit, graph)
    requires StandsAfter(ir, fanIn, admit, graph, x, before)
    requires GraphMoves(graph, before.node, before.state, last.node)
    ensures Stands(ir, fanIn, admit, graph, x, last.node)
  {
    NothingAfterEnd(ir, fanIn, admit, graph, before.state, last.node);
    StartIsNotReached(ir, fanIn, admit, graph, x);
    NextStands(ir, fanIn, admit, graph, x, before, last.node);
  }

  /** A real node that a trace stands on may be added to the erased trace. */
  lemma StandingMayFollow(ir: Ir, fanIn: Adjacency, admit: Option<string>, graph: Graph, x: seq<Visit>, last: Visit)
    requires Proper(ir, fanIn) && IsTranslation(ir, fanIn, admit, graph)
    requires IsIrTrace(ir, x) && Stands(ir, fanIn, admit, graph, x, last.node) && Real(ir, last.node)
    ensures IsIrTrace(ir, x + [last])
  {
    AimRewrite(ir, fanIn, admit, graph, last.node);
    if last.node in graph.unknownNodes {
      UnknownIsItself(ir, fanIn, admit, graph, last.node);
    }
  }

  /** Soundness: erasing the inserted nodes from any graph trace leaves a trace of the workflow,
      and the trace stands where the workflow allows. */
  lemma {:induction false} GraphTracesErase(ir: Ir, fanIn: Adjacency, admit: Option<string>, graph: Graph, t: seq<Visit>)
    requires Proper(ir, fanIn) && IsTranslation(ir, fanIn, admit, graph) && IsGraphTrace(graph, t)
    ensures IsIrTrace(ir, Erase(ir, t))
    ensures t != [] ==> StandsAfter(ir, fanIn, admit, graph, Erase(ir, t), t[|t| - 1])
  {
    if t != [] {
      var front, last := t[..|t| - 1], t[|t| - 1];
      GraphTracesErase(ir, fanIn, admit, graph, front);
      var x := Erase(ir, front);
      if front == [] {
        StartStands(ir, fanIn, admit, graph, last.node);
      } else {
        assert GraphMoves(graph, t[|t| - 2].node, t[|t| - 2].state, t[|t| - 2 + 1].node);
        OneVisitMore(ir, fanIn, admit, graph, x, front[|front| - 1], last);
      }
      if Real(ir, last.node) {
        StandingMayFollow(ir, fanIn, admit, graph, x, last);
      }
    }
  }

  /** The inserted nodes on the way to a workflow node: none, one or two. */
  function Via(fanIn: Adjacency, admit: Option<string>, m: string): seq<string> {
    (if m in fanIn then [Guard(m)] else []) + (if m == REVISE && admit.Some? then [admit.value] else [])
  }

  function Visits(nodes: seq<string>): seq<Visit> {
    seq(|nodes|, i requires 0 <= i < |nodes| => Visit(nodes[i], map[]))
  }

  /** The way to a workflow node: it starts at the rewritten target, each of its nodes moves to the
      next whatever the state, and all but the last are inserted. */
  lemma ViaIsTheWay(ir: Ir, fanIn: Adjacency, admit: Option<string>, graph: Graph, m: string)
    requires Proper(ir, fanIn) && IsTranslation(ir, fanIn, admit, graph) && Real(ir, m)
    ensures var way := Via(fanIn, admit, m) + [m];
            && |way| <= 3 && way[0] == Rewrite(fanIn, admit, m)
            && (forall i :: 0 <= i < |way| - 1 ==> !Real(ir, way[i]) && (way[i], way[i + 1]) in graph.edges)
  {
    var way := Via(fanIn, admit, m) + [m];
    Kinds(ir, fanIn, admit, graph, END);
    GuardStrips(m);
    forall i | 0 <= i < |way| - 1 ensures !Real(ir, way[i]) && (way[i], way[i + 1]) in graph.edges {
      if m in fanIn && i == 0 {
        assert IsGuardEdge(fanIn, admit, way[0], way[1]);
        assert IsGraphEdge(ir, fanIn, admit, way[i], way[i + 1]);
      } else {
        assert admit == Some(way[i]) && way[i + 1] == REVISE;
        Kinds(ir, fanIn, admit, graph, way[i]);
        assert IsGraphEdge(ir, fanIn, admit, way[i], way[i + 1]);
      }
    }
  }

  lemma {:induction false} EraseAppend(ir: Ir, t: seq<Visit>, nodes: seq<string>)
    requires forall i :: 0 <= i < |nodes| ==> !Real(ir, nodes[i])
    ensures Erase(ir, t + Visits(nodes)) == Erase(ir, t)
  {
    if nodes == [] {
      assert t + Visits(nodes) == t;
    } else {
      var front := nodes[..|nodes| - 1];
      EraseAppend(ir, t, front);
      assert (t + Visits(nodes))[..|t| + |nodes| - 1] == t + Visits(front);
    }
  }

  /** A trace goes on along a way whose links are all in the graph. */
  lemma Splice(graph: Graph, t: seq<Visit>, via: seq<string>, v: Visit)
    requires IsGraphTrace(graph, t)
    requires var way := via + [v.node];
      && (forall i :: 0 <= i < |way| - 1 ==> (way[i], way[i + 1]) in graph.edges)
      && (if t == [] then (START, way[0]) in graph.edges
          else GraphMoves(graph, t[|t| - 1].node, t[|t| - 1].state, way[0]))
    ensures IsGraphTrace(graph, t + Visits(via) + [v])
  {
    var way, longer := via + [v.node], t + Visits(via) + [v];
    assert forall i :: 0 <= i < |way| ==> longer[|t| + i].node == way[i];
    forall i | 0 <= i < |longer| - 1 ensures GraphMoves(graph, longer[i].node, longer[i].state, longer[i + 1].node) {
      if i < |t| - 1 {
        assert longer[i] == t[i] && longer[i + 1] == t[i + 1];
      } else if i == |t| - 1 {
        assert longer[|t| + 0].node == way[0];
      } else {
        assert longer[|t| + (i - |t|)].node == way[i - |t|] && longer[|t| + (i - |t| + 1)].node == way[i - |t| + 1];
      }
    }
    assert longer[|t| + 0].node == way[0];
  }

  /** One more workflow node on a graph trace, with its inserted nodes before it. */
  lemma Extend(ir: Ir, fanIn: Adjacency, admit: Option<string>, graph: Graph,
               t: seq<Visit>, v: Visit) returns (longer: seq<Visit>)
    requires Proper(ir, fanIn) && IsTranslation(ir, fanIn, admit, graph) && IsGraphTrace(graph, t)
    requires Real(ir, v.node)
    requires if t == [] then v.node == ir.entry
             else GraphMoves(graph, t[|t| - 1].node, t[|t| - 1].state, Rewrite(fanIn, admit, v.node))
    ensures IsGraphTrace(graph, longer) && Erase(ir, longer) == Erase(ir, t) + [v]
    ensures |longer| <= |t| + 3 && longer != [] && longer[|longer| - 1] == v
  {
    var via := Via(fanIn, admit, v.node);
    ViaIsTheWay(ir, fanIn, admit, graph, v.node);
    longer := t + Visits(via) + [v];
    if t == [] {
      assert IsGraphEdge(ir, fanIn, admit, START, (via + [v.node])[0]);
    }
    Splice(graph, t, via, v);
    forall i | 0 <= i < |via| ensures !Real(ir, via[i]) {
      assert (via + [v.node])[i] == via[i];
    }
    EraseAppend(ir, t, via);
    assert longer[..|longer| - 1] == t + Visits(via);
  }

  /** The last step of a workflow trace, as the graph makes it. */
  lemma LastStepTranslates(ir: Ir, fanIn: Adjacency, admit: Option<string>, graph: Graph, x: seq<Visit>)
    requires Proper(ir, fanIn) && IsTranslation(ir, fanIn, admit, graph) && IsIrTrace(ir, x) && x != []
    ensures Real(ir, x[|x| - 1].node)
    ensures if |x| == 1 then x[0].node == ir.entry
            else GraphMoves(graph, x[|x| - 2].node, x[|x| - 2].state, Rewrite(fanIn, admit, x[|x| - 1].node))
  {
    if |x| > 1 {
      assert x[|x| - 2 + 1] == x[|x| - 1];
      MoveTranslates(ir, fanIn, admit, graph, x[|x| - 2].node, x[|x| - 2].state, x[|x| - 1].node);
    }
  }

  /** `t` is a graph trace that erases to `x`, ends where it does, and is at most three times as
      long. */
  predicate Lifts(ir: Ir, graph: Graph, x: seq<Visit>, t: seq<Visit>) {
    && IsGraphTrace(graph, t) && Erase(ir, t) == x && |t| <= 3 * |x|
    && (if x == [] then t == [] else t != [] && t[|t| - 1] == x[|x| - 1])
  }

  lemma LiftMore(ir: Ir, fanIn: Adjacency, admit: Option<string>, graph: Graph,
                 front: seq<Visit>, v: Visit, t: seq<Visit>)
    returns (longer: seq<Visit>)
    requires Proper(ir, fanIn) && IsTranslation(ir, fanIn, admit, graph)
    requires Real(ir, v.node) && Lifts(ir, graph, front, t)
    requires if front == [] then v.node == ir.entry
             else GraphMoves(graph, front[|front| - 1].node, front[|front| - 1].state, Rewrite(fanIn, admit, v.node))
    ensures Lifts(ir, graph, front + [v], longer)
  {
    longer := Extend(ir, fanIn, admit, graph, t, v);
  }

  lemma LiftLast(ir: Ir, fanIn: Adjacency, admit: Option<string>, graph: Graph, x: seq<Visit>, t: seq<Visit>)
    returns (longer: seq<Visit>)
    requires Proper(ir, fanIn) && IsTranslation(ir, fanIn, admit, graph) && IsIrTrace(ir, x) && x != []
    requires Lifts(ir, graph, x[..|x| - 1], t)
    ensures Lifts(ir, graph, x, longer)
  {
    var front, last := x[..|x| - 1], x[|x| - 1];
    LastStepTranslates(ir, fanIn, admit, graph, x);
    assert front != [] ==> front[|front| - 1] == x[|x| - 2];
    longer := LiftMore(ir, fanIn, admit, graph, front, last, t);
    assert x == front + [last];
  }

  /** Completeness: every trace of the workflow lifts to a graph trace. */
  lemma {:induction false} IrTracesLift(ir: Ir, fanIn: Adjacency, admit: Option<string>, graph: Graph, x: seq<Visit>)
    returns (t: seq<Visit>)
    requires Proper(ir, fanIn) && IsTranslation(ir, fanIn, admit, graph) && IsIrTrace(ir, x)
    ensures Lifts(ir, graph, x, t)
  {
    if x == [] {
      t := [];
    } else {
      assert forall i :: 0 <= i < |x| - 2 ==> Moves(ir, x[i].node, x[i].state, x[i + 1].node);
      var before := IrTracesLift(ir, fanIn, admit, graph, x[..|x| - 1]);
      t := LiftLast(ir, fanIn, admit, graph, x, before);
    }
  }

  /** The traces of the workflow are exactly the erased traces of the graph. */
  lemma TranslationPreservesTraces(ir: Ir, fanIn: Adjacency, admit: Option<string>, graph: Graph, x: seq<Visit>)
    requires Proper(ir, fanIn) && IsTranslation(ir, fanIn, admit, graph)
    ensures IsIrTrace(ir, x) <==> ErasesTo(ir, graph, x)
  {
    if IsIrTrace(ir, x) {
      var t := IrTracesLift(ir, fanIn, admit, graph, x);
    }
    if t :| IsGraphTrace(graph, t) && Erase(ir, t) == x {
      GraphTracesErase(ir, fanIn, admit, graph, t);
    }
  }

  /** And a workflow node fails on an unknown route exactly when the graph moves on to a node that
      reports the failure of one of its routes. */
  lemma UnknownRouteIff(ir: Ir, fanIn: Adjacency, admit: Option<string>, graph: Graph, n: string, state: State)
    requires Proper(ir, fanIn) && IsTranslation(ir, fanIn, admit, graph) && n in Ids(ir)
    ensures UnknownRoute(ir, n, state) <==>
      exists x <- graph.unknownNodes :: graph.unknownNodes[x] == n && GraphMoves(graph, n, state, x)
  {
    if i :| 0 <= i < |ir.routes| && ir.routes[i].from == n && Chosen(ir.routes[i], state).None? {
      var route, c := ir.routes[i], graph.conditionals[i];
      assert Serves(fanIn, admit, route, c, graph.unknownNodes);
      assert route.default.None?;
      RouteAgrees(fanIn, admit, route, c.unknown.value, state);
      assert GraphMoves(graph, n, state, c.unknown.value);
    }
    if x :| x in graph.unknownNodes && graph.unknownNodes[x] == n && GraphMoves(graph, n, state, x) {
      MoveComesFrom(ir, fanIn, admit, graph, n, state, x);
      UnknownIsItself(ir, fanIn, admit, graph, x);
    }
  }

  /** From the workflow to its graph: adjacency, fan-in classification, then the graph itself. */
  method TranslateIr(ir: Ir) returns (r: Result<Graph, TranslationError>, fanIn: Adjacency, admit: Option<string>)
    ensures r.Ok? <==> TargetsKnown(ir)
    ensures exists successors, incoming ::
      Adjacent(ir, successors, incoming) && IsFanInMap(successors, Ids(ir), incoming, fanIn)
    ensures r.Ok? ==> fanIn.Keys <= Ids(ir) && IsTranslation(ir, fanIn, admit, r.value)
  {
    var successors, incoming := BuildAdjacency(ir);
    fanIn := ClassifyFanIn(successors, Ids(ir), incoming);
    r, admit := Translate(ir, fanIn);
    if r.Ok? {
      FanInTargetsAreNodes(ir, successors, incoming, fanIn);
    }
  }
}
