/** The workflow graph as translation sees it. */
module WorkflowIr {
  import opened Prelude

  datatype NodeKind = Agent | Terminal | Other

  datatype Node = Node(id: string, kind: NodeKind)

  datatype Case = Case(key: string, target: string)

  datatype Route = Route(from: string, cases: seq<Case>, default: Option<string>)

  datatype Ir = Ir(nodes: seq<Node>, entry: string, edges: seq<(string, string)>, routes: seq<Route>)

  function Ids(ir: Ir): set<string> {
    set n <- ir.nodes :: n.id
  }

  /** What a route may lead to. */
  function RouteTargets(route: Route): set<string> {
    (set c <- route.cases :: c.target) + (if route.default.Some? then {route.default.value} else {})
  }

  /** An edge of the workflow: an authored edge, or a case or default of a route. */
  predicate Leads(ir: Ir, from: string, to: string) {
    (from, to) in ir.edges || exists r <- ir.routes :: r.from == from && to in RouteTargets(r)
  }
}
