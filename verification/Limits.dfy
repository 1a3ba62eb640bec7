/** The limits all nodes of a run share: total tool calls, calls per tool, and output bytes. */
module Limits {
  import opened Prelude
  import opened Sums
  import opened LoopStates
  import opened LoopValidation
  import opened LoopControl

  type Nodes = map<string, LoopState>

  // ---- True totals ----

  /** One number per node. */
  function Each(nodes: Nodes, measure: LoopState -> nat): map<string, nat> {
    map n | n in nodes :: measure(nodes[n])
  }

  ghost function Total(nodes: Nodes, measure: LoopState -> nat): nat {
    Sum(Each(nodes, measure))
  }

  const CALLS: LoopState -> nat := (s: LoopState) => s.totalToolCalls
  const BYTES: LoopState -> nat := (s: LoopState) => s.toolOutputBytes

  function CallsOf(tool: string): LoopState -> nat {
    (s: LoopState) => CountOf(s.toolCalls, tool)
  }

  /** The states a limit check looks at: the candidate stands in for its node's state, and is not
      looked at when the node is not in the store yet. */
  function Counted(nodes: Nodes, node: string, candidate: LoopState): Nodes {
    if node in nodes then nodes[node := candidate] else nodes
  }

  lemma TotalSplit(nodes: Nodes, measure: LoopState -> nat, node: string)
    requires node in nodes
    ensures Total(nodes, measure) == measure(nodes[node]) + Total(nodes - {node}, measure)
  {
    SumSplit(Each(nodes, measure), node);
    assert Each(nodes, measure) - {node} == Each(nodes - {node}, measure);
  }

  lemma TotalUpdate(nodes: Nodes, measure: LoopState -> nat, node: string, s: LoopState)
    ensures Total(nodes[node := s], measure) == measure(s) + Total(nodes - {node}, measure)
  {
    TotalSplit(nodes[node := s], measure, node);
    assert nodes[node := s] - {node} == nodes - {node};
  }

  /** No node alone exceeds what all have together. */
  lemma OwnAtMostTotal(nodes: Nodes, measure: LoopState -> nat, node: string)
    requires node in nodes
    ensures measure(nodes[node]) <= Total(nodes, measure)
  {
    TotalSplit(nodes, measure, node);
  }

  // ---- The checks ----

  /** `u64` totals as the source folds them; the result does not depend on the order of nodes. */
  method SaturatingTotal(nodes: Nodes, measure: LoopState -> nat) returns (total: nat)
    ensures total == Min(Total(nodes, measure), U64_MAX)
  {
    total := 0;
    var remaining := nodes;
    while remaining != map[]
      invariant total <= U64_MAX
      invariant Min(total + Total(remaining, measure), U64_MAX) == Min(Total(nodes, measure), U64_MAX)
      decreases |remaining|
    {
      var n :| n in remaining;
      TotalSplit(remaining, measure, n);
      total := SaturatingAdd(total, measure(remaining[n]));
      remaining := remaining - {n};
    }
    assert Each(remaining, measure) == map[];
  }

  /** Adds the counts of one node to the running per-tool counts. */
  method AddCounts(perTool: map<string, nat>, counts: map<string, nat>) returns (next: map<string, nat>)
    requires forall tool :: CountOf(perTool, tool) <= U64_MAX
    ensures forall tool :: CountOf(next, tool) == SaturatingAdd(CountOf(perTool, tool), CountOf(counts, tool))
  {
    next := perTool;
    var remaining := counts;
    while remaining != map[]
      invariant forall tool :: tool in remaining ==> tool in counts && remaining[tool] == counts[tool]
      invariant forall tool ::
        CountOf(next, tool) == SaturatingAdd(CountOf(perTool, tool),
                                             if tool in remaining then 0 else CountOf(counts, tool))
      decreases |remaining|
    {
      var tool :| tool in remaining;
      next := next[tool := SaturatingAdd(CountOf(next, tool), remaining[tool])];
      remaining := remaining - {tool};
    }
  }

  /** The running count of a tool and the nodes still to come add up to its clamped total. */
  ghost predicate AddsUp(perTool: map<string, nat>, remaining: Nodes, nodes: Nodes, tool: string) {
    && CountOf(perTool, tool) <= U64_MAX
    && Min(CountOf(perTool, tool) + Total(remaining, CallsOf(tool)), U64_MAX) == Min(Total(nodes, CallsOf(tool)), U64_MAX)
  }

  lemma AddsUpStep(perTool: map<string, nat>, next: map<string, nat>, remaining: Nodes, nodes: Nodes, n: string, tool: string)
    requires AddsUp(perTool, remaining, nodes, tool) && n in remaining
    requires CountOf(next, tool) == SaturatingAdd(CountOf(perTool, tool), CountOf(remaining[n].toolCalls, tool))
    ensures AddsUp(next, remaining - {n}, nodes, tool)
  {
    TotalSplit(remaining, CallsOf(tool), n);
  }

  method PerTool(nodes: Nodes) returns (perTool: map<string, nat>)
    ensures forall tool :: CountOf(perTool, tool) == Min(Total(nodes, CallsOf(tool)), U64_MAX)
  {
    perTool := map[];
    var remaining := nodes;
    while remaining != map[]
      invariant forall tool :: AddsUp(perTool, remaining, nodes, tool)
      decreases |remaining|
    {
      var n :| n in remaining;
      assert forall tool :: AddsUp(perTool, remaining, nodes, tool) ==> CountOf(perTool, tool) <= U64_MAX;
      var next := AddCounts(perTool, remaining[n].toolCalls);
      forall tool ensures AddsUp(next, remaining - {n}, nodes, tool) {
        assert AddsUp(perTool, remaining, nodes, tool);
        AddsUpStep(perTool, next, remaining, nodes, n, tool);
      }
      perTool, remaining := next, remaining - {n};
    }
    forall tool ensures CountOf(perTool, tool) == Min(Total(nodes, CallsOf(tool)), U64_MAX) {
      assert AddsUp(perTool, remaining, nodes, tool);
      assert Each(remaining, CallsOf(tool)) == map[];
    }
  }

  ghost predicate SomeToolOver(nodes: Nodes, limit: nat) {
    exists tool: string :: Min(Total(nodes, CallsOf(tool)), U64_MAX) > limit
  }

  ghost function CallVerdict(nodes: Nodes, maxToolCalls: nat, maxCallsPerTool: nat): Option<Failure> {
    if Min(Total(nodes, CALLS), U64_MAX) > maxToolCalls then Some(TotalToolCallsLimit)
    else if SomeToolOver(nodes, maxCallsPerTool) then Some(ToolCallsPerToolLimit)
    else None
  }

  /** The decision of `tool_call_limit`. */
  method CheckToolCalls(nodes: Nodes, maxToolCalls: nat, maxCallsPerTool: nat) returns (verdict: Option<Failure>)
    ensures verdict == CallVerdict(nodes, maxToolCalls, maxCallsPerTool)
  {
    var total := SaturatingTotal(nodes, CALLS);
    if total > maxToolCalls {
      return Some(TotalToolCallsLimit);
    }
    var perTool := PerTool(nodes);
    var remaining := perTool;
    while remaining != map[]
      invariant forall tool :: tool in perTool && tool !in remaining ==> perTool[tool] <= maxCallsPerTool
      invariant forall tool :: tool in remaining ==> tool in perTool && remaining[tool] == perTool[tool]
      decreases |remaining|
    {
      var tool :| tool in remaining;
      if remaining[tool] > maxCallsPerTool {
        assert Min(Total(nodes, CallsOf(tool)), U64_MAX) == CountOf(perTool, tool) > maxCallsPerTool;
        return Some(ToolCallsPerToolLimit);
      }
      remaining := remaining - {tool};
    }
    forall tool ensures Min(Total(nodes, CallsOf(tool)), U64_MAX) <= maxCallsPerTool {
      assert CountOf(perTool, tool) <= maxCallsPerTool;
    }
    verdict := None;
  }

  /** All the shared limits hold of the true totals. */
  ghost predicate Within(nodes: Nodes, maxToolCalls: nat, maxCallsPerTool: nat, maxBytes: nat) {
    && Total(nodes, CALLS) <= maxToolCalls
    && (forall tool: string :: Total(nodes, CallsOf(tool)) <= maxCallsPerTool)
    && Total(nodes, BYTES) <= maxBytes
  }

  /** The clamped decision is the decision on true totals. */
  lemma CallVerdictExact(nodes: Nodes, maxToolCalls: nat, maxCallsPerTool: nat)
    requires maxToolCalls < U64_MAX && maxCallsPerTool < U64_MAX
    ensures CallVerdict(nodes, maxToolCalls, maxCallsPerTool).None? <==>
      Total(nodes, CALLS) <= maxToolCalls && forall tool: string :: Total(nodes, CallsOf(tool)) <= maxCallsPerTool
  {
    if SomeToolOver(nodes, maxCallsPerTool) {
      var tool :| Min(Total(nodes, CallsOf(tool)), U64_MAX) > maxCallsPerTool;
      assert Total(nodes, CallsOf(tool)) > maxCallsPerTool;
    } else {
      forall tool: string ensures Total(nodes, CallsOf(tool)) <= maxCallsPerTool {
        assert Min(Total(nodes, CallsOf(tool)), U64_MAX) <= maxCallsPerTool;
      }
    }
  }

  /** The gap: a candidate whose node is not in the store is admitted whatever it holds, and the
      limits hold of the store afterwards exactly when they hold of it with the candidate in.  A
      node's first model request stores it, so no run checks such a candidate (`Fleet.RunsEnter`). */
  lemma NewNodeIsNotCounted(nodes: Nodes, node: string, candidate: LoopState, maxToolCalls: nat, maxCallsPerTool: nat)
    requires node !in nodes
    requires maxToolCalls < U64_MAX && maxCallsPerTool < U64_MAX
    requires CallVerdict(nodes, maxToolCalls, maxCallsPerTool).None?
    ensures CallVerdict(Counted(nodes, node, candidate), maxToolCalls, maxCallsPerTool).None?
    ensures CallVerdict(nodes[node := candidate], maxToolCalls, maxCallsPerTool).None? <==>
      && Total(nodes, CALLS) + candidate.totalToolCalls <= maxToolCalls
      && forall tool: string :: Total(nodes, CallsOf(tool)) + CountOf(candidate.toolCalls, tool) <= maxCallsPerTool
  {
    CallVerdictExact(nodes[node := candidate], maxToolCalls, maxCallsPerTool);
    assert nodes - {node} == nodes;
    TotalUpdate(nodes, CALLS, node, candidate);
    forall tool: string
      ensures Total(nodes[node := candidate], CallsOf(tool)) == Total(nodes, CallsOf(tool)) + CountOf(candidate.toolCalls, tool)
    {
      TotalUpdate(nodes, CallsOf(tool), node, candidate);
    }
  }
}
