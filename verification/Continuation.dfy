/** The graph continuation kept in a durable checkpoint: what is put aside when a graph stops and
    what comes back when it goes on. */
module Continuation {
  import opened Prelude
  import opened Json
  import opened Worklist

  const ROUTE := "route:"
  const VISITS := "visits:"

  type State = map<string, Json>

  /** The executor's own checkpoint. */
  datatype Checkpoint = Checkpoint(state: State, step: nat, pendingNodes: seq<string>, attempts: map<string, nat>)

  /** `GraphContinuationV1`. */
  datatype Continuation = Continuation(
    schemaVersion: nat, pendingNodes: seq<string>, step: nat, retry: map<string, nat>,
    routeFrontier: map<string, Json>, visits: map<string, nat>)

  /** A durable state: its entries, and the continuation under its own key. */
  datatype Durable = Durable(entries: State, continuation: Option<Continuation>)

  /** The nodes that have an entry with this prefix. */
  function Named(state: State, prefix: string): set<string> {
    set k | k in state && prefix <= k :: k[|prefix|..]
  }

  lemma NamedIff(state: State, prefix: string, node: string)
    ensures node in Named(state, prefix) <==> prefix + node in state
  {
    if prefix + node in state {
      assert (prefix + node)[|prefix|..] == node && prefix <= prefix + node;
    }
    if node in Named(state, prefix) {
      var k :| k in state && prefix <= k && k[|prefix|..] == node;
      assert k == prefix + node;
    }
  }

  /** Visit counts are kept where they are unsigned integers. */
  function Counted(state: State): set<string> {
    set n | n in Named(state, VISITS) && VISITS + n in state && AsU64(Some(state[VISITS + n])).Some?
  }

  function FromCheckpoint(cp: Checkpoint): Continuation {
    Continuation(
      1, cp.pendingNodes, cp.step, cp.attempts,
      map n | n in Named(cp.state, ROUTE) && ROUTE + n in cp.state :: cp.state[ROUTE + n],
      map n | n in Counted(cp.state) :: AsU64(Some(cp.state[VISITS + n])).value)
  }

  /** `checkpoint_state`: retry counts of an earlier continuation fill the gaps. */
  function CheckpointState(entries: State, cp: Checkpoint, prior: Option<map<string, nat>>): Durable {
    var c := FromCheckpoint(cp);
    Durable(entries, Some(if prior.Some? then c.(retry := prior.value + c.retry) else c))
  }

  /** Every node a continuation names. */
  function Nodes(c: Continuation): set<string> {
    Elements(c.pendingNodes) + c.retry.Keys + c.routeFrontier.Keys + c.visits.Keys
  }

  /** The entries with the kept routes and visit counts written over them. */
  function Written(entries: State, c: Continuation): State {
    var routed := entries + map k | k in Keys(ROUTE, c.routeFrontier.Keys) && k[|ROUTE|..] in c.routeFrontier ::
                              c.routeFrontier[k[|ROUTE|..]];
    routed + map k | k in Keys(VISITS, c.visits.Keys) && k[|VISITS|..] in c.visits :: Num(c.visits[k[|VISITS|..]])
  }

  function Keys(prefix: string, nodes: set<string>): (keys: set<string>)
    ensures forall k <- keys :: prefix <= k && k[|prefix|..] in nodes
    ensures forall n <- nodes :: prefix + n in keys
  {
    var keys := set n | n in nodes :: prefix + n;
    assert forall n :: (prefix + n)[|prefix|..] == n;
    keys
  }

  /** `restore_checkpoint_state`. */
  function RestoreCheckpointState(stored: Durable, nodes: set<string>): Option<Checkpoint> {
    var c :- stored.continuation;
    if c.schemaVersion != 1 || !(Nodes(c) <= nodes) then None
    else Some(Checkpoint(Written(stored.entries, c), c.step, c.pendingNodes, c.retry))
  }

  /** The nodes a checkpoint and the earlier retry counts name. */
  function Mentioned(cp: Checkpoint, prior: Option<map<string, nat>>): set<string> {
    Elements(cp.pendingNodes) + cp.attempts.Keys + (if prior.Some? then prior.value.Keys else {})
    + Named(cp.state, ROUTE) + Counted(cp.state)
  }

  lemma FrontierKeys(cp: Checkpoint)
    ensures FromCheckpoint(cp).routeFrontier.Keys == Named(cp.state, ROUTE)
  {
    forall n ensures n in FromCheckpoint(cp).routeFrontier <==> n in Named(cp.state, ROUTE) {
      NamedIff(cp.state, ROUTE, n);
    }
  }

  lemma VisitKeys(cp: Checkpoint)
    ensures FromCheckpoint(cp).visits.Keys == Counted(cp.state)
  {
  }

  lemma NodesAreMentioned(entries: State, cp: Checkpoint, prior: Option<map<string, nat>>)
    ensures Nodes(CheckpointState(entries, cp, prior).continuation.value) == Mentioned(cp, prior)
  {
    var c := CheckpointState(entries, cp, prior).continuation.value;
    FrontierKeys(cp);
    VisitKeys(cp);
    assert c.routeFrontier.Keys == Named(cp.state, ROUTE) && c.visits.Keys == Counted(cp.state);
    var earlier := if prior.Some? then prior.value.Keys else {};
    assert c.retry.Keys == cp.attempts.Keys + earlier;
    Regroup(Elements(cp.pendingNodes), cp.attempts.Keys, earlier, Named(cp.state, ROUTE), Counted(cp.state));
  }

  lemma Regroup(a: set<string>, b: set<string>, c: set<string>, d: set<string>, e: set<string>)
    ensures a + (b + c) + d + e == a + b + c + d + e
  {
  }

  lemma WrittenRoute(entries: State, c: Continuation, node: string)
    requires node in c.routeFrontier
    ensures ROUTE + node in Written(entries, c) && Written(entries, c)[ROUTE + node] == c.routeFrontier[node]
  {
    assert (ROUTE + node)[|ROUTE|..] == node;
    assert (ROUTE + node)[0] == 'r';
    assert ROUTE + node in Keys(ROUTE, c.routeFrontier.Keys);
    assert !(VISITS <= ROUTE + node) by {
      assert VISITS[0] == 'v';
    }
  }

  lemma WrittenVisits(entries: State, c: Continuation, node: string)
    requires node in c.visits
    ensures VISITS + node in Written(entries, c) && Written(entries, c)[VISITS + node] == Num(c.visits[node])
  {
    assert (VISITS + node)[|VISITS|..] == node;
    assert VISITS + node in Keys(VISITS, c.visits.Keys);
  }

  lemma WrittenElse(entries: State, c: Continuation, key: string)
    requires key !in Keys(ROUTE, c.routeFrontier.Keys) && key !in Keys(VISITS, c.visits.Keys)
    ensures key in Written(entries, c) <==> key in entries
    ensures key in entries ==> Written(entries, c)[key] == entries[key]
  {
  }

  /** Every route entry and every visit count of the checkpoint is written back. */
  lemma EntriesComeBack(entries: State, cp: Checkpoint, prior: Option<map<string, nat>>, n: string)
    ensures var state := Written(entries, CheckpointState(entries, cp, prior).continuation.value);
      && (n in Named(cp.state, ROUTE) ==>
            ROUTE + n in cp.state && ROUTE + n in state && state[ROUTE + n] == cp.state[ROUTE + n])
      && (n in Counted(cp.state) ==> VISITS + n in state && state[VISITS + n] == cp.state[VISITS + n])
  {
    var c := CheckpointState(entries, cp, prior).continuation.value;
    if n in Named(cp.state, ROUTE) {
      NamedIff(cp.state, ROUTE, n);
      WrittenRoute(entries, c, n);
    }
    if n in Counted(cp.state) {
      WrittenVisits(entries, c, n);
    }
  }

  /** Restoring fails exactly when the checkpoint names a node the graph does not have; otherwise
      step, pending nodes and attempts come back, attempts of this checkpoint over earlier ones. */
  lemma RoundTrip(entries: State, cp: Checkpoint, prior: Option<map<string, nat>>, nodes: set<string>)
    ensures var back := RestoreCheckpointState(CheckpointState(entries, cp, prior), nodes);
      && (back.Some? <==> Mentioned(cp, prior) <= nodes)
      && (back.Some? ==>
            && back.value.step == cp.step && back.value.pendingNodes == cp.pendingNodes
            && back.value.attempts == (if prior.Some? then prior.value else map[]) + cp.attempts)
  {
    NodesAreMentioned(entries, cp, prior);
    if prior.None? {
      assert map[] + cp.attempts == cp.attempts;
    }
  }

  /** Whatever is stored: it is restored exactly when it has a continuation of this version that names
      only nodes the graph has. */
  lemma RestoreIff(stored: Durable, nodes: set<string>)
    ensures RestoreCheckpointState(stored, nodes).Some? <==>
      && stored.continuation.Some?
      && var c := stored.continuation.value;
      && c.schemaVersion == 1
      && (forall n <- c.pendingNodes :: n in nodes)
      && (forall n <- c.retry :: n in nodes)
      && (forall n <- c.routeFrontier :: n in nodes)
      && (forall n <- c.visits :: n in nodes)
  {
    if stored.continuation.Some? {
      var c := stored.continuation.value;
      forall n { ElementsIff(c.pendingNodes, n); }
    }
  }

  /** And so does every route entry and every visit count; nothing else in the state moves. */
  lemma RoundTripState(entries: State, cp: Checkpoint, prior: Option<map<string, nat>>, nodes: set<string>)
    requires RestoreCheckpointState(CheckpointState(entries, cp, prior), nodes).Some?
    ensures var state := RestoreCheckpointState(CheckpointState(entries, cp, prior), nodes).value.state;
      && (forall n <- Named(cp.state, ROUTE) :: ROUTE + n in cp.state
            && ROUTE + n in state && state[ROUTE + n] == cp.state[ROUTE + n])
      && (forall n <- Counted(cp.state) :: VISITS + n in state && state[VISITS + n] == cp.state[VISITS + n])
      && (forall k <- state :: k !in entries || state[k] != entries[k] ==> k in cp.state && state[k] == cp.state[k])
      && entries.Keys <= state.Keys
  {
    forall n { EntriesComeBack(entries, cp, prior, n); }
    var c := CheckpointState(entries, cp, prior).continuation.value;
    forall k | k in Written(entries, c) && (k !in entries || Written(entries, c)[k] != entries[k])
      ensures k in cp.state && Written(entries, c)[k] == cp.state[k]
    {
      ChangedComesBack(entries, cp, prior, k);
    }
  }

  /** Nothing is made up: every entry that differs from the stored ones is one of the checkpoint. */
  lemma ChangedComesBack(entries: State, cp: Checkpoint, prior: Option<map<string, nat>>, k: string)
    requires var c := CheckpointState(entries, cp, prior).continuation.value;
      k in Written(entries, c) && (k !in entries || Written(entries, c)[k] != entries[k])
    ensures var c := CheckpointState(entries, cp, prior).continuation.value;
      k in cp.state && Written(entries, c)[k] == cp.state[k]
  {
    var c := CheckpointState(entries, cp, prior).continuation.value;
    if k in Keys(VISITS, c.visits.Keys) {
      var n := k[|VISITS|..];
      assert k == VISITS + n;
      WrittenVisits(entries, c, n);
    } else if k in Keys(ROUTE, c.routeFrontier.Keys) {
      var n := k[|ROUTE|..];
      assert k == ROUTE + n;
      WrittenRoute(entries, c, n);
    } else {
      WrittenElse(entries, c, k);
    }
  }
}
