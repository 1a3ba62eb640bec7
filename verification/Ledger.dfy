/** `LoopLedgerStore`: the nodes' loop states in memory, their proof, and the two files they are
    persisted to.  What the disk does is an argument of every call that writes. */
module Ledger {
  import opened Prelude
  import opened Json
  import opened LoopStates
  import opened LoopValidation
  import opened Redaction
  import opened LoopControl
  import opened LoopRecovery
  import opened LoopAnswers
  import opened LoopSystem
  import opened Limits
  import F = Fleet
  import G = Generations

  // ---- The redacted form, as the loops that make it ----

  predicate PendingsDurable(nodes: Nodes) {
    forall n <- nodes, c <- nodes[n].pendingCalls :: DurableArgs(c).Some?
  }

  predicate CompletedsDurable(nodes: Nodes) {
    forall n <- nodes, c <- nodes[n].completedCalls :: DurableArgs(c.call).Some?
  }

  function RedactNodes(nodes: Nodes): Nodes
    requires PendingsDurable(nodes) && CompletedsDurable(nodes)
  {
    map n | n in nodes :: Redact(nodes[n])
  }

  method CheckPendings(nodes: Nodes) returns (ok: bool)
    ensures ok <==> PendingsDurable(nodes)
  {
    var remaining := nodes;
    while remaining != map[]
      invariant forall n <- remaining :: n in nodes && remaining[n] == nodes[n]
      invariant forall n <- nodes :: n !in remaining ==> forall c <- nodes[n].pendingCalls :: DurableArgs(c).Some?
      decreases |remaining|
    {
      var n :| n in remaining;
      var pending := remaining[n].pendingCalls;
      for i := 0 to |pending|
        invariant forall j :: 0 <= j < i ==> DurableArgs(pending[j]).Some?
      {
        if DurableArgs(pending[i]).None? {
          assert pending[i] in nodes[n].pendingCalls;
          return false;
        }
      }
      remaining := remaining - {n};
    }
    ok := true;
  }

  method RedactState(s: LoopState) returns (r: LoopState)
    requires Redactable(s)
    ensures r == Redact(s)
  {
    var pending, completed := s.pendingCalls, s.completedCalls;
    for i := 0 to |pending|
      invariant |pending| == |s.pendingCalls|
      invariant forall j :: 0 <= j < i ==> pending[j] == RedactPending(s.pendingCalls[j])
      invariant forall j :: i <= j < |pending| ==> pending[j] == s.pendingCalls[j]
    {
      assert pending[i] in s.pendingCalls;
      pending := pending[i := RedactPending(pending[i])];
    }
    for i := 0 to |completed|
      invariant |completed| == |s.completedCalls|
      invariant forall j :: 0 <= j < i ==> completed[j] == RedactCompleted(s.completedCalls[j])
      invariant forall j :: i <= j < |completed| ==> completed[j] == s.completedCalls[j]
    {
      assert completed[i] in s.completedCalls;
      var call := completed[i].call.(args := DurableArgs(completed[i].call).value);
      if IsSkill(call.name) {
        call := call.(response := None);
      }
      completed := completed[i := completed[i].(call := call)];
    }
    assert pending == Redact(s).pendingCalls;
    assert completed == Redact(s).completedCalls;
    r := s.(conversation := [], finishedOutput := None, pendingCalls := pending, completedCalls := completed);
  }

  method RedactAll(nodes: Nodes) returns (durable: Nodes)
    requires PendingsDurable(nodes) && CompletedsDurable(nodes)
    ensures durable == RedactNodes(nodes)
  {
    durable := nodes;
    var remaining := nodes.Keys;
    while remaining != {}
      invariant remaining <= nodes.Keys && durable.Keys == nodes.Keys
      invariant forall n <- nodes :: durable[n] == if n in remaining then nodes[n] else Redact(nodes[n])
      decreases |remaining|
    {
      var n :| n in remaining;
      var redacted := RedactState(nodes[n]);
      durable := durable[n := redacted];
      remaining := remaining - {n};
    }
  }

  // ---- One persist ----

  /** What the disk does with the ledger write and the checkpoint save of one persist. */
  datatype Io = Io(write: G.Outcome, save: G.Outcome)

  datatype Effect = Effect(disk: G.Disk<Nodes>, durable: Nodes, ok: bool)

  /** The generation written for these nodes, `None` when some pending call has no durable form. */
  function Target(raw: bool, nodes: Nodes): Option<Nodes>
    requires CompletedsDurable(nodes)
  {
    if raw then Some(nodes) else if PendingsDurable(nodes) then Some(RedactNodes(nodes)) else None
  }

  /** Ledger file, checkpoint, proof, in this order, stopping at the first failure. */
  function Persisted(u: G.Setup<Nodes>, disk: G.Disk<Nodes>, durable: Nodes, target: Nodes, io: Io): Effect {
    var written := G.AfterWrite(u, disk, target, io.write);
    if G.Kept(u, disk).None? || io.write != G.Landed then Effect(written, durable, false)
    else
      var saved := G.AfterSave(u, written, target, io.save);
      if io.save != G.Landed then Effect(saved, durable, false) else Effect(saved, target, true)
  }

  /** The steps of the two-generation protocol that one persist takes. */
  function PersistSteps(u: G.Setup<Nodes>, sys: G.System<Nodes>, target: Nodes, io: Io): Option<G.System<Nodes>> {
    var written :- G.Step(u, sys, G.Write(target, io.write));
    if !written.memory.Up? || !written.memory.phase.Written? then Some(written)
    else
      var saved :- G.Step(u, written, G.Save(io.save));
      if !saved.memory.Up? || !saved.memory.phase.Saved? then Some(saved) else G.Step(u, saved, G.Publish)
  }

  /** A persist is a run of the protocol from idle to idle, so everything proved of protocol runs
      holds of stores. */
  lemma PersistIsProtocol(u: G.Setup<Nodes>, disk: G.Disk<Nodes>, durable: Nodes, target: Nodes, io: Io)
    ensures var effect := Persisted(u, disk, durable, target, io);
            PersistSteps(u, G.System(disk, G.Up(durable, G.Idle)), target, io)
              == Some(G.System(effect.disk, G.Up(effect.durable, G.Idle)))
  {
  }

  // ---- The ledger's calls are steps of its node ----

  /** What activating a skill stores is the node's step in the fleet: one more activated skill in the
      ledger's copy. */
  lemma ActivationIsStep(g: Setting, nodes: Nodes, node: string, s: LoopState, skill: string)
    ensures var t := F.Snapshot(nodes, node);
      F.NodeStep(g, nodes, node, s, SkillActivated(skill))
        == Some(F.Change(s, Some(t.(activatedSkills := t.activatedSkills + {skill}))))
  {
  }

  /** So is what a reservation for a pending read of the skill stores. */
  lemma ReservationIsStep(g: Setting, nodes: Nodes, node: string, s: LoopState, skill: string, fingerprint: string, pageBytes: nat)
    requires node in nodes && skill != "" && ReservationOf(nodes[node].pendingCalls, fingerprint) == Some(skill)
    ensures F.NodeStep(g, nodes, node, s, ReadReserved(skill, fingerprint, pageBytes)) ==
      match Reserve(nodes[node], false, skill, fingerprint, pageBytes)
      case Err(_) => None
      case Ok(reserved) => Some(F.Change(s, Some(reserved.0)))
  {
  }

  /** On resume controller and ledger start alike; what replays and restored turns store is the step
      of both copies. */
  lemma RecoveryIsStep(g: Setting, nodes: Nodes, node: string, call: PendingCall, result: Json,
                       completed: seq<(CompletedCall, Json)>)
    requires node in nodes
    ensures var others := Min(Total(nodes - {node}, BYTES), U64_MAX);
      F.NodeStep(g, nodes, node, nodes[node], Replay(call, result, others)) ==
        var (next, failure) := CompletePending(g.host, nodes[node], others, call, result, g.limits.maxToolOutputBytes);
        if failure.Some? then None else Some(F.Both(next))
    ensures F.NodeStep(g, nodes, node, nodes[node], Restore(completed)) ==
      match RestoreTurn(nodes[node], completed)
      case Err(_) => None
      case Ok(next) => Some(F.Both(next))
  {
  }

  // ---- Replaying a pending call, step by step ----

  method FindPending(pending: seq<PendingCall>, call: PendingCall) returns (i: Option<nat>)
    ensures i == PositionOf(pending, call)
  {
    for k := 0 to |pending|
      invariant PositionOf(pending, call) ==
        match PositionOf(pending[k..], call) case None => None case Some(j) => Some(j + k)
    {
      if SameCall(pending[k], call) {
        return Some(k);
      }
      assert pending[k..][1..] == pending[k + 1..];
    }
    i := None;
  }

  /** Some part of the transcript makes the call. */
  method Mentions(conversation: seq<Content>, id: string) returns (found: bool)
    ensures found <==> CalledBefore(conversation, |conversation|, id)
  {
    for k := 0 to |conversation|
      invariant !CalledBefore(conversation, k, id)
    {
      var parts := conversation[k].parts;
      for j := 0 to |parts|
        invariant forall i :: 0 <= i < j ==> !(parts[i].FunctionCall? && parts[i].id == Some(id))
      {
        if parts[j].FunctionCall? && parts[j].id == Some(id) {
          assert CallsFor(conversation[k], id);
          return true;
        }
      }
    }
    found := false;
  }

  /** The call is moved before the last checks are made of it; one that fails there leaves it moved. */
  method ReplayPending(host: Host, s: LoopState, others: nat, call: PendingCall, response: Json, maxOutputBytes: nat)
    returns (next: LoopState, failure: Option<Failure>)
    ensures (next, failure) == CompletePending(host, s, others, call, response, maxOutputBytes)
  {
    next := s;
    var total := SaturatingAdd(s.toolOutputBytes, host.size(response));
    if SaturatingAdd(others, total) > maxOutputBytes {
      return next, Some(ToolOutputBytesLimit);
    }
    var index := FindPending(s.pendingCalls, call);
    if index.None? {
      return next, Some(InvalidRunState);
    }
    var pending := s.pendingCalls[index.value];
    var page := PageByteLen(response);
    if pending.name == READ {
      if page.None? || pending.fingerprint !in s.skillReservations
         || s.skillReservations[pending.fingerprint] != page.value {
        return next, Some(InvalidRunState);
      }
    }
    next := next.(pendingCalls := s.pendingCalls[..index.value] + s.pendingCalls[index.value + 1..],
                  toolOutputBytes := total);
    next := next.(completedCalls := next.completedCalls + [Completed(pending, response)]);
    MentionsIff(s.conversation, pending.id);
    var mentioned := Mentions(next.conversation, pending.id);
    if !mentioned {
      next := next.(conversation := next.conversation + [ToolCallContent(pending)]);
    }
    if pending.name == READ {
      if !IsReadInput(pending.args) || CountOf(next.skillReadBytes, SkillId(pending.args)) < page.value {
        return next, Some(InvalidRunState);
      }
      next := next.(skillReservations := next.skillReservations - {pending.fingerprint});
    }
    next := next.(conversation := next.conversation + [ToolResponseContent(pending, response)]);
    failure := None;
  }

  class LoopLedgerStore {
    const host: Host
    const raw: bool
    const setup: G.Setup<Nodes>
    var nodes: Nodes
    var durable: Nodes
    var replaying: set<(string, string)>
    var disk: G.Disk<Nodes>

    /** A ledger for a new run: the empty generation on disk, and a checkpoint not yet saved. */
    constructor (host: Host, raw: bool, setup: G.Setup<Nodes>, checkpoint: G.Checkpoint)
      ensures this.host == host && this.raw == raw && this.setup == setup
      ensures nodes == map[] && durable == map[] && replaying == {}
      ensures disk == G.Disk(G.LedgerFile(map[], None), checkpoint)
    {
      this.host, this.raw, this.setup := host, raw, setup;
      nodes, durable, replaying := map[], map[], {};
      disk := G.Disk(G.LedgerFile(map[], None), checkpoint);
    }

    /** The store of a resumed run holds the selected generation on both sides of the proof. */
    constructor Holding(host: Host, raw: bool, setup: G.Setup<Nodes>, disk: G.Disk<Nodes>, selected: Nodes)
      ensures this.host == host && this.raw == raw && this.setup == setup && this.disk == disk
      ensures nodes == selected && durable == selected && replaying == {}
    {
      this.host, this.raw, this.setup, this.disk := host, raw, setup, disk;
      nodes, durable, replaying := selected, selected, {};
    }

    /** `open`: selects the generation the checkpoint names and validates it. */
    static method Open(host: Host, raw: bool, setup: G.Setup<Nodes>, disk: G.Disk<Nodes>)
      returns (store: Option<LoopLedgerStore>)
      ensures store.Some? <==> G.Selected(setup, disk).Some? && setup.valid(G.Selected(setup, disk).value)
      ensures store.Some? ==>
        && fresh(store.value)
        && store.value.disk == disk && store.value.setup == setup && store.value.raw == raw && store.value.host == host
        && store.value.nodes == store.value.durable == G.Selected(setup, disk).value
        && store.value.replaying == {}
      ensures G.Step(setup, G.System(disk, G.Down), G.Open) ==
        Some(G.System(disk, if store.Some? then G.Up(store.value.durable, G.Idle) else G.Down))
    {
      store := None;
      if disk.checkpoint.Bound? {
        var digest, ledger := disk.checkpoint.digest, disk.ledger;
        var selected: Option<Nodes> := None;
        if setup.digest(ledger.nodes) == digest {
          selected := Some(ledger.nodes);
        } else if ledger.checkpointNodes.Some? && setup.digest(ledger.checkpointNodes.value) == digest {
          selected := ledger.checkpointNodes;
        }
        if selected.Some? && setup.valid(selected.value) {
          var reopened := new LoopLedgerStore.Holding(host, raw, setup, disk, selected.value);
          store := Some(reopened);
        }
      }
    }

    /** What `persist_generation` leaves for these nodes in memory. */
    ghost predicate PersistedAs(nodes: Nodes, io: Io, disk: G.Disk<Nodes>, durable: Nodes, after: Effect)
      requires CompletedsDurable(nodes)
    {
      after == match Target(raw, nodes)
               case None => Effect(disk, durable, false)
               case Some(target) => Persisted(setup, disk, durable, target, io)
    }

    method RetainedGeneration() returns (kept: Option<Nodes>)
      ensures kept == G.Kept(setup, disk)
    {
      var ledger := disk.ledger;
      match disk.checkpoint {
        case Absent => kept := None;
        case Unbound => kept := if ledger.nodes == setup.empty then Some(setup.empty) else None;
        case Bound(digest) =>
          if setup.digest(ledger.nodes) == digest {
            kept := Some(ledger.nodes);
          } else if ledger.checkpointNodes.Some? && setup.digest(ledger.checkpointNodes.value) == digest {
            kept := ledger.checkpointNodes;
          } else {
            kept := None;
          }
      }
    }

    /** The completed calls of every node have a durable form, as the source relies on. */
    method Persist(io: Io) returns (ok: bool)
      requires CompletedsDurable(nodes)
      modifies this`disk, this`durable
      ensures PersistedAs(nodes, io, old(disk), old(durable), Effect(disk, durable, ok))
    {
      var target := nodes;
      if !raw {
        var checked := CheckPendings(nodes);
        if !checked {
          return false;
        }
        target := RedactAll(nodes);
      }
      var kept := RetainedGeneration();
      if kept.None? {
        return false;
      }
      if io.write != G.NotLanded {
        disk := disk.(ledger := G.LedgerFile(target, kept));
      }
      if io.write != G.Landed {
        return false;
      }
      if io.save != G.NotLanded {
        disk := disk.(checkpoint := G.Bound(setup.digest(target)));
      }
      if io.save != G.Landed {
        return false;
      }
      durable := target;
      ok := true;
    }

    /** The digest a final save binds is that of the proof. */
    method FinalSave(outcome: G.Outcome)
      modifies this`disk
      ensures G.Step(setup, G.System(old(disk), G.Up(durable, G.Idle)), G.FinalSave(outcome))
        == Some(G.System(disk, G.Up(durable, G.Idle)))
    {
      if outcome != G.NotLanded {
        disk := disk.(checkpoint := G.Bound(setup.digest(durable)));
      }
    }

    method Snapshot(node: string) returns (s: LoopState)
      ensures s == F.Snapshot(nodes, node)
    {
      s := if node in nodes then nodes[node] else FRESH;
    }

    /** Stores the node's state and persists; when that fails the store stays ahead of the disk. */
    method Replace(node: string, s: LoopState, io: Io) returns (ok: bool)
      requires CompletedsDurable(nodes[node := s])
      modifies this`nodes, this`disk, this`durable
      ensures nodes == old(nodes)[node := s]
      ensures PersistedAs(nodes, io, old(disk), old(durable), Effect(disk, durable, ok))
    {
      nodes := nodes[node := s];
      ok := Persist(io);
    }

    /** `tool_call_limit`: the outer error is a failed persist, the inner one a limit.  A
        candidate over a limit leaves the whole store as it was. */
    method ToolCallLimit(node: string, candidate: LoopState, limits: RunLimits, io: Io)
      returns (r: Result<Option<Failure>, Failure>)
      requires CompletedsDurable(nodes[node := candidate])
      modifies this`nodes, this`disk, this`durable
      ensures var verdict := CallVerdict(Counted(old(nodes), node, candidate), limits.maxToolCalls, limits.maxCallsPerTool);
              if verdict.Some? then r == Ok(verdict) && unchanged(this)
              else
                && nodes == old(nodes)[node := candidate]
                && PersistedAs(nodes, io, old(disk), old(durable), Effect(disk, durable, r.Ok?))
                && r == if r.Ok? then Ok(None) else Err(Persistence)
    {
      var verdict := CheckToolCalls(Counted(nodes, node, candidate), limits.maxToolCalls, limits.maxCallsPerTool);
      if verdict.Some? {
        return Ok(verdict);
      }
      var ok := Replace(node, candidate, io);
      r := if ok then Ok(None) else Err(Persistence);
    }

    /** `output_byte_limit`: true when the candidate is over the limit, and then nothing moved. */
    method OutputByteLimit(node: string, candidate: LoopState, limit: nat, io: Io) returns (r: Result<bool, Failure>)
      requires CompletedsDurable(nodes[node := candidate])
      modifies this`nodes, this`disk, this`durable
      ensures if Min(Total(Counted(old(nodes), node, candidate), BYTES), U64_MAX) > limit then
                r == Ok(true) && unchanged(this)
              else
                && nodes == old(nodes)[node := candidate]
                && PersistedAs(nodes, io, old(disk), old(durable), Effect(disk, durable, r.Ok?))
                && r == if r.Ok? then Ok(false) else Err(Persistence)
    {
      var total := SaturatingTotal(Counted(nodes, node, candidate), BYTES);
      if total > limit {
        return Ok(true);
      }
      var ok := Replace(node, candidate, io);
      r := if ok then Ok(false) else Err(Persistence);
    }

    /** `complete_pending`. */
    method CompletePendingCall(node: string, call: PendingCall, response: Json, maxOutputBytes: nat, io: Io)
      returns (failure: Option<Failure>)
      requires node in nodes ==>
        CompletedsDurable(nodes[node := CompletePending(host, nodes[node],
          Min(Total(nodes - {node}, BYTES), U64_MAX), call, response, maxOutputBytes).0])
      modifies this`nodes, this`disk, this`durable
      ensures node !in old(nodes) ==> failure == Some(InvalidRunState) && unchanged(this)
      ensures node in old(nodes) ==>
        var (next, refused) := CompletePending(host, old(nodes)[node],
          Min(Total(old(nodes) - {node}, BYTES), U64_MAX), call, response, maxOutputBytes);
        && nodes == old(nodes)[node := next]
        && (if refused.Some? then failure == refused && disk == old(disk) && durable == old(durable)
            else
              && PersistedAs(nodes, io, old(disk), old(durable), Effect(disk, durable, failure.None?))
              && (failure.Some? ==> failure == Some(Persistence)))
      ensures failure.None? ==>
        node in old(nodes) && node in nodes && AnswersAtEnd(old(nodes)[node], call, response, nodes[node].conversation)
    {
      if node !in nodes {
        return Some(InvalidRunState);
      }
      var others := SaturatingTotal(nodes - {node}, BYTES);
      var next, refused := ReplayPending(host, nodes[node], others, call, response, maxOutputBytes);
      if refused.None? {
        ReplayedTranscript(host, nodes[node], others, call, response, maxOutputBytes);
      }
      nodes := nodes[node := next];
      if refused.Some? {
        return refused;
      }
      var ok := Persist(io);
      failure := if ok then None else Some(Persistence);
    }

    /** `restore_completed_turn` changes memory only. */
    method RestoreCompletedTurn(node: string, completed: seq<(CompletedCall, Json)>) returns (ok: bool)
      modifies this`nodes
      ensures ok <==> node in old(nodes) && RestoreTurn(old(nodes)[node], completed).Ok?
      ensures nodes == if ok then old(nodes)[node := RestoreTurn(old(nodes)[node], completed).value] else old(nodes)
    {
      ok := false;
      if node !in nodes {
        return;
      }
      var s := nodes[node];
      for i := 0 to |completed|
        invariant forall j :: 0 <= j < i ==> completed[j].0 in s.completedCalls
      {
        if completed[i].0 !in s.completedCalls {
          return;
        }
      }
      if completed == [] {
        return;
      }
      var calls := TurnCalls(s, completed);
      ghost var turn := TurnContents(s, completed);
      var conversation := s.conversation;
      for k := 0 to |calls|
        invariant conversation == s.conversation + turn[..k]
      {
        conversation := conversation + [ToolCallContent(calls[k])];
      }
      for i := 0 to |completed|
        invariant conversation == s.conversation + turn[..|calls| + i]
      {
        conversation := conversation + [ToolResponseContent(completed[i].0.call, completed[i].1)];
      }
      assert turn[..|turn|] == turn;
      nodes := nodes[node := s.(conversation := conversation, conversationReconstructed := true)];
      ok := true;
    }

    method ActivateSkill(node: string, skill: string, io: Io) returns (ok: bool)
      requires CompletedsDurable(nodes)
      modifies this`nodes, this`disk, this`durable
      ensures var s := F.Snapshot(old(nodes), node);
              nodes == old(nodes)[node := s.(activatedSkills := s.activatedSkills + {skill})]
      ensures CompletedsDurable(nodes)
      ensures PersistedAs(nodes, io, old(disk), old(durable), Effect(disk, durable, ok))
    {
      var s := Snapshot(node);
      nodes := nodes[node := s.(activatedSkills := s.activatedSkills + {skill})];
      ok := Persist(io);
    }

    method SetReplaying(node: string, fingerprint: string, on: bool)
      modifies this`replaying
      ensures replaying == if on then old(replaying) + {(node, fingerprint)} else old(replaying) - {(node, fingerprint)}
    {
      if on {
        replaying := replaying + {(node, fingerprint)};
      } else {
        replaying := replaying - {(node, fingerprint)};
      }
    }

    /** Neither a replay nor a repetition of a reservation. */
    predicate Charges(s: LoopState, node: string, fingerprint: string)
      reads this`replaying
    {
      (node, fingerprint) !in replaying && fingerprint !in s.skillReservations
    }

    /** `reserve_skill_resource_read`: persists only when a charge was made. */
    method ReserveSkillRead(node: string, skill: string, fingerprint: string, pageBytes: nat, io: Io)
      returns (r: Result<nat, Failure>)
      requires CompletedsDurable(nodes)
      modifies this`nodes, this`disk, this`durable
      ensures node !in old(nodes) ==> r == Err(InvalidRunState) && unchanged(this)
      ensures node in old(nodes) ==>
        match Reserve(old(nodes)[node], (node, fingerprint) in replaying, skill, fingerprint, pageBytes)
        case Err(e) => r == Err(e) && unchanged(this)
        case Ok((next, total)) =>
          && nodes == old(nodes)[node := next]
          && (if Charges(old(nodes)[node], node, fingerprint) then
                && PersistedAs(nodes, io, old(disk), old(durable), Effect(disk, durable, r.Ok?))
                && r == if r.Ok? then Ok(total) else Err(Persistence)
              else r == Ok(total) && disk == old(disk) && durable == old(durable))
    {
      if node !in nodes {
        return Err(InvalidRunState);
      }
      var s := nodes[node];
      var charged := CountOf(s.skillReadBytes, skill);
      assert nodes == nodes[node := s];
      if (node, fingerprint) in replaying {
        return Ok(charged);
      }
      if fingerprint in s.skillReservations {
        return if s.skillReservations[fingerprint] == pageBytes then Ok(charged) else Err(InvalidRunState);
      }
      var total := CheckedAdd(charged, pageBytes);
      if total.None? || total.value > SKILL_RESOURCE_READ_LIMIT {
        return Err(ToolFailed);
      }
      nodes := nodes[node := s.(skillReadBytes := s.skillReadBytes[skill := total.value],
                                skillReservations := s.skillReservations[fingerprint := pageBytes])];
      var ok := Persist(io);
      r := if ok then Ok(total.value) else Err(Persistence);
    }
  }
}
