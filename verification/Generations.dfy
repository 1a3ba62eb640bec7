/** The two-generation protocol of the loop ledger: the ledger file is written first, the
    checkpoint that names one of its generations by digest second, and the in-memory proof last.
    Any of the three may fail, and the process may stop between any two of them. */
module Generations {
  import opened Prelude

  /** `LoopLedgerV1`: the newest generation and the one the checkpoint named at that time. */
  datatype LedgerFile<G> = LedgerFile(nodes: G, checkpointNodes: Option<G>)

  /** The stored checkpoint, as far as the ledger goes: there may be none, or one without a
      digest. */
  datatype Checkpoint = Absent | Unbound | Bound(digest: string)

  datatype Disk<G> = Disk(ledger: LedgerFile<G>, checkpoint: Checkpoint)

  /** How far a persist has come. */
  datatype Phase<G> = Idle | Written(target: G) | Saved(target: G)

  /** `durable` is the proof: the generation last known to be on disk on both sides. */
  datatype Memory<G> = Down | Up(durable: G, phase: Phase<G>)

  datatype System<G> = System(disk: Disk<G>, memory: Memory<G>)

  /** A write that reports failure may have reached the disk all the same. */
  datatype Outcome = NotLanded | LandedButFailed | Landed

  datatype Event<G> =
    | Write(target: G, outcome: Outcome)
    | Save(outcome: Outcome)
    | Publish
    | FinalSave(outcome: Outcome)
    | Crash
    | Open

  /** The digest, the empty generation, and the check `open` makes on what it selects. */
  datatype Setup<!G> = Setup(digest: G -> string, empty: G, valid: G -> bool)

  ghost predicate CollisionFree<G(!new)>(u: Setup<G>) {
    forall a, b :: u.digest(a) == u.digest(b) ==> a == b
  }

  /** The generation with this digest, the newest first. */
  function Named<G>(u: Setup<G>, file: LedgerFile<G>, digest: string): Option<G> {
    if u.digest(file.nodes) == digest then Some(file.nodes)
    else if file.checkpointNodes.Some? && u.digest(file.checkpointNodes.value) == digest then file.checkpointNodes
    else None
  }

  /** What `open` selects, before it validates it. */
  function Selected<G>(u: Setup<G>, disk: Disk<G>): Option<G> {
    match disk.checkpoint
    case Bound(digest) => Named(u, disk.ledger, digest)
    case _ => None
  }

  /** The generation a write keeps beside its target; `None` makes the persist fail before it
      touches the disk. */
  function Kept<G(==)>(u: Setup<G>, disk: Disk<G>): Option<G> {
    match disk.checkpoint
    case Absent => None
    case Bound(digest) => Named(u, disk.ledger, digest)
    case Unbound => if disk.ledger.nodes == u.empty then Some(u.empty) else None
  }

  function AfterWrite<G(==)>(u: Setup<G>, disk: Disk<G>, target: G, outcome: Outcome): Disk<G> {
    if Kept(u, disk).None? || outcome == NotLanded then disk
    else disk.(ledger := LedgerFile(target, Kept(u, disk)))
  }

  function AfterSave<G>(u: Setup<G>, disk: Disk<G>, target: G, outcome: Outcome): Disk<G> {
    if outcome == NotLanded then disk else disk.(checkpoint := Bound(u.digest(target)))
  }

  /** One event, or `None` when it cannot happen now. */
  function Step<G(==)>(u: Setup<G>, sys: System<G>, e: Event<G>): Option<System<G>> {
    match e
    case Crash => Some(sys.(memory := Down))
    case Open =>
      if sys.memory.Up? then None
      else
        var selected := Selected(u, sys.disk);
        if selected.Some? && u.valid(selected.value) then Some(sys.(memory := Up(selected.value, Idle)))
        else Some(sys)
    case Write(target, outcome) =>
      if !sys.memory.Up? || !sys.memory.phase.Idle? then None
      else
        var written := Kept(u, sys.disk).Some? && outcome == Landed;
        Some(System(AfterWrite(u, sys.disk, target, outcome),
                    if written then sys.memory.(phase := Written(target)) else sys.memory))
    case Save(outcome) =>
      if !sys.memory.Up? || !sys.memory.phase.Written? then None
      else
        var target := sys.memory.phase.target;
        Some(System(AfterSave(u, sys.disk, target, outcome),
                    sys.memory.(phase := if outcome == Landed then Saved(target) else Idle)))
    case Publish =>
      if !sys.memory.Up? || !sys.memory.phase.Saved? then None
      else Some(sys.(memory := Up(sys.memory.phase.target, Idle)))
    case FinalSave(outcome) =>
      if !sys.memory.Up? || !sys.memory.phase.Idle? then None
      else Some(sys.(disk := AfterSave(u, sys.disk, sys.memory.durable, outcome)))
  }

  /** A new run: an empty ledger, and a checkpoint bound to the empty generation. */
  function Start<G>(u: Setup<G>): System<G> {
    System(Disk(LedgerFile(u.empty, None), Bound(u.digest(u.empty))), Up(u.empty, Idle))
  }

  predicate IsRun<G(==)>(u: Setup<G>, events: seq<Event<G>>, states: seq<System<G>>) {
    && |states| == |events| + 1
    && states[0] == Start(u)
    && forall i :: 0 <= i < |events| ==> Step(u, states[i], events[i]) == Some(states[i + 1])
  }

  /** The generation the checkpoint was bound to by the last of the first `n` events that did. */
  function LastBound<G(==)>(u: Setup<G>, events: seq<Event<G>>, states: seq<System<G>>, n: nat): G
    requires IsRun(u, events, states) && n <= |events|
  {
    if n == 0 then u.empty
    else
      var before, e := states[n - 1], events[n - 1];
      assert Step(u, states[n - 1], events[n - 1]) == Some(states[n - 1 + 1]);
      if e.Save? && e.outcome != NotLanded then before.memory.phase.target
      else if e.FinalSave? && e.outcome != NotLanded then before.memory.durable
      else LastBound(u, events, states, n - 1)
  }

  predicate InFile<G(==)>(file: LedgerFile<G>, g: G) {
    file.nodes == g || file.checkpointNodes == Some(g)
  }

  /** What can be checked before a step: a final save binds a generation the file holds. */
  predicate Safe<G(==)>(sys: System<G>, e: Event<G>) {
    e.FinalSave? && e.outcome != NotLanded && sys.memory.Up? ==> InFile(sys.disk.ledger, sys.memory.durable)
  }

  /** The checkpoint names `bound`, the file holds it, and a write under way is in the file. */
  predicate Recoverable<G(==)>(u: Setup<G>, sys: System<G>, bound: G) {
    && sys.disk.checkpoint == Bound(u.digest(bound))
    && InFile(sys.disk.ledger, bound)
    && (sys.memory.Up? && sys.memory.phase.Written? ==> sys.disk.ledger.nodes == sys.memory.phase.target)
  }

  lemma NamedIsBound<G(!new)>(u: Setup<G>, file: LedgerFile<G>, g: G)
    requires CollisionFree(u)
    ensures Named(u, file, u.digest(g)) == if InFile(file, g) then Some(g) else None
  {
  }

  lemma {:induction false} SafeRunsRecoverable<G(!new)>(u: Setup<G>, events: seq<Event<G>>, states: seq<System<G>>, n: nat)
    requires CollisionFree(u) && IsRun(u, events, states) && n <= |events|
    requires forall i :: 0 <= i < n ==> Safe(states[i], events[i])
    ensures Recoverable(u, states[n], LastBound(u, events, states, n))
  {
    if n > 0 {
      SafeRunsRecoverable(u, events, states, n - 1);
      NamedIsBound(u, states[n - 1].disk.ledger, LastBound(u, events, states, n - 1));
      assert Step(u, states[n - 1], events[n - 1]) == Some(states[n]);
    }
  }

  /** Whatever fails or stops and wherever, `open` selects exactly the generation the checkpoint
      was last bound to - at every moment of a run exactly when no final save of the run bound a
      generation that the ledger file no longer holds. */
  lemma RunsRecoverIff<G(!new)>(u: Setup<G>, events: seq<Event<G>>, states: seq<System<G>>)
    requires CollisionFree(u) && IsRun(u, events, states)
    ensures (forall n :: 0 <= n <= |events| ==> Selected(u, states[n].disk) == Some(LastBound(u, events, states, n)))
      <==> (forall i :: 0 <= i < |events| ==> Safe(states[i], events[i]))
  {
    if forall i :: 0 <= i < |events| ==> Safe(states[i], events[i]) {
      forall n | 0 <= n <= |events| ensures Selected(u, states[n].disk) == Some(LastBound(u, events, states, n)) {
        SafeRunsRecoverable(u, events, states, n);
        NamedIsBound(u, states[n].disk.ledger, LastBound(u, events, states, n));
      }
    } else {
      var i :| 0 <= i < |events| && !Safe(states[i], events[i]);
      var durable := states[i].memory.durable;
      assert Step(u, states[i], events[i]) == Some(states[i + 1]);
      NamedIsBound(u, states[i].disk.ledger, durable);
      assert LastBound(u, events, states, i + 1) == durable;
      assert Selected(u, states[i + 1].disk) == None;
    }
  }

  // ---- When a failed save leaves the old checkpoint, every step is safe ----

  /** No checkpoint save reports failure after reaching the disk. */
  predicate HonestSaves<G>(events: seq<Event<G>>) {
    forall i :: 0 <= i < |events| ==> !(events[i].Save? && events[i].outcome == LandedButFailed)
  }

  /** The proof mirrors the disk: it is the bound generation, except between save and publish. */
  predicate Mirrors<G(==)>(sys: System<G>, bound: G) {
    sys.memory.Up? ==>
      if sys.memory.phase.Saved? then sys.memory.phase.target == bound else sys.memory.durable == bound
  }

  lemma {:induction false} HonestRunsMirror<G(!new)>(u: Setup<G>, events: seq<Event<G>>, states: seq<System<G>>, n: nat)
    requires CollisionFree(u) && IsRun(u, events, states) && HonestSaves(events) && n <= |events|
    ensures Recoverable(u, states[n], LastBound(u, events, states, n))
    ensures Mirrors(states[n], LastBound(u, events, states, n))
    ensures forall i :: 0 <= i < n ==> Safe(states[i], events[i])
  {
    if n > 0 {
      HonestRunsMirror(u, events, states, n - 1);
      NamedIsBound(u, states[n - 1].disk.ledger, LastBound(u, events, states, n - 1));
      assert Step(u, states[n - 1], events[n - 1]) == Some(states[n]);
    }
  }

  /** Crash recovery, for saves that leave the old checkpoint when they fail: at every moment
      `open` selects the last bound generation, which is the published one or the one in flight;
      it was the target of some write of the run, or is the empty start; and between operations
      the proof is in the file and is what the checkpoint names - also after failed persists. */
  lemma {:induction false} CrashRecovery<G(!new)>(u: Setup<G>, events: seq<Event<G>>, states: seq<System<G>>, n: nat)
    requires CollisionFree(u) && IsRun(u, events, states) && HonestSaves(events) && n <= |events|
    ensures var sys, bound := states[n], LastBound(u, events, states, n);
            && Selected(u, sys.disk) == Some(bound)
            && Kept(u, sys.disk) == Some(bound)
            && (sys.memory.Up? && !sys.memory.phase.Saved? ==>
                  && sys.memory.durable == bound
                  && sys.disk.checkpoint == Bound(u.digest(sys.memory.durable))
                  && InFile(sys.disk.ledger, sys.memory.durable))
            && (sys.memory.Up? && sys.memory.phase.Saved? ==> sys.memory.phase.target == bound)
    ensures var bound := LastBound(u, events, states, n);
            bound == u.empty || exists i :: 0 <= i < n && events[i].Write? && events[i].target == bound
  {
    HonestRunsMirror(u, events, states, n);
    NamedIsBound(u, states[n].disk.ledger, LastBound(u, events, states, n));
    BoundWasWritten(u, events, states, n);
  }

  /** No generation is made up or mixed. */
  lemma {:induction false} BoundWasWritten<G(!new)>(u: Setup<G>, events: seq<Event<G>>, states: seq<System<G>>, n: nat)
    requires CollisionFree(u) && IsRun(u, events, states) && n <= |events|
    requires forall i :: 0 <= i < n ==> Safe(states[i], events[i])
    ensures FromWrites(u, events, n, LastBound(u, events, states, n))
    ensures states[n].memory.Up? ==>
      && FromWrites(u, events, n, states[n].memory.durable)
      && (!states[n].memory.phase.Idle? ==> FromWrites(u, events, n, states[n].memory.phase.target))
  {
    if n > 0 {
      BoundWasWritten(u, events, states, n - 1);
      assert forall g :: FromWrites(u, events, n - 1, g) ==> FromWrites(u, events, n, g);
      assert Step(u, states[n - 1], events[n - 1]) == Some(states[n]);
      if events[n - 1].Open? {
        SafeRunsRecoverable(u, events, states, n - 1);
        NamedIsBound(u, states[n - 1].disk.ledger, LastBound(u, events, states, n - 1));
      }
    }
  }

  predicate FromWrites<G(==)>(u: Setup<G>, events: seq<Event<G>>, n: nat, g: G)
    requires n <= |events|
  {
    g == u.empty || exists i :: 0 <= i < n && events[i].Write? && events[i].target == g
  }

  /** Reopening works exactly when the last bound generation passes validation. */
  lemma OpenSucceedsIff<G(!new)>(u: Setup<G>, events: seq<Event<G>>, states: seq<System<G>>, n: nat)
    requires CollisionFree(u) && IsRun(u, events, states) && HonestSaves(events) && n <= |events|
    requires states[n].memory.Down?
    ensures var bound := LastBound(u, events, states, n);
            Step(u, states[n], Open) == Some(states[n].(memory := if u.valid(bound) then Up(bound, Idle) else Down))
  {
    CrashRecovery(u, events, states, n);
  }

  /** Why honest saves are needed: a save that landed and failed, then a persist whose save did
      not land, then the final save - and nothing can be opened any more. */
  lemma DishonestSaveLosesTheRun<G(!new)>(u: Setup<G>, a: G, b: G)
    requires CollisionFree(u) && a != u.empty && b != u.empty && a != b
    ensures exists events: seq<Event<G>>, states: seq<System<G>> ::
      && IsRun(u, events, states) && |events| == 5
      && Selected(u, states[5].disk) == None
  {
    var events := [Write(a, Landed), Save(LandedButFailed), Write(b, Landed), Save(NotLanded), FinalSave(Landed)];
    var s0 := Start(u);
    var s1 := Step(u, s0, events[0]).value;
    var s2 := Step(u, s1, events[1]).value;
    assert s2.disk == Disk(LedgerFile(a, Some(u.empty)), Bound(u.digest(a)));
    var s3 := Step(u, s2, events[2]).value;
    assert s3.disk == Disk(LedgerFile(b, Some(a)), Bound(u.digest(a)));
    var s4 := Step(u, s3, events[3]).value;
    var s5 := Step(u, s4, events[4]).value;
    assert s5.disk == Disk(LedgerFile(b, Some(a)), Bound(u.digest(u.empty)));
    var states := [s0, s1, s2, s3, s4, s5];
    assert IsRun(u, events, states);
  }
}
