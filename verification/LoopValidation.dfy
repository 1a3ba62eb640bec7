/** `valid_loop_state`: rebuilds every redundant counter, set and queue of a loop state from its
    transcript and compares.  The redacted form without a transcript has its own branch, in
    module Redaction. */
module LoopValidation {
  import opened Prelude
  import opened Json
  import opened Sums
  import opened LoopStates

  // ---- Replay of the transcript ----

  /** What the transcript alone says: the calls in admission order and the running totals. */
  datatype Replayed = Replayed(
    calls: seq<PendingCall>,
    seenIds: set<string>,
    seenCalls: set<(string, string)>,
    toolCalls: map<string, nat>,
    completedIds: set<string>,
    outputBytes: nat,
    iterations: nat)

  const NOTHING: Replayed := Replayed([], {}, {}, map[], {}, 0, 0)

  function CountOf(m: map<string, nat>, key: string): nat {
    if key in m then m[key] else 0
  }

  function ReplayCall(host: Host, r: Replayed, name: string, args: Json, id: Option<string>): Option<Replayed> {
    if id.None? || id.value == "" || !args.Obj? then None else
    var fingerprint := host.fingerprint(args);
    if id.value in r.seenIds || (name, fingerprint) in r.seenCalls then None else
    var count :- CheckedAdd(CountOf(r.toolCalls, name), 1);
    var seenIds := r.seenIds + {id.value};
    if |seenIds| > U64_MAX then None
    else
      var call := PendingCall(id.value, name, args, fingerprint, r.iterations, |seenIds|, None);
      Some(r.(calls := r.calls + [call], seenIds := seenIds,
              seenCalls := r.seenCalls + {(name, fingerprint)},
              toolCalls := r.toolCalls[name := count]))
  }

  function ReplayResponse(host: Host, r: Replayed, response: Json, id: Option<string>): Option<Replayed> {
    if id.None? || id.value == "" || id.value !in r.seenIds || id.value in r.completedIds then None else
    var bytes :- CheckedAdd(r.outputBytes, host.size(response));
    Some(r.(completedIds := r.completedIds + {id.value}, outputBytes := bytes))
  }

  function ReplayPart(host: Host, r: Replayed, part: Part): Option<Replayed> {
    match part
    case FunctionCall(name, args, id, _) => ReplayCall(host, r, name, args, id)
    case FunctionResponse(result, id, _) => ReplayResponse(host, r, result.response, id)
    case _ => Some(r)
  }

  function ReplayParts(host: Host, r: Replayed, parts: seq<Part>): Option<Replayed> {
    if parts == [] then Some(r)
    else
      var before :- ReplayParts(host, r, parts[..|parts| - 1]);
      ReplayPart(host, before, parts[|parts| - 1])
  }

  /** A content that counts as a model turn. */
  predicate IsTurn(host: Host, c: Content) {
    HasCall(c) || IsFinish(host, c)
  }

  function CountTurn(host: Host, r: Replayed, c: Content): Option<Replayed> {
    if !IsTurn(host, c) then Some(r)
    else
      var next :- CheckedAdd(r.iterations, 1);
      Some(r.(iterations := next))
  }

  function ReplayContent(host: Host, r: Replayed, c: Content): Option<Replayed> {
    var counted :- CountTurn(host, r, c);
    ReplayParts(host, counted, c.parts)
  }

  function Replay(host: Host, conversation: seq<Content>): Option<Replayed> {
    if conversation == [] then Some(NOTHING)
    else
      var before :- Replay(host, conversation[..|conversation| - 1]);
      ReplayContent(host, before, conversation[|conversation| - 1])
  }

  /** The calls no response in the transcript has answered, in admission order. */
  function Unanswered(calls: seq<PendingCall>, completed: set<string>): seq<PendingCall> {
    if calls == [] then []
    else
      var before := Unanswered(calls[..|calls| - 1], completed);
      var last := calls[|calls| - 1];
      if last.id in completed then before else before + [last]
  }

  /** Equal in everything but the recorded response. */
  predicate SameAdmission(actual: PendingCall, expected: PendingCall) {
    actual.(response := None) == expected.(response := None)
  }

  predicate SameQueue(actual: seq<PendingCall>, expected: seq<PendingCall>) {
    |actual| == |expected| && forall i :: 0 <= i < |actual| ==> SameAdmission(actual[i], expected[i])
  }

  /** Every redundant field of the state equals its replay. */
  predicate Matches(s: LoopState, r: Replayed) {
    && s.modelIterations == r.iterations
    && s.totalToolCalls == |r.seenIds| <= U64_MAX
    && s.toolCalls == r.toolCalls
    && s.seenIds == r.seenIds
    && s.seenCalls == r.seenCalls
    && SameQueue(s.pendingCalls, Unanswered(r.calls, r.completedIds))
    && s.toolOutputBytes == r.outputBytes
  }

  // ---- Terminal state and skill read accounting ----

  predicate ValidTerminal(host: Host, s: LoopState) {
    if s.finishedOutput.None? && s.finishSuccessor.None? && !s.finishAdmitted then true
    else
      && s.finishedOutput.Some? && s.finishSuccessor == s.finishedOutput && s.finishAdmitted
      && s.pendingCalls == []
      && s.conversation != []
      && AdmittedFinish(host, s.conversation[|s.conversation| - 1]) == Ok(s.finishedOutput)
  }

  /** The first pending read with this fingerprint. */
  function FindRead(pending: seq<PendingCall>, fingerprint: string): Option<PendingCall> {
    if pending == [] then None
    else if pending[0].name == READ && pending[0].fingerprint == fingerprint then Some(pending[0])
    else FindRead(pending[1..], fingerprint)
  }

  /** The skill whose pending, well-formed read holds this reservation. */
  function ReservationOf(pending: seq<PendingCall>, fingerprint: string): Option<string> {
    var call :- FindRead(pending, fingerprint);
    if IsReadInput(call.args) then Some(SkillId(call.args)) else None
  }

  /** The outstanding reservations of one skill. */
  function ReservedFor(pending: seq<PendingCall>, reserved: map<string, nat>, skill: string): map<string, nat> {
    map fp | fp in reserved && ReservationOf(pending, fp) == Some(skill) :: reserved[fp]
  }

  /** What `s` holds in reserve for one skill. */
  function Held(s: LoopState, skill: string): map<string, nat> {
    ReservedFor(s.pendingCalls, s.skillReservations, skill)
  }

  /** Each reservation belongs to a pending, well-formed read, within what its skill is charged. */
  ghost predicate ReadsTracked(s: LoopState) {
    && (forall skill <- s.skillReadBytes :: skill != "" && s.skillReadBytes[skill] <= SKILL_RESOURCE_READ_LIMIT)
    && (forall fp <- s.skillReservations :: ReservationOf(s.pendingCalls, fp).Some?)
    && (forall fp <- s.skillReservations ::
          var skill := ReservationOf(s.pendingCalls, fp).value;
          skill in s.skillReadBytes && Sum(Held(s, skill)) <= s.skillReadBytes[skill])
  }

  /** A skill with reservations holds some bytes: they are not all for empty pages. */
  ghost predicate HoldsBytes(s: LoopState) {
    forall fp <- s.skillReservations ::
      var skill := ReservationOf(s.pendingCalls, fp);
      skill.Some? ==> Sum(Held(s, skill.value)) > 0
  }

  ghost predicate ValidReadAccounting(s: LoopState) {
    ReadsTracked(s) && HoldsBytes(s)
  }

  /** The branch of `valid_loop_state` for a state that carries its transcript. */
  ghost predicate ValidTranscript(host: Host, s: LoopState) {
    && ValidReadAccounting(s)
    && ValidTerminal(host, s)
    && Replay(host, s.conversation).Some?
    && Matches(s, Replay(host, s.conversation).value)
  }

  // ---- The checks as the loops that perform them ----

  lemma {:induction false} PartsRejected(host: Host, r: Replayed, parts: seq<Part>, k: nat)
    requires k <= |parts| && ReplayParts(host, r, parts[..k]).None?
    ensures ReplayParts(host, r, parts).None?
    decreases |parts| - k
  {
    if k == |parts| {
      assert parts[..k] == parts;
    } else {
      assert parts[..k + 1][..k] == parts[..k];
      PartsRejected(host, r, parts, k + 1);
    }
  }

  lemma {:induction false} Rejected(host: Host, conversation: seq<Content>, k: nat)
    requires k <= |conversation| && Replay(host, conversation[..k]).None?
    ensures Replay(host, conversation).None?
    decreases |conversation| - k
  {
    if k == |conversation| {
      assert conversation[..k] == conversation;
    } else {
      assert conversation[..k + 1][..k] == conversation[..k];
      Rejected(host, conversation, k + 1);
    }
  }

  /** The validator's scan over the parts of one content. */
  method ScanParts(host: Host, start: Replayed, parts: seq<Part>) returns (r: Option<Replayed>)
    ensures r == ReplayParts(host, start, parts)
  {
    var calls, seenIds, seenCalls := start.calls, start.seenIds, start.seenCalls;
    var toolCalls, completedIds, outputBytes := start.toolCalls, start.completedIds, start.outputBytes;
    for j := 0 to |parts|
      invariant ReplayParts(host, start, parts[..j]) ==
        Some(Replayed(calls, seenIds, seenCalls, toolCalls, completedIds, outputBytes, start.iterations))
    {
      assert parts[..j + 1][..j] == parts[..j];
      match parts[j] {
        case FunctionCall(name, args, id, _) =>
          if id.None? || id.value == "" || !args.Obj? {
            PartsRejected(host, start, parts, j + 1);
            return None;
          }
          var fingerprint := host.fingerprint(args);
          if id.value in seenIds || (name, fingerprint) in seenCalls || CountOf(toolCalls, name) + 1 > U64_MAX {
            PartsRejected(host, start, parts, j + 1);
            return None;
          }
          seenIds := seenIds + {id.value};
          seenCalls := seenCalls + {(name, fingerprint)};
          toolCalls := toolCalls[name := CountOf(toolCalls, name) + 1];
          if |seenIds| > U64_MAX {
            PartsRejected(host, start, parts, j + 1);
            return None;
          }
          calls := calls + [PendingCall(id.value, name, args, fingerprint, start.iterations, |seenIds|, None)];
        case FunctionResponse(result, id, _) =>
          if id.None? || id.value == "" || id.value !in seenIds || id.value in completedIds
             || outputBytes + host.size(result.response) > U64_MAX {
            PartsRejected(host, start, parts, j + 1);
            return None;
          }
          completedIds := completedIds + {id.value};
          outputBytes := outputBytes + host.size(result.response);
        case _ =>
      }
    }
    assert parts[..|parts|] == parts;
    r := Some(Replayed(calls, seenIds, seenCalls, toolCalls, completedIds, outputBytes, start.iterations));
  }

  /** The validator's pass over the whole conversation. */
  method ScanConversation(host: Host, conversation: seq<Content>) returns (r: Option<Replayed>)
    ensures r == Replay(host, conversation)
  {
    var current := NOTHING;
    for i := 0 to |conversation|
      invariant Replay(host, conversation[..i]) == Some(current)
    {
      var content := conversation[i];
      ghost var before := current;
      assert conversation[..i + 1][..i] == conversation[..i];
      assert Replay(host, conversation[..i + 1]) == ReplayContent(host, before, content);
      if IsTurn(host, content) {
        if current.iterations + 1 > U64_MAX {
          Rejected(host, conversation, i + 1);
          return None;
        }
        current := current.(iterations := current.iterations + 1);
      }
      var scanned := ScanParts(host, current, content.parts);
      if scanned.None? {
        Rejected(host, conversation, i + 1);
        return None;
      }
      current := scanned.value;
    }
    assert conversation[..|conversation|] == conversation;
    r := Some(current);
  }

  // ---- Facts about replay used by the controller's proofs ----

  /** Well-formedness of every accepted replay: answered ids were admitted, and no two admitted
      calls share an id. */
  predicate Coherent(r: Replayed) {
    && r.completedIds <= r.seenIds
    && (forall i :: 0 <= i < |r.calls| ==> r.calls[i].id in r.seenIds)
    && (forall i, j :: 0 <= i < j < |r.calls| ==> r.calls[i].id != r.calls[j].id)
  }

  lemma PartCoherent(host: Host, r: Replayed, part: Part)
    requires Coherent(r) && ReplayPart(host, r, part).Some?
    ensures Coherent(ReplayPart(host, r, part).value)
    ensures ReplayPart(host, r, part).value.iterations == r.iterations
  {
  }

  lemma {:induction false} PartsCoherent(host: Host, r: Replayed, parts: seq<Part>)
    requires Coherent(r) && ReplayParts(host, r, parts).Some?
    ensures Coherent(ReplayParts(host, r, parts).value)
    ensures ReplayParts(host, r, parts).value.iterations == r.iterations
  {
    if parts != [] {
      var front, part := parts[..|parts| - 1], parts[|parts| - 1];
      PartsCoherent(host, r, front);
      PartCoherent(host, ReplayParts(host, r, front).value, part);
    }
  }

  lemma {:induction false} ReplayCoherent(host: Host, conversation: seq<Content>)
    requires Replay(host, conversation).Some?
    ensures Coherent(Replay(host, conversation).value)
  {
    if conversation != [] {
      var front, last := conversation[..|conversation| - 1], conversation[|conversation| - 1];
      ReplayCoherent(host, front);
      var counted := CountTurn(host, Replay(host, front).value, last).value;
      PartsCoherent(host, counted, last.parts);
    }
  }

  lemma ReplaySnoc(host: Host, conversation: seq<Content>, c: Content)
    ensures Replay(host, conversation + [c]) ==
      (match Replay(host, conversation) case None => None case Some(r) => ReplayContent(host, r, c))
  {
    assert (conversation + [c])[..|conversation|] == conversation;
  }
}
