/** Runs of an agent loop that keeps its raw transcript: which runs keep every state acceptable
    to `valid_loop_state`. */
module LoopRuns {
  import opened Prelude
  import opened Json
  import opened Sums
  import opened LoopStates
  import opened LoopValidation
  import opened Redaction
  import opened LoopControl
  import opened LoopAccounting
  import opened LoopBookkeeping

  // ---- The counters of a turn follow the replay of its parts ----

  /** All of `Matches` but the iteration count. */
  predicate Tracks(s: LoopState, r: Replayed) {
    && s.totalToolCalls == |r.seenIds|
    && s.toolCalls == r.toolCalls
    && s.seenIds == r.seenIds
    && s.seenCalls == r.seenCalls
    && SameQueue(s.pendingCalls, Unanswered(r.calls, r.completedIds))
    && s.toolOutputBytes == r.outputBytes
  }

  /** One more unanswered call in the queue. */
  lemma QueueTracks(s: LoopState, r: Replayed, call: PendingCall)
    requires SameQueue(s.pendingCalls, Unanswered(r.calls, r.completedIds)) && call.id !in r.completedIds
    ensures SameQueue(s.pendingCalls + [call], Unanswered(r.calls + [call], r.completedIds))
  {
    assert (r.calls + [call])[..|r.calls|] == r.calls;
  }

  lemma CallReplays(host: Host, s: LoopState, r: Replayed, name: string, args: Json, id: string)
    requires Tracks(s, r) && r.iterations == s.modelIterations + 1 && CountsAgree(s.toolCalls, s.totalToolCalls)
    requires id != "" && args.Obj? && s.totalToolCalls < U64_MAX
    requires id !in s.seenIds && (name, host.fingerprint(args)) !in s.seenCalls
    ensures ReplayCall(host, r, name, args, Some(id)) ==
      Some(r.(calls := r.calls + [NewCall(host, s, name, args, id)], seenIds := r.seenIds + {id},
              seenCalls := r.seenCalls + {(name, host.fingerprint(args))},
              toolCalls := r.toolCalls[name := CountOf(r.toolCalls, name) + 1]))
  {
    if name in s.toolCalls {
      SumMember(s.toolCalls, name);
    }
  }

  lemma PartTracks(host: Host, allowed: set<string>, s: LoopState, r: Replayed, part: Part)
    requires Tracks(s, r) && Coherent(r) && r.iterations == s.modelIterations + 1
    requires CountsAgree(s.toolCalls, s.totalToolCalls)
    requires AdmitPart(host, allowed, s, part).Ok? && (part.FunctionCall? ==> s.totalToolCalls < U64_MAX)
    requires !part.FunctionResponse?
    ensures ReplayPart(host, r, part).Some?
    ensures Tracks(AdmitPart(host, allowed, s, part).value, ReplayPart(host, r, part).value)
  {
    if part.FunctionCall? {
      AdmitCallIs(host, allowed, s, part.name, part.args, part.id);
      CallReplays(host, s, r, part.name, part.args, part.id.value);
      QueueTracks(s, r, NewCall(host, s, part.name, part.args, part.id.value));
    }
  }

  lemma LastPartTracks(host: Host, allowed: set<string>, s: LoopState, r: Replayed, parts: seq<Part>)
    requires parts != [] && AdmitParts(host, allowed, s, parts).Ok? && !parts[|parts| - 1].FunctionResponse?
    requires ReplayParts(host, r, parts[..|parts| - 1]).Some?
    requires var before := AdmitParts(host, allowed, s, parts[..|parts| - 1]).value;
             var replayed := ReplayParts(host, r, parts[..|parts| - 1]).value;
             && Tracks(before, replayed) && Coherent(replayed) && replayed.iterations == before.modelIterations + 1
             && CountsAgree(before.toolCalls, before.totalToolCalls)
             && (parts[|parts| - 1].FunctionCall? ==> before.totalToolCalls < U64_MAX)
    ensures ReplayParts(host, r, parts).Some?
    ensures Tracks(AdmitParts(host, allowed, s, parts).value, ReplayParts(host, r, parts).value)
  {
    var front := parts[..|parts| - 1];
    PartTracks(host, allowed, AdmitParts(host, allowed, s, front).value, ReplayParts(host, r, front).value,
               parts[|parts| - 1]);
  }

  lemma {:induction false} PartsTrack(host: Host, allowed: set<string>, s: LoopState, r: Replayed, parts: seq<Part>)
    requires Tracks(s, r) && Coherent(r) && r.iterations == s.modelIterations + 1
    requires Booking(host, s, s.modelIterations + 1)
    requires (forall a :: host.fingerprint(a) != "") && "" !in allowed
    requires AdmitParts(host, allowed, s, parts).Ok? && s.totalToolCalls + CallCount(parts) <= U64_MAX
    requires forall i :: 0 <= i < |parts| ==> !parts[i].FunctionResponse?
    ensures ReplayParts(host, r, parts).Some?
    ensures Tracks(AdmitParts(host, allowed, s, parts).value, ReplayParts(host, r, parts).value)
  {
    if parts != [] {
      var front := parts[..|parts| - 1];
      PartsTrack(host, allowed, s, r, front);
      PartsCoherent(host, r, front);
      AdmitPartsFrame(host, allowed, s, front);
      AdmitPartsBooked(host, allowed, s, s.modelIterations + 1, front);
      LastPartTracks(host, allowed, s, r, parts);
    }
  }

  lemma OneTooMany(host: Host, allowed: set<string>, s: LoopState, r: Replayed, part: Part)
    requires Tracks(s, r) && s.totalToolCalls == U64_MAX
    requires part.FunctionCall? && AdmitPart(host, allowed, s, part).Ok?
    ensures ReplayPart(host, r, part).None?
  {
    assert |r.seenIds + {part.id.value}| == U64_MAX + 1;
  }

  /** The replay refuses the first call past the ceiling. */
  lemma {:induction false} PartsOverflow(host: Host, allowed: set<string>, s: LoopState, r: Replayed, parts: seq<Part>)
    requires Tracks(s, r) && Coherent(r) && r.iterations == s.modelIterations + 1
    requires Booking(host, s, s.modelIterations + 1)
    requires (forall a :: host.fingerprint(a) != "") && "" !in allowed
    requires AdmitParts(host, allowed, s, parts).Ok? && s.totalToolCalls + CallCount(parts) > U64_MAX
    requires forall i :: 0 <= i < |parts| ==> !parts[i].FunctionResponse?
    ensures ReplayParts(host, r, parts).None?
  {
    var front, part := parts[..|parts| - 1], parts[|parts| - 1];
    if s.totalToolCalls + CallCount(front) > U64_MAX {
      PartsOverflow(host, allowed, s, r, front);
    } else {
      PartsTrack(host, allowed, s, r, front);
      AdmitPartsBooked(host, allowed, s, s.modelIterations + 1, front);
      OneTooMany(host, allowed, AdmitParts(host, allowed, s, front).value, ReplayParts(host, r, front).value, part);
    }
  }

  /** Serialized values are never empty. */
  ghost predicate PositiveSizes(host: Host) {
    forall v :: host.size(v) > 0
  }

  /** A response among the parts raises the replayed output bytes. */
  lemma {:induction false} ResponsesCost(host: Host, r: Replayed, parts: seq<Part>)
    requires PositiveSizes(host) && ReplayParts(host, r, parts).Some?
    ensures ReplayParts(host, r, parts).value.outputBytes >= r.outputBytes
    ensures (exists i :: 0 <= i < |parts| && parts[i].FunctionResponse?) ==>
      ReplayParts(host, r, parts).value.outputBytes > r.outputBytes
  {
    if parts != [] {
      var front := parts[..|parts| - 1];
      ResponsesCost(host, r, front);
      if exists i :: 0 <= i < |parts| && parts[i].FunctionResponse? {
        var i :| 0 <= i < |parts| && parts[i].FunctionResponse?;
        if i < |parts| - 1 {
          assert front[i].FunctionResponse?;
        }
      }
    }
  }

  // ---- observe_model ----

  /** The state is fit for a raw run: its transcript replays to its counters and its books are in
      order. */
  ghost predicate RawFit(host: Host, s: LoopState) {
    ValidTranscript(host, s) && Booked(host, s)
  }

  lemma RawFitValid(host: Host, s: LoopState)
    requires RawFit(host, s)
    ensures ValidLoopState(host, s)
  {
    if s.conversation == [] {
      assert Unanswered(NOTHING.calls, NOTHING.completedIds) == [];
      assert s.totalToolCalls == 0;
      assert |Admissions(Disposed(s))| == |Admitted(s)| == 0;
      assert s.completedCalls == [] by {
        assert |Disposed(s)| == |s.completedCalls|;
      }
    }
  }

  lemma FreshFit(host: Host)
    ensures RawFit(host, FRESH)
  {
    assert Admitted(FRESH) == multiset{};
    assert Sum(map[]) == 0;
  }

  lemma CountedTracks(host: Host, s: LoopState)
    requires RawFit(host, s)
    ensures var r := Replay(host, s.conversation).value;
            var counted := r.(iterations := r.iterations + 1);
            Coherent(counted) && Tracks(s, counted) && counted.iterations == s.modelIterations + 1
  {
    ReplayCoherent(host, s.conversation);
  }

  lemma AdmittedIsTurn(host: Host, content: Content)
    requires AdmittedFinish(host, content).Ok?
    ensures IsTurn(host, content)
  {
  }

  lemma TurnIsCounted(host: Host, r: Replayed, content: Content)
    requires IsTurn(host, content) && r.iterations < U64_MAX
    ensures ReplayContent(host, r, content) ==
      ReplayParts(host, r.(iterations := r.iterations + 1), content.parts)
  {
  }

  lemma TurnAppended(host: Host, conversation: seq<Content>, r: Replayed, content: Content)
    requires Replay(host, conversation) == Some(r) && r.iterations < U64_MAX && AdmittedFinish(host, content).Ok?
    ensures Replay(host, conversation + [content]) ==
      ReplayParts(host, r.(iterations := r.iterations + 1), content.parts)
  {
    AdmittedIsTurn(host, content);
    TurnIsCounted(host, r, content);
    ReplaySnoc(host, conversation, content);
  }

  lemma TurnTracks(host: Host, allowed: set<string>, s: LoopState, counted: Replayed, parts: seq<Part>)
    requires Booked(host, s) && Tracks(s, counted) && Coherent(counted) && counted.iterations == s.modelIterations + 1
    requires (forall a :: host.fingerprint(a) != "") && "" !in allowed
    requires AdmitParts(host, allowed, s, parts).Ok? && s.totalToolCalls + CallCount(parts) <= U64_MAX
    requires forall i :: 0 <= i < |parts| ==> !parts[i].FunctionResponse?
    ensures ReplayParts(host, counted, parts).Some?
    ensures Tracks(AdmitParts(host, allowed, s, parts).value, ReplayParts(host, counted, parts).value)
    ensures ReplayParts(host, counted, parts).value.iterations == counted.iterations
    ensures AdmitParts(host, allowed, s, parts).value.totalToolCalls <= U64_MAX
  {
    LaterIteration(host, s, s.modelIterations, s.modelIterations + 1);
    AdmitPartsBooked(host, allowed, s, s.modelIterations + 1, parts);
    PartsTrack(host, allowed, s, counted, parts);
    PartsCoherent(host, counted, parts);
  }

  lemma EndMatches(s: LoopState, admitted: LoopState, r: Replayed, content: Content, finish: Option<Json>,
                   interactionId: Option<string>)
    requires Tracks(admitted, r) && admitted.totalToolCalls <= U64_MAX
    requires r.iterations == s.modelIterations + 1 && admitted.modelIterations == s.modelIterations
    ensures Matches(EndTurn(admitted, content, finish, interactionId), r)
  {
  }

  lemma TurnReplays(host: Host, allowed: set<string>, s: LoopState, content: Content, interactionId: Option<string>)
    requires RawFit(host, s) && s.modelIterations < U64_MAX && CallsFit(s, content)
    requires (forall a :: host.fingerprint(a) != "") && "" !in allowed
    requires ModelTurn(host, allowed, s, content, interactionId).Ok?
    requires !HasResponse(content)
    ensures var next := ModelTurn(host, allowed, s, content, interactionId).value;
            var r := Replay(host, next.conversation);
            r.Some? && Matches(next, r.value)
  {
    var r := Replay(host, s.conversation).value;
    var counted := r.(iterations := r.iterations + 1);
    var admitted := AdmitParts(host, allowed, s, content.parts).value;
    CountedTracks(host, s);
    TurnTracks(host, allowed, s, counted, content.parts);
    TurnAppended(host, s.conversation, r, content);
    AdmitPartsFrame(host, allowed, s, content.parts);
    EndMatches(s, admitted, ReplayParts(host, counted, content.parts).value, content,
               AdmittedFinish(host, content).value, interactionId);
  }

  lemma TurnPartsOverflow(host: Host, allowed: set<string>, s: LoopState, counted: Replayed, parts: seq<Part>)
    requires Booked(host, s) && Tracks(s, counted) && Coherent(counted) && counted.iterations == s.modelIterations + 1
    requires (forall a :: host.fingerprint(a) != "") && "" !in allowed
    requires AdmitParts(host, allowed, s, parts).Ok? && s.totalToolCalls + CallCount(parts) > U64_MAX
    requires forall i :: 0 <= i < |parts| ==> !parts[i].FunctionResponse?
    ensures ReplayParts(host, counted, parts).None?
  {
    LaterIteration(host, s, s.modelIterations, s.modelIterations + 1);
    PartsOverflow(host, allowed, s, counted, parts);
  }

  lemma TurnOverflows(host: Host, allowed: set<string>, s: LoopState, content: Content, interactionId: Option<string>)
    requires RawFit(host, s) && s.modelIterations < U64_MAX && !CallsFit(s, content)
    requires (forall a :: host.fingerprint(a) != "") && "" !in allowed
    requires ModelTurn(host, allowed, s, content, interactionId).Ok?
    requires !HasResponse(content)
    ensures !ValidTranscript(host, ModelTurn(host, allowed, s, content, interactionId).value)
  {
    var r := Replay(host, s.conversation).value;
    CountedTracks(host, s);
    TurnPartsOverflow(host, allowed, s, r.(iterations := r.iterations + 1), content.parts);
    TurnAppended(host, s.conversation, r, content);
    TurnFrame(host, allowed, s, content, interactionId);
  }

  lemma TurnTerminal(host: Host, allowed: set<string>, s: LoopState, content: Content, interactionId: Option<string>)
    requires ModelTurn(host, allowed, s, content, interactionId).Ok?
    ensures ValidTerminal(host, ModelTurn(host, allowed, s, content, interactionId).value) <==>
      (IsFinish(host, content) ==> s.pendingCalls == [])
  {
    if IsFinish(host, content) {
      FinishHasNoCalls(host, allowed, s, content);
    }
  }

  /** A response that is in order: no tool result among its parts, no finish over open calls, and
      calls that can still be counted. */
  predicate GoodTurn(host: Host, s: LoopState, content: Content) {
    !HasResponse(content) && (IsFinish(host, content) ==> s.pendingCalls == []) && CallsFit(s, content)
  }

  /** A model turn leaves an acceptable state exactly when its content carries no tool response,
      does not finish the loop while calls are pending, and has calls that can still be counted.  A
      response part in model content is never recorded in the counters, so the replay disagrees. */
  lemma ModelTurnValidIff(host: Host, allowed: set<string>, s: LoopState, content: Content,
                          interactionId: Option<string>)
    requires RawFit(host, s) && s.modelIterations < U64_MAX && PositiveSizes(host)
    requires (forall a :: host.fingerprint(a) != "") && "" !in allowed
    requires ModelTurn(host, allowed, s, content, interactionId).Ok?
    ensures var next := ModelTurn(host, allowed, s, content, interactionId).value;
            && (ValidLoopState(host, next) <==> GoodTurn(host, s, content))
            && (GoodTurn(host, s, content) ==> RawFit(host, next))
  {
    var next := ModelTurn(host, allowed, s, content, interactionId).value;
    TurnFrame(host, allowed, s, content, interactionId);
    if HasResponse(content) {
      TurnWithResponseInvalid(host, allowed, s, content, interactionId);
    } else if !CallsFit(s, content) {
      TurnOverflows(host, allowed, s, content, interactionId);
    } else {
      TurnTerminal(host, allowed, s, content, interactionId);
      AccountingMorePending(s, next);
      TurnReplays(host, allowed, s, content, interactionId);
      ModelTurnBookedIff(host, allowed, s, content, interactionId);
    }
  }

  lemma TurnWithResponseInvalid(host: Host, allowed: set<string>, s: LoopState, content: Content,
                                interactionId: Option<string>)
    requires RawFit(host, s) && PositiveSizes(host)
    requires ModelTurn(host, allowed, s, content, interactionId).Ok?
    requires HasResponse(content)
    ensures !ValidTranscript(host, ModelTurn(host, allowed, s, content, interactionId).value)
  {
    TurnFrame(host, allowed, s, content, interactionId);
    ReplaySnoc(host, s.conversation, content);
    var r := Replay(host, s.conversation).value;
    if ReplayContent(host, r, content).Some? {
      ResponsesCost(host, CountTurn(host, r, content).value, content.parts);
    }
  }

  // ---- before_model ----

  /** Request contents that count as no turn and carry no call or response. */
  predicate Plain(host: Host, c: Content) {
    !IsTurn(host, c) && !HasResponse(c)
  }

  lemma {:induction false} QuietParts(host: Host, r: Replayed, parts: seq<Part>)
    requires forall i :: 0 <= i < |parts| ==> !parts[i].FunctionCall? && !parts[i].FunctionResponse?
    ensures ReplayParts(host, r, parts) == Some(r)
  {
    if parts != [] {
      QuietParts(host, r, parts[..|parts| - 1]);
    }
  }

  lemma {:induction false} OrphanResponse(host: Host, r: Replayed, parts: seq<Part>)
    requires forall i :: 0 <= i < |parts| ==> !parts[i].FunctionCall?
    requires exists i :: 0 <= i < |parts| && parts[i].FunctionResponse?
    requires r.seenIds == {}
    ensures ReplayParts(host, r, parts).None?
  {
    var front := parts[..|parts| - 1];
    if exists i :: 0 <= i < |front| && front[i].FunctionResponse? {
      OrphanResponse(host, r, front);
    } else {
      QuietParts(host, r, front);
    }
  }

  lemma {:induction false} IterationsGrow(host: Host, conversation: seq<Content>)
    requires conversation != [] && Replay(host, conversation).Some?
    ensures Replay(host, conversation[..|conversation| - 1]).Some?
    ensures Replay(host, conversation[..|conversation| - 1]).value.iterations <= Replay(host, conversation).value.iterations
    ensures IsTurn(host, conversation[|conversation| - 1]) ==> Replay(host, conversation).value.iterations > 0
  {
    var front, last := conversation[..|conversation| - 1], conversation[|conversation| - 1];
    var counted := CountTurn(host, Replay(host, front).value, last).value;
    PartsIterations(host, counted, last.parts);
  }

  lemma {:induction false} PartsIterations(host: Host, r: Replayed, parts: seq<Part>)
    requires ReplayParts(host, r, parts).Some?
    ensures ReplayParts(host, r, parts).value.iterations == r.iterations
  {
    if parts != [] {
      PartsIterations(host, r, parts[..|parts| - 1]);
    }
  }

  /** Contents replay to nothing exactly when every one of them is plain. */
  lemma {:induction false} PlainReplaysToNothing(host: Host, contents: seq<Content>)
    ensures Replay(host, contents) == Some(NOTHING) <==> forall c <- contents :: Plain(host, c)
    ensures Replay(host, contents).Some? && Replay(host, contents).value.iterations == 0 ==>
      Replay(host, contents) == Some(NOTHING)
  {
    if contents != [] {
      var front, last := contents[..|contents| - 1], contents[|contents| - 1];
      PlainReplaysToNothing(host, front);
      assert contents == front + [last];
      if Plain(host, last) {
        QuietParts(host, NOTHING, last.parts);
      }
      if Replay(host, contents).Some? && Replay(host, contents).value.iterations == 0 {
        IterationsGrow(host, contents);
        assert Replay(host, front) == Some(NOTHING);
        if HasResponse(last) {
          OrphanResponse(host, NOTHING, last.parts);
        }
      }
    }
  }

  /** Starting a loop on request contents leaves an acceptable state exactly when the contents
      are plain. */
  lemma BeforeModelValidIff(host: Host, s: LoopState, contents: seq<Content>)
    requires RawFit(host, s) && s.conversation == []
    ensures var t := BeforeModel(s, contents).0;
            && (ValidLoopState(host, t) <==> forall c <- contents :: Plain(host, c))
            && ((forall c <- contents :: Plain(host, c)) ==> RawFit(host, t))
  {
    var t := BeforeModel(s, contents).0;
    assert Replay(host, s.conversation) == Some(NOTHING);
    PlainReplaysToNothing(host, contents);
    BookedFrame(host, s, t);
    AccountingMorePending(s, t);
    if contents != [] {
      assert t.modelIterations == 0 && t.finishedOutput.None?;
      assert !t.finishAdmitted;
      assert ValidTerminal(host, t);
      if Replay(host, contents) == Some(NOTHING) {
        assert RawFit(host, t);
      }
    } else {
      assert t == s;
      RawFitValid(host, s);
    }
  }

  // ---- observe_tool and complete_pending ----

  lemma {:induction false} UnansweredWithout(calls: seq<PendingCall>, completed: set<string>, i: nat)
    requires forall j, k :: 0 <= j < k < |calls| ==> calls[j].id != calls[k].id
    requires i < |Unanswered(calls, completed)|
    ensures var queue := Unanswered(calls, completed);
            Unanswered(calls, completed + {queue[i].id}) == Without(queue, i)
    ensures exists j :: 0 <= j < |calls| && calls[j] == Unanswered(calls, completed)[i] && calls[j].id !in completed
  {
    var front, last := calls[..|calls| - 1], calls[|calls| - 1];
    var before := Unanswered(front, completed);
    var queue := Unanswered(calls, completed);
    if i < |before| {
      UnansweredWithout(front, completed, i);
      var j :| 0 <= j < |front| && front[j] == before[i] && front[j].id !in completed;
      assert calls[j] == queue[i] && last.id != queue[i].id;
      if last.id !in completed {
        assert queue == before + [last];
        assert Without(queue, i) == Without(before, i) + [last];
      }
    } else {
      assert queue == before + [last] && queue[i] == last;
      UnansweredMissing(front, completed, last.id);
      assert Without(queue, i) == before;
    }
  }

  lemma {:induction false} UnansweredMissing(calls: seq<PendingCall>, completed: set<string>, id: string)
    requires forall j :: 0 <= j < |calls| ==> calls[j].id != id
    ensures Unanswered(calls, completed + {id}) == Unanswered(calls, completed)
  {
    if calls != [] {
      UnansweredMissing(calls[..|calls| - 1], completed, id);
    }
  }

  lemma QueueWithout(queue: seq<PendingCall>, expected: seq<PendingCall>, i: nat)
    requires SameQueue(queue, expected) && i < |queue|
    ensures SameQueue(Without(queue, i), Without(expected, i))
    ensures queue[i].id == expected[i].id
  {
    assert SameAdmission(queue[i], expected[i]);
    forall j | 0 <= j < |queue| - 1 ensures SameAdmission(Without(queue, i)[j], Without(expected, i)[j]) {
      var k := if j < i then j else j + 1;
      assert SameAdmission(queue[k], expected[k]);
    }
  }

  /** A pending call is one the transcript admitted and has not answered. */
  lemma PendingUnanswered(host: Host, s: LoopState, i: nat)
    requires RawFit(host, s) && i < |s.pendingCalls|
    ensures var r := Replay(host, s.conversation).value;
            var id := s.pendingCalls[i].id;
            && id in r.seenIds && id !in r.completedIds && id != ""
            && SameQueue(Without(s.pendingCalls, i), Unanswered(r.calls, r.completedIds + {id}))
  {
    var r := Replay(host, s.conversation).value;
    assert Coherent(r) by {
      ReplayCoherent(host, s.conversation);
    }
    QueueWithout(s.pendingCalls, Unanswered(r.calls, r.completedIds), i);
    UnansweredWithout(r.calls, r.completedIds, i);
  }

  lemma ResponseContentReplays(host: Host, r: Replayed, call: PendingCall, response: Json)
    requires call.id in r.seenIds && call.id !in r.completedIds && call.id != ""
    requires r.outputBytes + host.size(response) <= U64_MAX
    ensures ReplayContent(host, r, ToolResponseContent(call, response)) ==
      Some(r.(completedIds := r.completedIds + {call.id}, outputBytes := r.outputBytes + host.size(response)))
  {
    var c := ToolResponseContent(call, response);
    assert !IsTurn(host, c);
    assert c.parts[..0] == [];
    assert ReplayParts(host, r, c.parts[..|c.parts| - 1]) == Some(r);
  }

  lemma ResponseContentOverflows(host: Host, r: Replayed, call: PendingCall, response: Json)
    requires r.outputBytes + host.size(response) > U64_MAX
    ensures ReplayContent(host, r, ToolResponseContent(call, response)).None?
  {
    var c := ToolResponseContent(call, response);
    assert !IsTurn(host, c);
    assert c.parts[..0] == [];
    assert ReplayParts(host, r, c.parts[..|c.parts| - 1]) == Some(r);
  }

  /** A response past the ceiling is refused. */
  lemma ResponseOverflows(host: Host, s: LoopState, i: nat, response: Json)
    requires RawFit(host, s) && i < |s.pendingCalls| && s.toolOutputBytes + host.size(response) > U64_MAX
    ensures Replay(host, s.conversation + [ToolResponseContent(s.pendingCalls[i], response)]).None?
  {
    ResponseContentOverflows(host, Replay(host, s.conversation).value, s.pendingCalls[i], response);
    ReplaySnoc(host, s.conversation, ToolResponseContent(s.pendingCalls[i], response));
  }

  /** Appending the response of a pending call replays to the state with that call completed. */
  lemma ResponseReplays(host: Host, s: LoopState, i: nat, response: Json)
    requires RawFit(host, s) && i < |s.pendingCalls|
    requires s.toolOutputBytes + host.size(response) <= U64_MAX
    ensures var t := Complete(host, s, i, response);
            var r := Replay(host, s.conversation + [ToolResponseContent(s.pendingCalls[i], response)]);
            r.Some? && Matches(t, r.value)
  {
    var r := Replay(host, s.conversation).value;
    PendingUnanswered(host, s, i);
    ResponseContentReplays(host, r, s.pendingCalls[i], response);
    ReplaySnoc(host, s.conversation, ToolResponseContent(s.pendingCalls[i], response));
  }

  /** The ledger's copy of a node, as far as reads are concerned. */
  ghost predicate ReadsCopy(s: LoopState, persisted: LoopState) {
    persisted.pendingCalls == s.pendingCalls && ReadsTracked(persisted)
  }

  lemma AnsweredTracked(host: Host, s: LoopState, persisted: LoopState, i: nat, response: Json, t: LoopState)
    requires ReadsTracked(s) && ReadsCopy(s, persisted) && Answers(host, s, persisted, i, response, t)
    ensures ReadsTracked(t)
  {
    if s.pendingCalls[i].name == READ {
      AccountingReadDone(persisted, t, i);
    } else {
      AccountingOtherDone(s, t, i);
    }
  }

  /** The bytes of a response can be counted in 64 bits. */
  predicate BytesFit(host: Host, s: LoopState, response: Json) {
    s.toolOutputBytes + host.size(response) <= U64_MAX
  }

  /** The answer to this call leaves the other reads of its skill with bytes in reserve, and can be
      counted. */
  ghost predicate GoodAnswer(host: Host, s: LoopState, persisted: LoopState, name: string, fp: string, response: Json) {
    (name == READ ==> LeavesBytes(persisted, fp)) && BytesFit(host, s, response)
  }

  lemma AnsweredHoldsIff(host: Host, s: LoopState, persisted: LoopState, i: nat, response: Json, t: LoopState)
    requires ValidReadAccounting(s) && ReadsCopy(s, persisted) && HoldsBytes(persisted)
    requires Answers(host, s, persisted, i, response, t)
    requires s.pendingCalls[i].name == READ ==> s.pendingCalls[i].fingerprint in persisted.skillReservations
    ensures HoldsBytes(t) <==>
      (s.pendingCalls[i].name == READ ==> LeavesBytes(persisted, s.pendingCalls[i].fingerprint))
  {
    if s.pendingCalls[i].name == READ {
      ReadDoneHoldsIff(persisted, t, i);
    } else {
      AccountingOtherDone(s, t, i);
    }
  }

  lemma AnsweredBooked(host: Host, s: LoopState, persisted: LoopState, i: nat, response: Json, t: LoopState)
    requires Booked(host, s) && Answers(host, s, persisted, i, response, t)
    ensures Booked(host, t)
  {
    CompleteBooked(host, s, i, response);
    BookedFrame(host, Complete(host, s, i, response), t);
  }

  lemma AnsweredTerminal(host: Host, s: LoopState, persisted: LoopState, i: nat, response: Json, t: LoopState)
    requires ValidTerminal(host, s) && Answers(host, s, persisted, i, response, t)
    ensures ValidTerminal(host, t)
  {
    assert !s.finishAdmitted;
  }

  lemma AnsweredFit(host: Host, s: LoopState, persisted: LoopState, i: nat, response: Json, t: LoopState)
    requires RawFit(host, s) && Answers(host, s, persisted, i, response, t)
    requires ValidReadAccounting(t) && BytesFit(host, s, response)
    requires t.conversation == s.conversation + [ToolResponseContent(s.pendingCalls[i], response)]
    ensures RawFit(host, t)
  {
    assert Booked(host, t) by {
      AnsweredBooked(host, s, persisted, i, response, t);
    }
    assert Replay(host, t.conversation).Some? && Matches(t, Replay(host, t.conversation).value) by {
      ResponseReplays(host, s, i, response);
    }
    AnsweredTerminal(host, s, persisted, i, response, t);
  }

  lemma AnsweredOverflows(host: Host, s: LoopState, persisted: LoopState, i: nat, response: Json, t: LoopState)
    requires RawFit(host, s) && Answers(host, s, persisted, i, response, t) && !BytesFit(host, s, response)
    requires t.conversation == s.conversation + [ToolResponseContent(s.pendingCalls[i], response)]
    ensures !ValidLoopState(host, t)
  {
    ResponseOverflows(host, s, i, response);
  }

  lemma RawFitAccounting(host: Host, s: LoopState)
    requires RawFit(host, s)
    ensures ValidReadAccounting(s)
  {
  }

  lemma AccountingNeeded(host: Host, s: LoopState)
    ensures !HoldsBytes(s) ==> !ValidLoopState(host, s)
  {
  }

  lemma AnsweredWithin(host: Host, s: LoopState, persisted: LoopState, i: nat, response: Json, t: LoopState)
    requires RawFit(host, s) && ReadsCopy(s, persisted)
    requires Answers(host, s, persisted, i, response, t) && BytesFit(host, s, response)
    requires t.conversation == s.conversation + [ToolResponseContent(s.pendingCalls[i], response)]
    ensures HoldsBytes(t) ==> ValidLoopState(host, t) && RawFit(host, t)
    ensures !HoldsBytes(t) ==> !ValidLoopState(host, t)
  {
    AccountingNeeded(host, t);
    if HoldsBytes(t) {
      RawFitAccounting(host, s);
      AnsweredTracked(host, s, persisted, i, response, t);
      AnsweredFit(host, s, persisted, i, response, t);
      RawFitValid(host, t);
    }
  }

  /** A tool answer leaves an acceptable state exactly when its bytes can be counted and the other
      reads of its skill still hold some. */
  lemma AnsweredValidIff(host: Host, s: LoopState, persisted: LoopState, i: nat, response: Json, t: LoopState)
    requires RawFit(host, s) && ReadsCopy(s, persisted) && HoldsBytes(persisted)
    requires Answers(host, s, persisted, i, response, t)
    requires s.pendingCalls[i].name == READ ==> s.pendingCalls[i].fingerprint in persisted.skillReservations
    requires t.conversation == s.conversation + [ToolResponseContent(s.pendingCalls[i], response)]
    ensures var good := GoodAnswer(host, s, persisted, s.pendingCalls[i].name, s.pendingCalls[i].fingerprint, response);
            (ValidLoopState(host, t) <==> good) && (good ==> RawFit(host, t))
  {
    if !BytesFit(host, s, response) {
      AnsweredOverflows(host, s, persisted, i, response, t);
    } else {
      RawFitAccounting(host, s);
      AnsweredHoldsIff(host, s, persisted, i, response, t);
      AnsweredWithin(host, s, persisted, i, response, t);
    }
  }

  /** Answering a tool call leaves an acceptable state exactly when its bytes can be counted and the
      other reads of its skill still hold some. */
  lemma ToolDoneValidIff(host: Host, s: LoopState, persisted: LoopState, name: string, input: Json, response: Json)
    requires RawFit(host, s) && ReadsCopy(s, persisted) && HoldsBytes(persisted)
    requires ToolDone(host, true, s, persisted, name, input, response).Ok?
    ensures var t := ToolDone(host, true, s, persisted, name, input, response).value;
            var good := GoodAnswer(host, s, persisted, name, host.fingerprint(input), response);
            (ValidLoopState(host, t) <==> good) && (good ==> RawFit(host, t))
  {
    var i := ToolDoneAnswers(host, true, s, persisted, name, input, response);
    AnsweredValidIff(host, s, persisted, i, response, ToolDone(host, true, s, persisted, name, input, response).value);
  }
}
