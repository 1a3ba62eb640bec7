/** `invoke_collect`: bounded collection of a model's stream, attempt by attempt. */
module Collector {
  import opened Prelude

  datatype FinishReason = Stop | OtherReason

  datatype Part = Text(text: string) | Thinking(text: string) | OtherPart

  datatype Usage = Usage(input: nat, output: nat)

  /** One chunk of a stream; `usage` is its provider snapshot when that is valid. */
  datatype Response = Response(
    interrupted: bool, errorCode: bool, errorMessage: bool, finish: Option<FinishReason>,
    usage: Option<Usage>, partial: bool, turnComplete: bool, content: Option<seq<Part>>)

  datatype Item = Broken(kind: string) | Chunk(response: Response)

  /** What the provider does on one attempt. */
  datatype Attempt = Refuses(kind: string) | Streams(items: seq<Item>)

  datatype Error = RouteMismatch | Model(kind: string) | OutputTooLarge | InvalidJson | Rejected(reason: string)

  datatype Policy = CompleteText | TextOnlyKept

  datatype Evidence = Evidence(finish: Option<FinishReason>, turnComplete: bool, partial: bool)

  const NO_EVIDENCE := Evidence(None, false, false)
  const PROVIDER := "provider"

  /** `capture` says whether the caller asked for the reasoning bytes. */
  datatype Config = Config(maxRetries: nat, maxOutput: nat, maxReasoning: nat, policy: Policy, capture: bool,
                           accept: string -> Option<string>)

  datatype Collected = Collected(output: string, reasoning: string, complete: bool, evidence: Evidence, usage: Option<Usage>)

  const EMPTY := Collected("", "", false, NO_EVIDENCE, None)

  /** `u8::saturating_add(1)` on the retry budget. */
  function MaxAttempts(cfg: Config): nat {
    Min(255, cfg.maxRetries + 1)
  }

  // ---- The fold ----

  predicate Fails(r: Response) {
    r.interrupted || r.errorCode || r.errorMessage || (r.finish.Some? && r.finish.value != Stop)
  }

  /** A chunk that bears on completion; a bare metadata trailer does not. */
  predicate Meaningful(r: Response) {
    r.content.Some? || r.partial || r.finish.Some?
  }

  predicate Completes(r: Response) {
    r.turnComplete && !r.partial && r.finish == Some(Stop)
  }

  function AddPart(cfg: Config, acc: Collected, part: Part): Result<Collected, Error> {
    match part
    case Text(text) =>
      if |acc.output| + |text| > cfg.maxOutput then Err(OutputTooLarge) else Ok(acc.(output := acc.output + text))
    case Thinking(text) =>
      if !cfg.capture then if cfg.policy == CompleteText then Err(InvalidJson) else Ok(acc)
      else if |acc.reasoning| + |text| > cfg.maxReasoning then Err(OutputTooLarge)
      else Ok(acc.(reasoning := acc.reasoning + text))
    case OtherPart => if cfg.policy == CompleteText then Err(InvalidJson) else Ok(acc)
  }

  function AddParts(cfg: Config, acc: Collected, parts: seq<Part>): Result<Collected, Error> {
    if parts == [] then Ok(acc)
    else
      match AddParts(cfg, acc, parts[..|parts| - 1])
      case Err(e) => Err(e)
      case Ok(before) => AddPart(cfg, before, parts[|parts| - 1])
  }

  /** Usage and completion evidence of a chunk that did not fail. */
  function Note(acc: Collected, r: Response): Collected {
    var counted := if r.usage.Some? then acc.(usage := r.usage) else acc;
    if Meaningful(r) then
      counted.(complete := Completes(r), evidence := Evidence(r.finish, r.turnComplete, r.partial))
    else counted
  }

  function AddItem(cfg: Config, acc: Collected, item: Item): Result<Collected, Error> {
    match item
    case Broken(kind) => Err(Model(kind))
    case Chunk(r) =>
      if Fails(r) then Err(Model(PROVIDER))
      else if r.content.None? then Ok(Note(acc, r))
      else AddParts(cfg, Note(acc, r), r.content.value)
  }

  function AddItems(cfg: Config, items: seq<Item>): Result<Collected, Error> {
    if items == [] then Ok(EMPTY)
    else
      match AddItems(cfg, items[..|items| - 1])
      case Err(e) => Err(e)
      case Ok(before) => AddItem(cfg, before, items[|items| - 1])
  }

  /** How one attempt ends, before its text is validated. */
  function AttemptEnd(cfg: Config, attempt: Attempt): Result<Collected, Error> {
    match attempt
    case Refuses(kind) => Err(Model(kind))
    case Streams(items) =>
      match AddItems(cfg, items)
      case Err(e) => Err(e)
      case Ok(acc) => if acc.complete then Ok(acc) else Err(Model(PROVIDER))
  }

  // ---- What the fold means ----

  function ItemParts(item: Item): seq<Part> {
    if item.Chunk? && item.response.content.Some? then item.response.content.value else []
  }

  function TextOf(part: Part): string {
    if part.Text? then part.text else ""
  }

  function ThoughtOf(part: Part): string {
    if part.Thinking? then part.text else ""
  }

  /** All parts of the stream in order. */
  function AllParts(items: seq<Item>): seq<Part> {
    FlatMap(ItemParts, items)
  }

  function Texts(parts: seq<Part>): string {
    FlatMap(TextOf, parts)
  }

  function Thoughts(parts: seq<Part>): string {
    FlatMap(ThoughtOf, parts)
  }

  predicate Allowed(cfg: Config, part: Part) {
    part.Text? || (part.Thinking? && cfg.capture) || cfg.policy != CompleteText
  }

  predicate WithinBounds(cfg: Config, parts: seq<Part>) {
    && (forall i :: 0 <= i < |parts| ==> Allowed(cfg, parts[i]))
    && |Texts(parts)| <= cfg.maxOutput
    && (cfg.capture ==> |Thoughts(parts)| <= cfg.maxReasoning)
  }

  /** No item is broken or reports a failure. */
  predicate Sound(items: seq<Item>) {
    forall i :: 0 <= i < |items| ==> items[i].Chunk? && !Fails(items[i].response)
  }

  /** `i` is the last item with a property, or there is none. */
  predicate IsLast(items: seq<Item>, p: Response -> bool, i: Option<nat>)
    requires Sound(items)
  {
    if i.Some? then
      && i.value < |items| && p(items[i.value].response)
      && forall j :: i.value < j < |items| ==> !p(items[j].response)
    else forall j :: 0 <= j < |items| ==> !p(items[j].response)
  }

  predicate HasUsage(r: Response) {
    r.usage.Some?
  }

  lemma TextsSnoc(parts: seq<Part>, part: Part)
    ensures Texts(parts + [part]) == Texts(parts) + TextOf(part)
    ensures Thoughts(parts + [part]) == Thoughts(parts) + ThoughtOf(part)
  {
    FlatMapSnoc(TextOf, parts, part);
    FlatMapSnoc(ThoughtOf, parts, part);
  }

  /** The accumulator after all parts seen so far. */
  predicate Accumulates(cfg: Config, parts: seq<Part>, acc: Collected) {
    acc.output == Texts(parts) && acc.reasoning == if cfg.capture then Thoughts(parts) else ""
  }

  lemma AddPartMeans(cfg: Config, seen: seq<Part>, acc: Collected, part: Part)
    requires Accumulates(cfg, seen, acc) && WithinBounds(cfg, seen)
    ensures AddPart(cfg, acc, part).Ok? <==> WithinBounds(cfg, seen + [part])
    ensures AddPart(cfg, acc, part).Ok? ==> Accumulates(cfg, seen + [part], AddPart(cfg, acc, part).value)
  {
    TextsSnoc(seen, part);
    assert (seen + [part])[|seen|] == part;
    assert forall i :: 0 <= i < |seen| ==> (seen + [part])[i] == seen[i];
  }

  /** Bounds broken early stay broken. */
  lemma BoundsShrink(cfg: Config, parts: seq<Part>, part: Part)
    requires WithinBounds(cfg, parts + [part])
    ensures WithinBounds(cfg, parts)
  {
    TextsSnoc(parts, part);
    assert forall i :: 0 <= i < |parts| ==> (parts + [part])[i] == parts[i];
  }

  lemma {:induction false} BoundsShrinkAll(cfg: Config, parts: seq<Part>, more: seq<Part>)
    requires WithinBounds(cfg, parts + more)
    ensures WithinBounds(cfg, parts)
  {
    if more == [] {
      assert parts + more == parts;
    } else {
      assert parts + more == parts + more[..|more| - 1] + [more[|more| - 1]];
      BoundsShrink(cfg, parts + more[..|more| - 1], more[|more| - 1]);
      BoundsShrinkAll(cfg, parts, more[..|more| - 1]);
    }
  }

  /** Only output and reasoning change over the parts of a chunk. */
  lemma {:induction false} AddPartsMeans(cfg: Config, seen: seq<Part>, acc: Collected, parts: seq<Part>)
    requires Accumulates(cfg, seen, acc) && WithinBounds(cfg, seen)
    ensures AddParts(cfg, acc, parts).Ok? <==> WithinBounds(cfg, seen + parts)
    ensures AddParts(cfg, acc, parts).Ok? ==>
      var next := AddParts(cfg, acc, parts).value;
      Accumulates(cfg, seen + parts, next) && next == acc.(output := next.output, reasoning := next.reasoning)
  {
    if parts == [] {
      assert seen + parts == seen;
    } else {
      var front, last := parts[..|parts| - 1], parts[|parts| - 1];
      AddPartsMeans(cfg, seen, acc, front);
      assert seen + parts == (seen + front) + [last];
      if AddParts(cfg, acc, front).Ok? {
        AddPartMeans(cfg, seen + front, AddParts(cfg, acc, front).value, last);
      } else if WithinBounds(cfg, seen + parts) {
        BoundsShrink(cfg, seen + front, last);
      }
    }
  }

  /** What the stream read so far says about completion and usage. */
  ghost predicate Notes(items: seq<Item>, acc: Collected)
    requires Sound(items)
  {
    && (exists i: Option<nat> :: IsLast(items, Meaningful, i) &&
          (if i.Some? then
             var r := items[i.value].response;
             acc.complete == Completes(r) && acc.evidence == Evidence(r.finish, r.turnComplete, r.partial)
           else !acc.complete && acc.evidence == NO_EVIDENCE))
    && (exists i: Option<nat> :: IsLast(items, HasUsage, i) && acc.usage == if i.Some? then items[i.value].response.usage else None)
  }

  lemma LastSnoc(items: seq<Item>, item: Item, p: Response -> bool, i: Option<nat>)
    requires Sound(items) && item.Chunk? && Sound(items + [item]) && IsLast(items, p, i)
    ensures IsLast(items + [item], p, if p(item.response) then Some(|items|) else i)
  {
    assert (items + [item])[|items|] == item;
    assert forall j :: 0 <= j < |items| ==> (items + [item])[j] == items[j];
  }

  lemma NotesSnoc(items: seq<Item>, r: Response, acc: Collected)
    requires Sound(items) && Notes(items, acc) && !Fails(r)
    ensures Sound(items + [Chunk(r)]) && Notes(items + [Chunk(r)], Note(acc, r))
  {
    var more := items + [Chunk(r)];
    assert more[|items|] == Chunk(r);
    assert forall j :: 0 <= j < |items| ==> more[j] == items[j];
    var i: Option<nat> :| IsLast(items, Meaningful, i) &&
      (if i.Some? then
         var q := items[i.value].response;
         acc.complete == Completes(q) && acc.evidence == Evidence(q.finish, q.turnComplete, q.partial)
       else !acc.complete && acc.evidence == NO_EVIDENCE);
    LastSnoc(items, Chunk(r), Meaningful, i);
    var k: Option<nat> :| IsLast(items, HasUsage, k) && acc.usage == if k.Some? then items[k.value].response.usage else None;
    LastSnoc(items, Chunk(r), HasUsage, k);
  }

  /** The collector refines this description: collection succeeds exactly when no chunk is broken
      or failing and the parts are allowed and within bounds; then the text is the concatenation of
      all text parts, the reasoning that of all thinking parts, and completion and usage are those
      of the last chunks that carry any. */
  lemma {:induction false} AddItemsMeans(cfg: Config, items: seq<Item>)
    ensures AddItems(cfg, items).Ok? <==> Sound(items) && WithinBounds(cfg, AllParts(items))
    ensures AddItems(cfg, items).Ok? ==>
      Accumulates(cfg, AllParts(items), AddItems(cfg, items).value) && Notes(items, AddItems(cfg, items).value)
  {
    if items == [] {
      assert IsLast(items, Meaningful, None) && IsLast(items, HasUsage, None);
    } else {
      var front, last := items[..|items| - 1], items[|items| - 1];
      AddItemsMeans(cfg, front);
      assert items == front + [last];
      FlatMapSnoc(ItemParts, front, last);
      if AddItems(cfg, front).Ok? {
        AddItemMeans(cfg, front, AddItems(cfg, front).value, last);
      } else if Sound(items) && WithinBounds(cfg, AllParts(items)) {
        assert forall j :: 0 <= j < |front| ==> front[j] == items[j];
        BoundsShrinkAll(cfg, AllParts(front), ItemParts(last));
      }
    }
  }

  lemma AddItemMeans(cfg: Config, items: seq<Item>, acc: Collected, item: Item)
    requires Sound(items) && WithinBounds(cfg, AllParts(items))
    requires Accumulates(cfg, AllParts(items), acc) && Notes(items, acc)
    requires AllParts(items + [item]) == AllParts(items) + ItemParts(item)
    ensures AddItem(cfg, acc, item).Ok? <==> Sound(items + [item]) && WithinBounds(cfg, AllParts(items + [item]))
    ensures AddItem(cfg, acc, item).Ok? ==>
      Accumulates(cfg, AllParts(items + [item]), AddItem(cfg, acc, item).value)
      && Notes(items + [item], AddItem(cfg, acc, item).value)
  {
    assert (items + [item])[|items|] == item;
    if item.Chunk? && !Fails(item.response) {
      var noted := Note(acc, item.response);
      NotesSnoc(items, item.response, acc);
      AddPartsMeans(cfg, AllParts(items), noted, ItemParts(item));
      if item.response.content.None? {
        assert AllParts(items) + [] == AllParts(items);
      } else if AddItem(cfg, acc, item).Ok? {
        NotesOf(items + [item], noted, AddItem(cfg, acc, item).value);
      }
    }
  }

  lemma NotesOf(items: seq<Item>, acc: Collected, next: Collected)
    requires Sound(items) && Notes(items, acc)
    requires next == acc.(output := next.output, reasoning := next.reasoning)
    ensures Notes(items, next)
  {
  }

  // ---- The loops ----

  lemma {:induction false} PartRefused(cfg: Config, acc: Collected, parts: seq<Part>, k: nat)
    requires k <= |parts| && AddParts(cfg, acc, parts[..k]).Err?
    ensures AddParts(cfg, acc, parts) == AddParts(cfg, acc, parts[..k])
    decreases |parts| - k
  {
    if k == |parts| {
      assert parts[..k] == parts;
    } else {
      assert parts[..k + 1][..k] == parts[..k];
      PartRefused(cfg, acc, parts, k + 1);
    }
  }

  lemma {:induction false} ItemRefused(cfg: Config, items: seq<Item>, k: nat)
    requires k <= |items| && AddItems(cfg, items[..k]).Err?
    ensures AddItems(cfg, items) == AddItems(cfg, items[..k])
    decreases |items| - k
  {
    if k == |items| {
      assert items[..k] == items;
    } else {
      assert items[..k + 1][..k] == items[..k];
      ItemRefused(cfg, items, k + 1);
    }
  }

  method CollectParts(cfg: Config, start: Collected, parts: seq<Part>) returns (r: Result<Collected, Error>)
    ensures r == AddParts(cfg, start, parts)
  {
    var output, reasoning := start.output, start.reasoning;
    for j := 0 to |parts|
      invariant AddParts(cfg, start, parts[..j]) == Ok(start.(output := output, reasoning := reasoning))
    {
      assert parts[..j + 1][..j] == parts[..j];
      var refused := None;
      match parts[j] {
        case Text(text) =>
          if |output| + |text| > cfg.maxOutput {
            refused := Some(OutputTooLarge);
          } else {
            output := output + text;
          }
        case Thinking(text) =>
          if cfg.capture {
            if |reasoning| + |text| > cfg.maxReasoning {
              refused := Some(OutputTooLarge);
            } else {
              reasoning := reasoning + text;
            }
          } else if cfg.policy == CompleteText {
            refused := Some(InvalidJson);
          }
        case OtherPart =>
          if cfg.policy == CompleteText {
            refused := Some(InvalidJson);
          }
      }
      if refused.Some? {
        PartRefused(cfg, start, parts, j + 1);
        return Err(refused.value);
      }
    }
    assert parts[..|parts|] == parts;
    r := Ok(start.(output := output, reasoning := reasoning));
  }

  /** One attempt: bind, stream, and check that the last meaningful chunk completed it. */
  method CollectAttempt(cfg: Config, attempt: Attempt) returns (r: Result<Collected, Error>)
    ensures r == AttemptEnd(cfg, attempt)
  {
    if attempt.Refuses? {
      return Err(Model(attempt.kind));
    }
    var items := attempt.items;
    var acc := EMPTY;
    for i := 0 to |items|
      invariant AddItems(cfg, items[..i]) == Ok(acc)
    {
      assert items[..i + 1][..i] == items[..i];
      if items[i].Broken? {
        ItemRefused(cfg, items, i + 1);
        return Err(Model(items[i].kind));
      }
      var response := items[i].response;
      if response.interrupted || response.errorCode || response.errorMessage
         || (response.finish.Some? && response.finish.value != Stop) {
        ItemRefused(cfg, items, i + 1);
        return Err(Model(PROVIDER));
      }
      if response.usage.Some? {
        acc := acc.(usage := response.usage);
      }
      if response.content.Some? || response.partial || response.finish.Some? {
        acc := acc.(complete := response.turnComplete && !response.partial && response.finish == Some(Stop),
                    evidence := Evidence(response.finish, response.turnComplete, response.partial));
      }
      if response.content.Some? {
        var added := CollectParts(cfg, acc, response.content.value);
        if added.Err? {
          ItemRefused(cfg, items, i + 1);
          return added;
        }
        acc := added.value;
      }
    }
    assert items[..|items|] == items;
    r := if acc.complete then Ok(acc) else Err(Model(PROVIDER));
  }

  // ---- Attempts ----

  /** The result of an invocation, with the number of attempts made. */
  datatype Outcome = Outcome(result: Result<Collected, Error>, attempts: nat)

  predicate Accepted(cfg: Config, attempt: Attempt) {
    AttemptEnd(cfg, attempt).Ok? && cfg.accept(AttemptEnd(cfg, attempt).value.output).None?
  }

  /** Complete text that validation refused. */
  predicate Refused(cfg: Config, attempt: Attempt) {
    AttemptEnd(cfg, attempt).Ok? && cfg.accept(AttemptEnd(cfg, attempt).value.output).Some?
  }

  predicate RefusedBefore(cfg: Config, provider: nat -> Attempt, n: nat) {
    forall k :: 0 <= k < n ==> Refused(cfg, provider(k))
  }

  /** `invoke_collect`.  It succeeds exactly when some attempt within the budget is accepted after
      attempts that only validation refused; the first other ending stops it; and the caller's
      reasoning buffer holds the accepted attempt's bytes, or nothing. */
  method InvokeCollect(cfg: Config, matches: bool, provider: nat -> Attempt) returns (outcome: Outcome, reasoning: string)
    requires cfg.maxRetries <= 255
    ensures !matches ==> outcome == Outcome(Err(RouteMismatch), 0)
    ensures outcome.result.Ok? <==>
      matches && exists k :: 0 <= k < MaxAttempts(cfg) && RefusedBefore(cfg, provider, k) && Accepted(cfg, provider(k))
    ensures matches ==>
      && 0 < outcome.attempts <= MaxAttempts(cfg)
      && RefusedBefore(cfg, provider, outcome.attempts - 1)
      && (var last := provider(outcome.attempts - 1);
          match AttemptEnd(cfg, last)
          case Err(e) => outcome.result == Err(e)
          case Ok(acc) =>
            match cfg.accept(acc.output)
            case None => outcome.result == Ok(acc)
            case Some(reason) => outcome.result == Err(Rejected(reason)) && outcome.attempts == MaxAttempts(cfg))
    ensures reasoning == if outcome.result.Ok? && cfg.capture then outcome.result.value.reasoning else ""
  {
    reasoning := "";
    if !matches {
      return Outcome(Err(RouteMismatch), 0), "";
    }
    var maxAttempts := Min(255, cfg.maxRetries + 1);
    var attempts := 0;
    while true
      invariant attempts < maxAttempts && reasoning == ""
      invariant RefusedBefore(cfg, provider, attempts)
      decreases maxAttempts - attempts
    {
      attempts := attempts + 1;
      var collected := CollectAttempt(cfg, provider(attempts - 1));
      match collected {
        case Err(e) =>
          return Outcome(Err(e), attempts), "";
        case Ok(acc) =>
          var refusal := cfg.accept(acc.output);
          if refusal.None? {
            if cfg.capture {
              reasoning := acc.reasoning;
            }
            return Outcome(Ok(acc), attempts), reasoning;
          }
          if attempts >= maxAttempts {
            return Outcome(Err(Rejected(refusal.value)), attempts), "";
          }
      }
    }
  }

  /** What a caller gets on success: the concatenated text of one attempt whose stream reported no
      failure, whose last meaningful chunk was a complete Stop, within the byte bounds. */
  lemma SuccessMeans(cfg: Config, attempt: Attempt)
    requires Accepted(cfg, attempt)
    ensures attempt.Streams? && Sound(attempt.items) && WithinBounds(cfg, AllParts(attempt.items))
    ensures var acc := AttemptEnd(cfg, attempt).value;
      && acc.output == Texts(AllParts(attempt.items)) && |acc.output| <= cfg.maxOutput
      && (cfg.capture ==> acc.reasoning == Thoughts(AllParts(attempt.items)))
      && (exists i: nat :: IsLast(attempt.items, Meaningful, Some(i)) && Completes(attempt.items[i].response))
      && (exists i: Option<nat> :: IsLast(attempt.items, HasUsage, i)
            && acc.usage == if i.Some? then attempt.items[i.value].response.usage else None)
  {
    AddItemsMeans(cfg, attempt.items);
    var acc := AttemptEnd(cfg, attempt).value;
    assert Notes(attempt.items, acc);
    var i: Option<nat> :| IsLast(attempt.items, Meaningful, i) &&
      (if i.Some? then acc.complete == Completes(attempt.items[i.value].response) else !acc.complete);
    assert i.Some?;
  }
}
