/** Usage over a model stream: `collect_payloads` keeps the payload chunks and the newest usage
    snapshot, `attach` puts the telemetry of an invocation on the last payload. */
module Usage {
  import opened Prelude
  import opened Json

  const METADATA_KEY := "workflow_kit.model_telemetry_v1"

  /** Usage metadata of a chunk; `counters` is the raw provider snapshot when it is valid. */
  datatype UsageMetadata = UsageMetadata(counters: Option<string>, cost: Option<string>)

  /** `fails` is the verdict of `response_failure`, `payload` that of `response_has_model_payload`;
      `content` stands for everything that neither step touches. */
  datatype Response = Response(
    fails: bool, payload: bool, content: string, usage: Option<UsageMetadata>, metadata: Option<Json>)

  /** An item of the raw stream: a chunk, or an error of the stream. */
  datatype Item = Broken | Chunk(response: Response)

  datatype Failure = StreamError | ResponseFailure | Unreachable

  function Counters(r: Response): Option<string> {
    var usage :- r.usage;
    usage.counters
  }

  // ---- What the two steps should give ----

  predicate Sound(items: seq<Item>) {
    forall i :: 0 <= i < |items| ==> items[i].Chunk? && !items[i].response.fails
  }

  function PayloadOf(item: Item): seq<Response> {
    if item.Chunk? && item.response.payload then [item.response] else []
  }

  /** The payload chunks in order. */
  function Payloads(items: seq<Item>): seq<Response> {
    FlatMap(PayloadOf, items)
  }

  /** The usage metadata of the last chunk with a valid snapshot, contentless chunks included. */
  function LatestUsage(items: seq<Item>): Option<UsageMetadata> {
    if items == [] then None
    else
      var last := items[|items| - 1];
      if last.Chunk? && Counters(last.response).Some? then last.response.usage
      else LatestUsage(items[..|items| - 1])
  }

  /** `LatestUsage` is what it says: the usage of the last chunk with a valid snapshot. */
  lemma {:induction false} LatestUsageIsLast(items: seq<Item>) returns (i: Option<nat>)
    ensures i.None? ==> LatestUsage(items).None?
    ensures i.None? ==> forall j :: 0 <= j < |items| && items[j].Chunk? ==> Counters(items[j].response).None?
    ensures i.Some? ==>
      && i.value < |items| && items[i.value].Chunk? && Counters(items[i.value].response).Some?
      && LatestUsage(items) == items[i.value].response.usage
      && forall j :: i.value < j < |items| && items[j].Chunk? ==> Counters(items[j].response).None?
  {
    if items == [] {
      i := None;
    } else if items[|items| - 1].Chunk? && Counters(items[|items| - 1].response).Some? {
      i := Some(|items| - 1);
    } else {
      i := LatestUsageIsLast(items[..|items| - 1]);
    }
  }

  function WithLastUsage(payloads: seq<Response>, usage: Option<UsageMetadata>): seq<Response> {
    if payloads == [] || usage.None? then payloads
    else payloads[|payloads| - 1 := payloads[|payloads| - 1].(usage := usage)]
  }

  // ---- collect_payloads ----

  lemma SoundPrefix(items: seq<Item>, i: nat)
    requires i < |items| && (items[i].Broken? || items[i].response.fails)
    ensures !Sound(items)
  {
  }

  method CollectPayloads(raw: seq<Item>) returns (r: Result<seq<Response>, Failure>)
    ensures r.Ok? <==> Sound(raw) && Payloads(raw) != []
    ensures r.Ok? ==> r.value == WithLastUsage(Payloads(raw), LatestUsage(raw))
    ensures Sound(raw) && r.Err? ==> r.error == Unreachable
  {
    var items, latest := [], None;
    for i := 0 to |raw|
      invariant Sound(raw[..i])
      invariant items == Payloads(raw[..i])
      invariant latest == LatestUsage(raw[..i])
    {
      assert raw[..i + 1] == raw[..i] + [raw[i]];
      FlatMapSnoc(PayloadOf, raw[..i], raw[i]);
      assert raw[..i + 1][..i] == raw[..i];
      if raw[i].Broken? {
        SoundPrefix(raw, i);
        return Err(StreamError);
      }
      var response := raw[i].response;
      if response.fails {
        SoundPrefix(raw, i);
        return Err(ResponseFailure);
      }
      if Counters(response).Some? {
        latest := response.usage;
      }
      if !response.payload {
        continue;
      }
      items := items + [response];
    }
    assert raw[..|raw|] == raw;
    if items == [] {
      return Err(Unreachable);
    }
    if latest.Some? {
      items := items[|items| - 1 := items[|items| - 1].(usage := latest)];
    }
    r := Ok(items);
  }

  // ---- attach ----

  /** Provider metadata without a look-alike of the telemetry key. */
  function Stripped(r: Response): Response {
    if r.metadata.Some? && r.metadata.value.Obj? then
      r.(metadata := Some(Obj(r.metadata.value.fields - {METADATA_KEY})))
    else r
  }

  function StrippedAll(items: seq<Response>): seq<Response> {
    seq(|items|, i requires 0 <= i < |items| => Stripped(items[i]))
  }

  /** The counters the telemetry reports: those of the last item with a valid snapshot. */
  function Measured(items: seq<Response>): Option<string> {
    if items == [] then None
    else if Counters(items[|items| - 1]).Some? then Counters(items[|items| - 1])
    else Measured(items[..|items| - 1])
  }

  function WithTelemetry(r: Response, telemetry: Json): Response {
    var fields := if r.metadata.Some? && r.metadata.value.Obj? then r.metadata.value.fields else map[];
    r.(metadata := Some(Obj(fields[METADATA_KEY := telemetry])))
  }

  /** `telemetry` makes the record from the counters and the last payload's cost. */
  function Attached(items: seq<Response>, telemetry: (Option<string>, Option<UsageMetadata>) -> Json): seq<Response> {
    var stripped := StrippedAll(items);
    if stripped == [] then []
    else
      var last := stripped[|stripped| - 1];
      stripped[|stripped| - 1 := WithTelemetry(last, telemetry(Measured(stripped), last.usage))]
  }

  /** The in-place edit of the collected responses. */
  method Attach(items: array<Response>, telemetry: (Option<string>, Option<UsageMetadata>) -> Json)
    modifies items
    ensures items[..] == Attached(old(items[..]), telemetry)
  {
    ghost var was := items[..];
    for i := 0 to items.Length
      invariant forall j :: 0 <= j < i ==> items[j] == Stripped(was[j])
      invariant forall j :: i <= j < items.Length ==> items[j] == was[j]
    {
      items[i] := Stripped(items[i]);
    }
    assert items[..] == StrippedAll(was);
    var measured := None;
    var k := items.Length;
    assert items[..k] == items[..];
    while k > 0
      invariant 0 <= k <= items.Length && items[..] == StrippedAll(was)
      invariant measured.None? && Measured(StrippedAll(was)) == Measured(items[..k])
    {
      assert items[..k][..k - 1] == items[..k - 1];
      if Counters(items[k - 1]).Some? {
        measured := Counters(items[k - 1]);
        break;
      }
      k := k - 1;
    }
    assert measured == Measured(StrippedAll(was));
    if items.Length > 0 {
      var last := items[items.Length - 1];
      items[items.Length - 1] := WithTelemetry(last, telemetry(measured, last.usage));
    }
  }

  // ---- Together ----

  predicate Bears(r: Response, telemetry: Json) {
    r.metadata.Some? && r.metadata.value.Get(METADATA_KEY) == Some(telemetry)
  }

  predicate BearsNone(r: Response) {
    r.metadata.Some? ==> r.metadata.value.Get(METADATA_KEY).None?
  }

  /** Provider metadata but for the telemetry key is left as it was. */
  ghost predicate KeepsMetadata(r: Response, out: Response) {
    forall key: string :: key != METADATA_KEY ==> Field(out, key) == Field(r, key)
  }

  function Field(r: Response, key: string): Option<Json> {
    var metadata :- r.metadata;
    metadata.Get(key)
  }

  /** Attaching telemetry takes nothing from a response: the provider's own metadata stays on every
      one of them, and only the last gets any that had none or no object. */
  lemma AttachKeepsMetadata(items: seq<Response>, telemetry: (Option<string>, Option<UsageMetadata>) -> Json, i: nat)
    requires i < |items|
    ensures var out := Attached(items, telemetry);
      && |out| == |items| && KeepsMetadata(items[i], out[i])
      && out[i] == items[i].(metadata := out[i].metadata)
      && (i < |items| - 1 && !(items[i].metadata.Some? && items[i].metadata.value.Obj?) ==> out[i] == items[i])
      && (i == |items| - 1 ==> out[i].metadata.Some? && out[i].metadata.value.Obj?)
  {
    forall key: string | key != METADATA_KEY ensures Field(Attached(items, telemetry)[i], key) == Field(items[i], key) {
    }
  }

  lemma {:induction false} MeasuredWithout(items: seq<Response>)
    requires forall i :: 0 <= i < |items| ==> Counters(items[i]).None?
    ensures Measured(items).None?
  {
    if items != [] {
      MeasuredWithout(items[..|items| - 1]);
    }
  }

  lemma {:induction false} PayloadsHaveNoUsage(raw: seq<Item>)
    requires LatestUsage(raw).None?
    ensures forall i :: 0 <= i < |Payloads(raw)| ==> Counters(Payloads(raw)[i]).None?
  {
    if raw != [] {
      var front, last := raw[..|raw| - 1], raw[|raw| - 1];
      assert raw == front + [last];
      FlatMapSnoc(PayloadOf, front, last);
      PayloadsHaveNoUsage(front);
      forall i | 0 <= i < |Payloads(raw)| ensures Counters(Payloads(raw)[i]).None? {
        if i < |Payloads(front)| {
          assert Payloads(raw)[i] == Payloads(front)[i];
        }
      }
    }
  }

  lemma {:induction false} LatestUsageIsValid(raw: seq<Item>)
    requires LatestUsage(raw).Some?
    ensures LatestUsage(raw).value.counters.Some?
  {
    var last := raw[|raw| - 1];
    if !(last.Chunk? && Counters(last.response).Some?) {
      LatestUsageIsValid(raw[..|raw| - 1]);
    }
  }

  /** What attaching does to any items: all but the last lose only the look-alike key, and the last gets
      the telemetry made from the newest counters and its own usage. */
  lemma AttachedMeans(items: seq<Response>, telemetry: (Option<string>, Option<UsageMetadata>) -> Json)
    requires items != []
    ensures var out := Attached(items, telemetry);
      && |out| == |items|
      && (forall i :: 0 <= i < |out| ==> out[i].content == items[i].content && out[i].usage == items[i].usage)
      && (forall i :: 0 <= i < |out| - 1 ==> BearsNone(out[i]))
      && Bears(out[|out| - 1], telemetry(Measured(StrippedAll(items)), items[|items| - 1].usage))
  {
  }

  /** The newest snapshot of the stream is the one found again on the collected payloads. */
  lemma MeasuredAgain(raw: seq<Item>)
    requires Payloads(raw) != []
    ensures Measured(StrippedAll(WithLastUsage(Payloads(raw), LatestUsage(raw)))) ==
      if LatestUsage(raw).Some? then LatestUsage(raw).value.counters else None
  {
    var stripped := StrippedAll(WithLastUsage(Payloads(raw), LatestUsage(raw)));
    if LatestUsage(raw).Some? {
      LatestUsageIsValid(raw);
      assert Counters(stripped[|stripped| - 1]) == LatestUsage(raw).value.counters;
    } else {
      PayloadsHaveNoUsage(raw);
      MeasuredWithout(stripped);
    }
  }

  /** For every accepted stream, collecting and then attaching leaves the payload chunks in order
      with their contents, puts the telemetry on the last of them and on no other, and reports
      exactly the counters of the last chunk of the raw stream with a valid snapshot - whole, and
      even when that chunk had no content. */
  lemma UsageComposes(raw: seq<Item>, telemetry: (Option<string>, Option<UsageMetadata>) -> Json)
    requires Sound(raw) && Payloads(raw) != []
    ensures var payloads := Payloads(raw);
      var out := Attached(WithLastUsage(payloads, LatestUsage(raw)), telemetry);
      && |out| == |payloads|
      && (forall i :: 0 <= i < |out| ==> out[i].content == payloads[i].content)
      && (forall i :: 0 <= i < |out| - 1 ==> out[i].usage == payloads[i].usage && BearsNone(out[i]))
      && var last := out[|out| - 1];
         var counters := if LatestUsage(raw).Some? then LatestUsage(raw).value.counters else None;
         Bears(last, telemetry(counters, last.usage))
         && last.usage == if LatestUsage(raw).Some? then LatestUsage(raw) else payloads[|payloads| - 1].usage
  {
    AttachedMeans(WithLastUsage(Payloads(raw), LatestUsage(raw)), telemetry);
    MeasuredAgain(raw);
  }
}
