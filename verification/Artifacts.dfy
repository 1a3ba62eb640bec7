/** `collect_event_artifact_refs`: which artifacts a run's events keep alive, through the trusted
    envelopes of the artifacts themselves. */
module Artifacts {
  import opened Prelude
  import opened Json
  import opened Worklist

  /** What reading the first page of an artifact gives. */
  datatype Page = Unreadable | Blank | Opaque | Envelope(value: Json)

  /** The artifact store, and which texts are artifact ids at all. */
  datatype Store = Store(pages: map<string, Page>, isId: string -> bool)

  // ---- Ids in trusted envelopes ----

  function IdOf(candidate: Option<Json>, isId: string -> bool): set<string> {
    if candidate.Some? && candidate.value.Str? && isId(candidate.value.s) then {candidate.value.s} else {}
  }

  /** `collect_trusted_envelope_artifact_ids`. */
  function TrustedIds(value: Json, isId: string -> bool): set<string>
    decreases value, 1
  {
    match value
    case Obj(fields) =>
      (if "artifact_reference" in fields && fields["artifact_reference"].Obj?
       then IdOf(fields["artifact_reference"].Get("artifact_id"), isId) else {})
      + (if "status" in fields then IdOf(value.Get("artifact_id"), isId) else {})
      + (if "response" in fields then TrustedIds(fields["response"], isId) else {})
      + (if "structured_output" in fields then TrustedIds(fields["structured_output"], isId) else {})
    case Arr(items) => TrustedInAll(items, isId)
    case _ => {}
  }

  function TrustedInAll(items: seq<Json>, isId: string -> bool): set<string>
    decreases items, 0
  {
    if items == [] then {} else TrustedIds(items[0], isId) + TrustedInAll(items[1..], isId)
  }

  /** One hop into a trusted envelope: its response, its structured output, or an item of a list. */
  datatype Hop = IntoResponse | IntoOutput | IntoItem(i: nat)

  /** What lies at the end of these hops. */
  function At(value: Json, path: seq<Hop>): Option<Json> {
    if path == [] then Some(value)
    else
      match path[0]
      case IntoResponse => (var inner :- value.Get("response"); At(inner, path[1..]))
      case IntoOutput => (var inner :- value.Get("structured_output"); At(inner, path[1..]))
      case IntoItem(i) => if value.Arr? && i < |value.items| then At(value.items[i], path[1..]) else None
  }

  /** The object itself refers to the artifact: by a reference, or as the envelope of a result that
      has a status. */
  predicate Refers(value: Json, id: string) {
    && value.Obj?
    && (|| (var reference := value.Get("artifact_reference");
            reference.Some? && reference.value.Obj? && reference.value.Get("artifact_id") == Some(Str(id)))
        || (value.Get("status").Some? && value.Get("artifact_id") == Some(Str(id))))
  }

  ghost predicate RefersWithin(value: Json, id: string) {
    exists path :: At(value, path).Some? && Refers(At(value, path).value, id)
  }

  lemma WithinItem(items: seq<Json>, i: nat, id: string)
    requires i < |items| && RefersWithin(items[i], id)
    ensures RefersWithin(Arr(items), id)
  {
    var path :| At(items[i], path).Some? && Refers(At(items[i], path).value, id);
    assert ([IntoItem(i)] + path)[1..] == path;
    assert At(Arr(items), [IntoItem(i)] + path) == At(items[i], path);
  }

  lemma WithinField(value: Json, hop: Hop, inner: Json, id: string)
    requires value.Obj? && RefersWithin(inner, id)
    requires (hop == IntoResponse && value.Get("response") == Some(inner))
      || (hop == IntoOutput && value.Get("structured_output") == Some(inner))
    ensures RefersWithin(value, id)
  {
    var path :| At(inner, path).Some? && Refers(At(inner, path).value, id);
    assert ([hop] + path)[1..] == path;
    assert At(value, [hop] + path) == At(inner, path);
  }

  /** Every trusted id is a proper id that some object reached by hops refers to. */
  lemma {:induction false} TrustedRefers(value: Json, isId: string -> bool, id: string)
    requires id in TrustedIds(value, isId)
    ensures isId(id) && RefersWithin(value, id)
    decreases value, 1
  {
    match value {
      case Obj(fields) =>
        if "response" in fields && id in TrustedIds(fields["response"], isId) {
          TrustedRefers(fields["response"], isId, id);
          WithinField(value, IntoResponse, fields["response"], id);
        } else if "structured_output" in fields && id in TrustedIds(fields["structured_output"], isId) {
          TrustedRefers(fields["structured_output"], isId, id);
          WithinField(value, IntoOutput, fields["structured_output"], id);
        } else {
          assert At(value, []) == Some(value) && Refers(value, id);
        }
      case Arr(items) =>
        var i := TrustedItem(items, isId, id);
        WithinItem(items, i, id);
    }
  }

  lemma {:induction false} TrustedItem(items: seq<Json>, isId: string -> bool, id: string) returns (i: nat)
    requires id in TrustedInAll(items, isId)
    ensures i < |items| && isId(id) && RefersWithin(items[i], id)
    decreases items, 0
  {
    if id in TrustedIds(items[0], isId) {
      TrustedRefers(items[0], isId, id);
      i := 0;
    } else {
      var k := TrustedItem(items[1..], isId, id);
      i := k + 1;
    }
  }

  lemma {:induction false} ItemTrusted(items: seq<Json>, isId: string -> bool, i: nat, id: string)
    requires i < |items| && id in TrustedIds(items[i], isId)
    ensures id in TrustedInAll(items, isId)
  {
    if i > 0 {
      ItemTrusted(items[1..], isId, i - 1, id);
    }
  }

  lemma {:induction false} ReferredTrusted(value: Json, isId: string -> bool, id: string, path: seq<Hop>)
    requires isId(id) && At(value, path).Some? && Refers(At(value, path).value, id)
    ensures id in TrustedIds(value, isId)
    decreases |path|
  {
    if path != [] {
      match path[0] {
        case IntoResponse => ReferredTrusted(value.fields["response"], isId, id, path[1..]);
        case IntoOutput => ReferredTrusted(value.fields["structured_output"], isId, id, path[1..]);
        case IntoItem(i) =>
          ReferredTrusted(value.items[i], isId, id, path[1..]);
          ItemTrusted(value.items, isId, i, id);
      }
    }
  }

  /** The trusted ids of an envelope are exactly the proper ids that objects refer to, reached through
      responses, structured outputs and lists only. */
  lemma TrustedIff(value: Json, isId: string -> bool, id: string)
    ensures id in TrustedIds(value, isId) <==> isId(id) && RefersWithin(value, id)
  {
    if id in TrustedIds(value, isId) {
      TrustedRefers(value, isId, id);
    }
    if isId(id) && RefersWithin(value, id) {
      var path :| At(value, path).Some? && Refers(At(value, path).value, id);
      ReferredTrusted(value, isId, id, path);
    }
  }

  predicate Readable(store: Store, id: string) {
    store.isId(id) && id in store.pages && (store.pages[id].Opaque? || store.pages[id].Envelope?)
  }

  function Nested(store: Store, id: string): set<string> {
    if Readable(store, id) && store.pages[id].Envelope? then TrustedIds(store.pages[id].value, store.isId) else {}
  }

  // ---- Reachability ----

  /** A chain of ids from a starting one, each named in the envelope of the one before. */
  predicate Chain(store: Store, start: set<string>, p: seq<string>) {
    && p != [] && p[0] in start
    && forall i :: 0 <= i < |p| - 1 ==> p[i + 1] in Nested(store, p[i])
  }

  ghost predicate Reachable(store: Store, start: set<string>, id: string) {
    exists p :: Chain(store, start, p) && p[|p| - 1] == id
  }

  lemma ReachableStart(store: Store, start: set<string>, id: string)
    requires id in start
    ensures Reachable(store, start, id)
  {
    assert Chain(store, start, [id]);
  }

  lemma ReachableNested(store: Store, start: set<string>, id: string, next: string)
    requires Reachable(store, start, id) && next in Nested(store, id)
    ensures Reachable(store, start, next)
  {
    var p :| Chain(store, start, p) && p[|p| - 1] == id;
    assert Chain(store, start, p + [next]);
  }

  lemma {:induction false} ClosedHoldsChain(store: Store, start: set<string>, closed: set<string>, p: seq<string>)
    requires start <= closed && (forall id <- closed :: Nested(store, id) <= closed)
    requires Chain(store, start, p)
    ensures p[|p| - 1] in closed
    decreases |p|
  {
    if |p| > 1 {
      var front := p[..|p| - 1];
      ClosedHoldsChain(store, start, closed, front);
      assert p[|p| - 2 + 1] in Nested(store, p[|p| - 2]);
    }
  }

  // ---- The worklist ----

  /** Ids that can ever be met. */
  function AllIds(store: Store, start: set<string>): set<string> {
    start + set id, next | id in store.pages && next in Nested(store, id) :: next
  }

  /** What the worklist has established about the ids met so far: all are reachable, those seen
      name only ids met, everything kept was met, and nothing readable was dropped. */
  ghost predicate Working(store: Store, start: set<string>, met: set<string>, seen: set<string>, refs: set<string>) {
    && met <= AllIds(store, start)
    && seen <= met && start <= met && refs <= met
    && (forall id <- met :: Reachable(store, start, id))
    && (forall id <- seen :: Nested(store, id) <= met)
    && (forall id <- met :: Readable(store, id) ==> id in refs)
  }

  lemma Started(store: Store, start: set<string>)
    ensures Working(store, start, start + {}, {}, start)
  {
    assert start + {} == start;
    forall id | id in start ensures Reachable(store, start, id) {
      ReachableStart(store, start, id);
    }
  }

  /** An id that cannot be read, or reads as nothing, is dropped. */
  lemma DropUnreadable(store: Store, start: set<string>, met: set<string>, id: string, seen: set<string>, refs: set<string>)
    requires Working(store, start, met, seen, refs) && id in met && !Readable(store, id)
    ensures Working(store, start, met, seen + {id}, refs - {id})
  {
  }

  lemma NestedReachable(store: Store, start: set<string>, id: string)
    requires Reachable(store, start, id)
    ensures forall next <- Nested(store, id) :: Reachable(store, start, next)
    ensures Nested(store, id) <= AllIds(store, start)
  {
    forall next | next in Nested(store, id) ensures Reachable(store, start, next) {
      ReachableNested(store, start, id, next);
    }
  }

  lemma Dropped(store: Store, start: set<string>, waiting: set<string>, id: string, seen: set<string>, refs: set<string>)
    requires Working(store, start, waiting + {id} + seen, seen, refs) && !Readable(store, id)
    ensures Working(store, start, waiting + Elements([]) + (seen + {id}), seen + {id}, refs - {id})
  {
    DropUnreadable(store, start, waiting + {id} + seen, id, seen, refs);
    assert waiting + {id} + seen == waiting + Elements([]) + (seen + {id});
  }

  /** The ids a readable page names are kept, and are met. */
  lemma Follow(store: Store, start: set<string>, met: set<string>, id: string, seen: set<string>, refs: set<string>)
    requires Working(store, start, met, seen, refs) && id in met && Readable(store, id)
    ensures Working(store, start, met + Nested(store, id), seen + {id}, refs + Nested(store, id))
  {
    NestedReachable(store, start, id);
  }

  /** Only ids not kept before are put on the list; the others were met already. */
  lemma MetGrows(met: set<string>, waiting: set<string>, id: string, seen: set<string>, refs: set<string>, nested: set<string>)
    requires met == waiting + {id} + seen && refs <= met
    ensures met + nested == waiting + (nested - refs) + (seen + {id})
  {
  }

  /** One id read for the first time: what is kept then, and what is put on the list. */
  method Read(store: Store, start: set<string>, id: string, ghost waiting: set<string>, seen: set<string>, refs: set<string>)
    returns (added: seq<string>, kept: set<string>)
    requires Working(store, start, waiting + {id} + seen, seen, refs)
    ensures Working(store, start, waiting + Elements(added) + (seen + {id}), seen + {id}, kept)
  {
    ghost var met := waiting + {id} + seen;
    if !store.isId(id) || id !in store.pages || store.pages[id].Unreadable? || store.pages[id].Blank? {
      Dropped(store, start, waiting, id, seen, refs);
      return [], refs - {id};
    }
    var nested := if store.pages[id].Envelope? then TrustedIds(store.pages[id].value, store.isId) else {};
    added := Listed(nested - refs);
    Follow(store, start, met, id, seen, refs);
    MetGrows(met, waiting, id, seen, refs, nested);
    kept := refs + nested;
  }

  /** The kept references when the worklist runs dry: every readable id that is reachable from the
      starting ones, and only reachable ones - cyclic envelopes included. */
  method Collect(store: Store, start: set<string>) returns (refs: set<string>)
    ensures forall id :: Reachable(store, start, id) && Readable(store, id) ==> id in refs
    ensures forall id <- refs :: Reachable(store, start, id)
  {
    refs := start;
    var pending := Listed(start);
    var seen := {};
    Started(store, start);
    while pending != []
      invariant Working(store, start, Elements(pending) + seen, seen, refs)
      decreases |AllIds(store, start) - seen|, |pending|
    {
      var id, rest := pending[|pending| - 1], pending[..|pending| - 1];
      if id in seen {
        SeenAgain(Elements(rest), id, seen);
        pending := rest;
        continue;
      }
      FewerLeft(AllIds(store, start), seen, id);
      var added, kept := Read(store, start, id, Elements(rest), seen, refs);
      ElementsOf(rest, added);
      pending, seen, refs := rest + added, seen + {id}, kept;
    }
    Dry(store, start, seen, refs);
  }

  lemma SeenAgain(waiting: set<string>, id: string, seen: set<string>)
    requires id in seen
    ensures waiting + {id} + seen == waiting + seen
  {
  }

  lemma Dry(store: Store, start: set<string>, seen: set<string>, refs: set<string>)
    requires Working(store, start, {} + seen, seen, refs)
    ensures forall id :: Reachable(store, start, id) && Readable(store, id) ==> id in refs
    ensures forall id <- refs :: Reachable(store, start, id)
  {
    forall id | Reachable(store, start, id) ensures id in seen {
      var p :| Chain(store, start, p) && p[|p| - 1] == id;
      ClosedHoldsChain(store, start, seen, p);
    }
  }

  /** Starting from the events of a run and the references a checkpoint already held. */
  method CollectEventRefs(store: Store, events: seq<Json>, refs0: set<string>) returns (refs: set<string>)
    ensures var start := refs0 + TrustedInAll(events, store.isId);
      && (forall id :: Reachable(store, start, id) && Readable(store, id) ==> id in refs)
      && (forall id <- refs :: Reachable(store, start, id))
  {
    var start := refs0;
    for i := 0 to |events|
      invariant start + TrustedInAll(events[i..], store.isId) == refs0 + TrustedInAll(events, store.isId)
    {
      assert events[i..][1..] == events[i + 1..];
      start := start + TrustedIds(events[i], store.isId);
    }
    refs := Collect(store, start);
  }
}
