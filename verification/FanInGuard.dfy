/** The fan-in guard: it gathers what the branches of a fan-in target wrote, refuses two writes of
    one key, and marks what it consumed. */
module FanInGuard {
  import opened Prelude
  import opened Json

  type State = map<string, Json>

  const PROVENANCE := "__workflow_fanin:"

  /** `split_once(':')`: what follows the first colon. */
  function AfterColon(s: string): Option<string> {
    var i := IndexOf(s, ':');
    if i < |s| then Some(s[i + 1..]) else None
  }

  /** Target and source as an entry names them. */
  function Head(target: string, source: string): string {
    target + ":" + source + ":"
  }

  function Prefix(target: string, source: string): string {
    PROVENANCE + Head(target, source)
  }

  /** The state key under which an agent writes `key` for one source of a fan-in target. */
  function Encode(target: string, source: string, generation: nat, key: string): string {
    Prefix(target, source) + Decimal(generation) + ":" + key
  }

  /** The key a state key carries for this source, if any. */
  function Carries(target: string, source: string, stateKey: string): Option<string> {
    if Prefix(target, source) <= stateKey then AfterColon(stateKey[|Prefix(target, source)|..]) else None
  }

  // ---- Reading back what was written ----

  lemma DecimalHasNoColon(n: nat)
    ensures ':' !in Decimal(n)
  {
    DecimalDenotes(n);
  }

  /** Two texts with colon-free heads before a colon agree on head and rest. */
  lemma HeadsAgree(a: string, x: string, b: string, y: string)
    requires ':' !in a && ':' !in b && a + ":" + x == b + ":" + y
    ensures a == b && x == y
  {
    IndexOfFirst(a, ':', x);
    IndexOfFirst(b, ':', y);
    assert (a + ":" + x)[..|a|] == a && (b + ":" + y)[..|b|] == b;
    assert (a + ":" + x)[|a| + 1..] == x && (b + ":" + y)[|b| + 1..] == y;
  }

  /** An entry reads back as its key. */
  lemma EntryReadsBack(target: string, source: string, generation: nat, key: string)
    ensures Carries(target, source, Encode(target, source, generation, key)) == Some(key)
  {
    var entry := Encode(target, source, generation, key);
    var tail := Decimal(generation) + [':'] + key;
    assert entry[|Prefix(target, source)|..] == tail;
    DecimalHasNoColon(generation);
    IndexOfFirst(Decimal(generation), ':', key);
    assert tail[|Decimal(generation)| + 1..] == key;
  }

  lemma DropPrefix(a: string, b: string)
    ensures (a + b)[|a|..] == b
  {
  }

  /** A text begins with `q` after a common start exactly when it does without that start. */
  lemma SharedStart(start: string, q: string, x: string)
    ensures start + q <= start + x <==> q <= x
    ensures q <= x ==> (start + x)[|start + q|..] == x[|q|..]
  {
    if start + q <= start + x {
      DropPrefix(start, x);
      assert (start + x)[|start|..|start| + |q|] == q;
    }
    if q <= x {
      assert start + x == start + q + x[|q|..];
    }
  }

  lemma ColonMeansSplit(s: string)
    ensures AfterColon(s).Some? <==> ':' in s
  {
    if IndexOf(s, ':') == |s| {
      assert s[..|s|] == s;
    }
  }

  /** `other` begins a text in two parts and leaves a colon behind: it ends in the first part, or in
      the second before its last colon. */
  lemma BeginsWithin(own: string, tail: string, other: string)
    requires ':' in tail && |other| <= |own|
    ensures other <= own + tail <==> other <= own
    ensures other <= own ==> ':' in (own + tail)[|other|..]
  {
    var k :| 0 <= k < |tail| && tail[k] == ':';
    assert (own + tail)[|other|..][|own| - |other| + k] == ':';
  }

  lemma BeginsBeyond(own: string, tail: string, other: string)
    requires |other| > |own|
    ensures other <= own + tail <==> own <= other && other[|own|..] <= tail
    ensures other <= own + tail ==> (own + tail)[|other|..] == tail[|other| - |own|..]
  {
    if own <= other && other[|own|..] <= tail {
      assert other == own + other[|own|..];
    }
    if other <= own + tail {
      assert other == (own + tail)[..|other|];
      assert other[|own|..] == tail[..|other| - |own|];
    }
  }

  lemma EncodeSplits(target: string, source: string, generation: nat, key: string)
    ensures Encode(target, source, generation, key) ==
      PROVENANCE + (Head(target, source) + (Decimal(generation) + ":" + key))
    ensures ':' in Decimal(generation) + ":" + key
  {
    assert (Decimal(generation) + ":" + key)[|Decimal(generation)|] == ':';
  }

  /** When an entry is read under a target and source, whichever they are: exactly when they name a
      start of the entry's own target and source, or go on from these into its generation and key
      and leave a colon behind. */
  lemma CarriesIff(target: string, source: string, generation: nat, key: string, t: string, s: string)
    ensures var own, other, tail := Head(target, source), Head(t, s), Decimal(generation) + ":" + key;
      Carries(t, s, Encode(target, source, generation, key)).Some? <==>
        || other <= own
        || (own <= other && other[|own|..] <= tail && ':' in tail[|other| - |own|..])
  {
    var own, other, tail := Head(target, source), Head(t, s), Decimal(generation) + ":" + key;
    EncodeSplits(target, source, generation, key);
    SharedStart(PROVENANCE, other, own + tail);
    if other <= own + tail {
      ColonMeansSplit((own + tail)[|other|..]);
    }
    if |other| <= |own| {
      BeginsWithin(own, tail, other);
    } else {
      BeginsBeyond(own, tail, other);
    }
  }

  /** Two pairs of ids interfere when some entry of the first is read under the second. */
  ghost predicate Interfere(target: string, source: string, t: string, s: string) {
    exists generation: nat, key: string :: Carries(t, s, Encode(target, source, generation, key)).Some?
  }

  /** The condition on the ids alone: one names a start of the other, or goes on from it with a
      generation number and a colon. */
  ghost predicate Nested(target: string, source: string, t: string, s: string) {
    var own, other := Head(target, source), Head(t, s);
    || other <= own
    || (own <= other && exists generation: nat :: Decimal(generation) + ":" <= other[|own|..])
  }

  lemma HeadEnds(t: string, s: string, own: string)
    requires own <= Head(t, s) && own != Head(t, s)
    ensures var more := Head(t, s)[|own|..];
      more != [] && more[|more| - 1] == ':'
  {
  }

  lemma InterferingIsNested(target: string, source: string, t: string, s: string, generation: nat, key: string)
    requires Carries(t, s, Encode(target, source, generation, key)).Some?
    ensures Nested(target, source, t, s)
  {
    CarriesIff(target, source, generation, key, t, s);
    var own, other := Head(target, source), Head(t, s);
    if !(other <= own) {
      HeadEnds(t, s, own);
      GoesThroughNumber(generation, key, other[|own|..]);
    }
  }

  lemma NestedInterferes(target: string, source: string, t: string, s: string)
    requires Nested(target, source, t, s)
    ensures Interfere(target, source, t, s)
  {
    var own, other := Head(target, source), Head(t, s);
    if other <= own {
      CarriesIff(target, source, 0, "", t, s);
    } else {
      var more := other[|own|..];
      var generation: nat :| Decimal(generation) + ":" <= more;
      var key := more[|Decimal(generation) + ":"|..] + ":";
      assert Decimal(generation) + ":" + key == more + ":";
      assert (more + ":")[|more|..] == ":";
      CarriesIff(target, source, generation, key, t, s);
    }
  }

  /** Interference is decided by the ids. */
  lemma InterfereIff(target: string, source: string, t: string, s: string)
    ensures Interfere(target, source, t, s) <==> Nested(target, source, t, s)
  {
    if generation: nat, key: string :| Carries(t, s, Encode(target, source, generation, key)).Some? {
      InterferingIsNested(target, source, t, s, generation, key);
    }
    if Nested(target, source, t, s) {
      NestedInterferes(target, source, t, s);
    }
  }

  /** A start of an entry's tail that ends in a colon goes at least through the generation. */
  lemma GoesThroughNumber(generation: nat, key: string, more: string)
    requires more <= Decimal(generation) + ":" + key && more != [] && more[|more| - 1] == ':'
    ensures Decimal(generation) + ":" <= more
  {
    var tail := Decimal(generation) + ":" + key;
    if |more| <= |Decimal(generation)| {
      assert tail[|more| - 1] == Decimal(generation)[|more| - 1];
      DecimalHasNoColon(generation);
    } else {
      assert more[..|Decimal(generation)| + 1] == tail[..|Decimal(generation)| + 1];
    }
  }

  /** Ids without colons interfere with themselves only. */
  lemma ColonFreeIsOwn(target: string, source: string, t: string, s: string)
    requires ':' !in target && ':' !in source && ':' !in t && ':' !in s
    ensures Interfere(target, source, t, s) <==> (t, s) == (target, source)
  {
    InterfereIff(target, source, t, s);
    var own, other := Head(target, source), Head(t, s);
    if other <= own {
      StartsAgree(t, s, target, source);
    } else if own <= other {
      StartsAgree(target, source, t, s);
    }
  }

  lemma StartsAgree(t: string, s: string, target: string, source: string)
    requires ':' !in target && ':' !in source && ':' !in t && ':' !in s && Head(t, s) <= Head(target, source)
    ensures (t, s) == (target, source)
  {
    var rest := Head(target, source)[|Head(t, s)|..];
    assert t + ":" + (s + ":" + rest) == Head(t, s) + rest == target + ":" + (source + ":");
    HeadsAgree(t, s + ":" + rest, target, source + ":");
    assert s + ":" + rest == source + ":" + "";
    HeadsAgree(s, rest, source, "");
  }

  // ---- The guard ----

  /** A state key and the source under which it is read. */
  datatype Contribution = Contribution(source: string, stateKey: string)

  /** The key it carries, if it is live. */
  function Reading(target: string, state: State, c: Contribution): Option<string> {
    if c.stateKey in state && state[c.stateKey] != Null then Carries(target, c.source, c.stateKey) else None
  }

  predicate Contributes(target: string, sources: set<string>, state: State, c: Contribution) {
    c.source in sources && Reading(target, state, c).Some?
  }

  /** Two contributions name the same key. */
  ghost predicate Conflict(target: string, sources: set<string>, state: State, key: string) {
    exists a: Contribution, b: Contribution :: a != b
      && a.source in sources && Reading(target, state, a) == Some(key)
      && b.source in sources && Reading(target, state, b) == Some(key)
  }

  /** What the guard changes: keys it writes, and state keys it nulls. */
  datatype Output = Output(writes: State, nulled: set<string>)

  /** The output holds exactly the contributions taken so far, one under each key. */
  ghost predicate Holds(state: State, taken: map<string, Contribution>, out: Output) {
    && out.writes.Keys == taken.Keys
    && (forall key <- taken :: taken[key].stateKey in state && out.writes[key] == state[taken[key].stateKey])
    && (forall key <- taken :: taken[key].stateKey in out.nulled)
    && (forall k <- out.nulled :: exists key <- taken :: taken[key].stateKey == k)
  }

  /** The output a guard should have: exactly the union of what the contributions carry, and
      exactly their state keys. */
  ghost predicate IsOutput(target: string, sources: set<string>, state: State, out: Output) {
    && (forall c :: Contributes(target, sources, state, c) ==>
          && c.stateKey in out.nulled
          && Reading(target, state, c).value in out.writes
          && out.writes[Reading(target, state, c).value] == state[c.stateKey])
    && (forall key <- out.writes :: exists c: Contribution :: c.source in sources && Reading(target, state, c) == Some(key))
    && (forall k <- out.nulled :: exists c :: Contributes(target, sources, state, c) && c.stateKey == k)
  }

  lemma TakeOne(state: State, taken: map<string, Contribution>, out: Output, c: Contribution, key: string)
    requires Holds(state, taken, out) && key !in taken && c.stateKey in state
    ensures Holds(state, taken[key := c], Output(out.writes[key := state[c.stateKey]], out.nulled + {c.stateKey}))
  {
    var more := taken[key := c];
    forall k | k in out.nulled + {c.stateKey} ensures exists d <- more :: more[d].stateKey == k {
      if k in out.nulled {
        var d :| d in taken && taken[d].stateKey == k;
        assert d in more && more[d].stateKey == k;
      } else {
        assert key in more && more[key].stateKey == k;
      }
    }
  }

  /** `taken` has every contribution of these sources whose state key has been visited, under the
      key it carries, and nothing else. */
  ghost predicate Gathered(target: string, sources: set<string>, visited: set<string>, state: State,
                           taken: map<string, Contribution>) {
    && (forall c: Contribution :: c.source in sources && c.stateKey in visited && Reading(target, state, c).Some? ==>
          Reading(target, state, c).value in taken && taken[Reading(target, state, c).value] == c)
    && (forall key <- taken :: taken[key].stateKey in visited && Reading(target, state, taken[key]) == Some(key))
  }

  /** What was taken from other sources stays. */
  ghost predicate Extends(taken0: map<string, Contribution>, taken: map<string, Contribution>, source: string) {
    && (forall key <- taken0 :: key in taken && taken[key] == taken0[key])
    && (forall key <- taken :: key in taken0 || taken[key].source == source)
  }

  /** The state keys outside `remaining` have been read under this source. */
  ghost predicate Gathering(target: string, source: string, state: State, taken0: map<string, Contribution>,
                            taken: map<string, Contribution>, remaining: set<string>) {
    && Extends(taken0, taken, source)
    && (forall key <- taken :: Reading(target, state, taken[key]) == Some(key))
    && (forall key <- taken :: taken[key].source == source ==> taken[key].stateKey !in remaining)
    && (forall c: Contribution :: c.source == source && c.stateKey !in remaining && Reading(target, state, c).Some? ==>
          Reading(target, state, c).value in taken && taken[Reading(target, state, c).value] == c)
  }

  lemma PassOver(target: string, source: string, state: State, taken0: map<string, Contribution>,
                 taken: map<string, Contribution>, remaining: set<string>, stateKey: string)
    requires Gathering(target, source, state, taken0, taken, remaining)
    requires Reading(target, state, Contribution(source, stateKey)).None?
    ensures Gathering(target, source, state, taken0, taken, remaining - {stateKey})
  {
    forall c: Contribution | c.source == source && c.stateKey !in remaining - {stateKey} && Reading(target, state, c).Some?
      ensures Reading(target, state, c).value in taken && taken[Reading(target, state, c).value] == c
    {
      assert c != Contribution(source, stateKey);
    }
  }

  lemma TakeUp(target: string, source: string, state: State, taken0: map<string, Contribution>,
               taken: map<string, Contribution>, remaining: set<string>, stateKey: string, key: string)
    requires Gathering(target, source, state, taken0, taken, remaining) && key !in taken
    requires Reading(target, state, Contribution(source, stateKey)) == Some(key)
    ensures Gathering(target, source, state, taken0, taken[key := Contribution(source, stateKey)], remaining - {stateKey})
  {
    var more := taken[key := Contribution(source, stateKey)];
    forall c: Contribution | c.source == source && c.stateKey !in remaining - {stateKey} && Reading(target, state, c).Some?
      ensures Reading(target, state, c).value in more && more[Reading(target, state, c).value] == c
    {
      ReadStays(target, source, state, taken0, taken, remaining, stateKey, key, c);
    }
    assert Extends(taken0, more, source) by {
      ExtendsMore(taken0, taken, source, key, Contribution(source, stateKey));
    }
  }

  lemma ExtendsMore(taken0: map<string, Contribution>, taken: map<string, Contribution>, source: string,
                    key: string, c: Contribution)
    requires Extends(taken0, taken, source) && key !in taken && c.source == source
    ensures Extends(taken0, taken[key := c], source)
  {
  }

  lemma ReadStays(target: string, source: string, state: State, taken0: map<string, Contribution>,
                  taken: map<string, Contribution>, remaining: set<string>, stateKey: string, key: string, c: Contribution)
    requires Gathering(target, source, state, taken0, taken, remaining) && key !in taken
    requires Reading(target, state, Contribution(source, stateKey)) == Some(key)
    requires c.source == source && c.stateKey !in remaining - {stateKey} && Reading(target, state, c).Some?
    ensures var more := taken[key := Contribution(source, stateKey)];
      Reading(target, state, c).value in more && more[Reading(target, state, c).value] == c
  {
    if c.stateKey != stateKey {
      assert Reading(target, state, c).value in taken;
    }
  }

  lemma AllGathered(target: string, source: string, state: State, taken0: map<string, Contribution>,
                    taken: map<string, Contribution>)
    requires Gathering(target, source, state, taken0, taken, {})
    ensures Gathered(target, {source}, state.Keys, state, taken)
  {
  }

  /** One state key of one source. */
  method VisitKey(target: string, source: string, state: State, stateKey: string, ghost taken0: map<string, Contribution>,
                  ghost before: map<string, Contribution>, out0: Output, ghost remaining: set<string>)
    returns (conflict: bool, ghost taken: map<string, Contribution>, out: Output)
    requires stateKey in state
    requires Gathering(target, source, state, taken0, before, remaining) && Holds(state, before, out0)
    requires stateKey in remaining
    ensures !conflict ==> Gathering(target, source, state, taken0, taken, remaining - {stateKey}) && Holds(state, taken, out)
    ensures conflict ==> taken == before && Clashes(target, source, state, before, Contribution(source, stateKey))
  {
    conflict, taken, out := false, before, out0;
    var key := Carries(target, source, stateKey);
    if key.None? || state[stateKey] == Null {
      PassOver(target, source, state, taken0, before, remaining, stateKey);
    } else if key.value in out.writes {
      conflict := true;
    } else {
      ghost var c := Contribution(source, stateKey);
      TakeOne(state, before, out0, c, key.value);
      TakeUp(target, source, state, taken0, before, remaining, stateKey, key.value);
      out := Output(out.writes[key.value := state[stateKey]], out.nulled + {stateKey});
      taken := before[key.value := c];
    }
  }

  /** One source of the guard: every state key, in any order. */
  method GatherSource(target: string, source: string, state: State, ghost taken0: map<string, Contribution>, out0: Output)
    returns (conflict: Option<Contribution>, ghost taken: map<string, Contribution>, out: Output)
    requires forall key <- taken0 :: Reading(target, state, taken0[key]) == Some(key) && taken0[key].source != source
    requires Holds(state, taken0, out0)
    ensures Extends(taken0, taken, source)
    ensures conflict.None? ==> Holds(state, taken, out) && Gathered(target, {source}, state.Keys, state, taken)
    ensures conflict.Some? ==> Clashes(target, source, state, taken, conflict.value)
  {
    conflict, taken, out := None, taken0, out0;
    var remaining := state.Keys;
    while remaining != {}
      invariant remaining <= state.Keys
      invariant Gathering(target, source, state, taken0, taken, remaining)
      invariant Holds(state, taken, out)
      decreases |remaining|
    {
      var stateKey :| stateKey in remaining;
      var clash, next, after := VisitKey(target, source, state, stateKey, taken0, taken, out, remaining);
      if clash {
        conflict := Some(Contribution(source, stateKey));
        return;
      }
      taken, out, remaining := next, after, remaining - {stateKey};
    }
    AllGathered(target, source, state, taken0, taken);
  }

  /** The contribution reads as a key that another contribution was taken for. */
  ghost predicate Clashes(target: string, source: string, state: State, taken: map<string, Contribution>, c: Contribution) {
    && c.source == source && Reading(target, state, c).Some?
    && var key := Reading(target, state, c).value;
       key in taken && taken[key] != c && Reading(target, state, taken[key]) == Some(key)
  }

  /** Everything is gathered and nothing is named twice. */
  lemma GatheredIsOutput(target: string, sources: set<string>, state: State, taken: map<string, Contribution>, out: Output)
    requires Holds(state, taken, out) && Gathered(target, sources, state.Keys, state, taken)
    requires forall key <- taken :: taken[key].source in sources
    ensures IsOutput(target, sources, state, out)
    ensures forall key :: !Conflict(target, sources, state, key)
  {
    forall k | k in out.nulled ensures exists c :: Contributes(target, sources, state, c) && c.stateKey == k {
      var key :| key in taken && taken[key].stateKey == k;
      assert Contributes(target, sources, state, taken[key]);
    }
  }

  /** One more source gathered. */
  lemma GatheredMore(target: string, sources: set<string>, source: string, state: State,
                     taken0: map<string, Contribution>, taken: map<string, Contribution>)
    requires Gathered(target, sources, state.Keys, state, taken0)
    requires Gathered(target, {source}, state.Keys, state, taken)
    requires Extends(taken0, taken, source)
    ensures Gathered(target, sources + {source}, state.Keys, state, taken)
  {
    forall c: Contribution | c.source in sources && c.stateKey in state && Reading(target, state, c).Some?
      ensures Reading(target, state, c).value in taken && taken[Reading(target, state, c).value] == c
    {
      assert Reading(target, state, c).value in taken0;
    }
  }

  lemma ClashIsConflict(target: string, source: string, sources: set<string>, state: State,
                        taken0: map<string, Contribution>, taken: map<string, Contribution>, c: Contribution)
    requires source in sources && Extends(taken0, taken, source) && Clashes(target, source, state, taken, c)
    requires forall key <- taken0 :: taken0[key].source in sources
    ensures Conflict(target, sources, state, Reading(target, state, c).value)
  {
    var other := taken[Reading(target, state, c).value];
    assert other.source in sources;
  }

  /** The guard fails exactly when two contributions name the same key, with such a key; otherwise
      it writes exactly what they carry and nulls exactly their state keys.  None of this depends
      on the order in which sources or state keys are visited. */
  method RunGuard(target: string, sources: set<string>, state: State) returns (r: Result<Output, string>)
    ensures r.Err? <==> exists key :: Conflict(target, sources, state, key)
    ensures r.Err? ==> Conflict(target, sources, state, r.error)
    ensures r.Ok? ==> IsOutput(target, sources, state, r.value)
  {
    var out := Output(map[], {});
    ghost var taken: map<string, Contribution> := map[];
    var remaining := sources;
    ghost var done := {};
    while remaining != {}
      invariant sources == done + remaining && done !! remaining
      invariant Gathered(target, done, state.Keys, state, taken)
      invariant forall key <- taken :: taken[key].source in done
      invariant Holds(state, taken, out)
      decreases |remaining|
    {
      var source :| source in remaining;
      var conflict, after, gathered := GatherSource(target, source, state, taken, out);
      if conflict.Some? {
        ClashIsConflict(target, source, sources, state, taken, after, conflict.value);
        return Err(Reading(target, state, conflict.value).value);
      }
      GatheredMore(target, done, source, state, taken, after);
      taken, out := after, gathered;
      remaining := remaining - {source};
      done := done + {source};
    }
    GatheredIsOutput(target, sources, state, taken, out);
    r := Ok(out);
  }

  /** No source goes on from another after a colon. */
  predicate Separate(sources: set<string>) {
    forall s <- sources, s' <- sources :: s != s' ==> !(s + ":" <= s' + ":")
  }

  lemma ColonFreeSeparate(sources: set<string>)
    requires forall s <- sources :: ':' !in s
    ensures Separate(sources)
  {
    forall s, s' | s in sources && s' in sources && s + ":" <= s' + ":" ensures s == s' {
      var rest := (s' + ":")[|s + ":"|..];
      assert s + ":" + rest == s' + ":" + "";
      HeadsAgree(s, rest, s', "");
    }
  }

  /** With separate sources every live state key contributes once, so the guard of a target fails
      exactly when two live entries of that target name the same key. */
  lemma ConflictIffTwoEntries(target: string, sources: set<string>, state: State, key: string)
    requires Separate(sources)
    ensures Conflict(target, sources, state, key) <==>
      exists a: Contribution, b: Contribution :: a.stateKey != b.stateKey
        && a.source in sources && Reading(target, state, a) == Some(key)
        && b.source in sources && Reading(target, state, b) == Some(key)
  {
    if Conflict(target, sources, state, key) {
      var a: Contribution, b: Contribution :| a != b
        && a.source in sources && Reading(target, state, a) == Some(key)
        && b.source in sources && Reading(target, state, b) == Some(key);
      if a.stateKey == b.stateKey {
        assert Separate({a.source, b.source});
        OneSourceEach(target, a.source, b.source, a.stateKey);
      }
    }
  }

  /** A state key that is read under a source splits there. */
  lemma CarriesSplits(target: string, s: string, stateKey: string) returns (rest: string)
    requires Carries(target, s, stateKey).Some?
    ensures stateKey == (PROVENANCE + target + ":") + (s + ":" + rest)
  {
    rest := stateKey[|Prefix(target, s)|..];
    assert stateKey == Prefix(target, s) + rest;
  }

  lemma StartsOfOne(a: string, x: string, b: string, y: string)
    requires a + x == b + y
    ensures a <= b || b <= a
  {
    if |a| <= |b| {
      assert (a + x)[..|a|] == a && (b + y)[..|a|] == b[..|a|];
    } else {
      assert (a + x)[..|b|] == a[..|b|] && (b + y)[..|b|] == b;
    }
  }

  lemma OneSourceEach(target: string, s: string, s': string, stateKey: string)
    requires Separate({s, s'})
    requires Carries(target, s, stateKey).Some? && Carries(target, s', stateKey).Some?
    ensures s == s'
  {
    var base := PROVENANCE + target + ":";
    var rest := CarriesSplits(target, s, stateKey);
    var rest' := CarriesSplits(target, s', stateKey);
    DropPrefix(base, s + ":" + rest);
    DropPrefix(base, s' + ":" + rest');
    StartsOfOne(s + ":", rest, s' + ":", rest');
  }

  /** Of one entry that two sources read under different keys, each source reads one key. */
  lemma OneReading(target: string, a: string, b: string, entry: string, ka: string, kb: string, state: State,
                   c: Contribution, key: string)
    requires state.Keys == {entry} && (c.source == a || c.source == b) && Reading(target, state, c) == Some(key)
    requires Carries(target, a, entry) == Some(ka) && Carries(target, b, entry) == Some(kb)
    ensures c.stateKey == entry && (if c.source == a then key == ka else c.source == b && key == kb)
  {
    assert c.stateKey in state.Keys;
  }

  lemma WritesBoth(target: string, a: string, b: string, entry: string, ka: string, kb: string, value: Json, out: Output)
    requires value != Null && IsOutput(target, {a, b}, map[entry := value], out)
    requires Carries(target, a, entry) == Some(ka) && Carries(target, b, entry) == Some(kb)
    ensures ka in out.writes && out.writes[ka] == value && kb in out.writes && out.writes[kb] == value
    ensures entry in out.nulled
  {
    assert Contributes(target, {a, b}, map[entry := value], Contribution(a, entry));
    assert Contributes(target, {a, b}, map[entry := value], Contribution(b, entry));
  }

  lemma ConflictOf(target: string, sources: set<string>, state: State, key: string)
    returns (x: Contribution, y: Contribution)
    requires Conflict(target, sources, state, key)
    ensures x != y && x.source in sources && y.source in sources
    ensures Reading(target, state, x) == Some(key) && Reading(target, state, y) == Some(key)
  {
    x, y :| x != y
      && x.source in sources && Reading(target, state, x) == Some(key)
      && y.source in sources && Reading(target, state, y) == Some(key);
  }

  lemma SameContribution(target: string, a: string, b: string, entry: string, ka: string, kb: string, state: State,
                         key: string, x: Contribution, y: Contribution)
    requires ka != kb && state.Keys == {entry}
    requires (x.source == a || x.source == b) && (y.source == a || y.source == b)
    requires Reading(target, state, x) == Some(key) && Reading(target, state, y) == Some(key)
    requires Carries(target, a, entry) == Some(ka) && Carries(target, b, entry) == Some(kb)
    ensures x == y
  {
    OneReading(target, a, b, entry, ka, kb, state, x, key);
    OneReading(target, a, b, entry, ka, kb, state, y, key);
  }

  lemma NoConflictOfTwo(target: string, sources: set<string>, a: string, b: string, entry: string, ka: string,
                        kb: string, state: State, key: string)
    requires ka != kb && state.Keys == {entry} && (forall s <- sources :: s == a || s == b)
    requires Carries(target, a, entry) == Some(ka) && Carries(target, b, entry) == Some(kb)
    ensures !Conflict(target, sources, state, key)
  {
    if Conflict(target, sources, state, key) {
      var x, y := ConflictOf(target, sources, state, key);
      SameContribution(target, a, b, entry, ka, kb, state, key, x, y);
    }
  }

  /** A colon in an id may break this: one entry of source "a:0" is also read as an entry of source
      "a", and the guard writes a key nobody wrote. */
  method ColonInIdLeaks(value: Json) returns (out: Output)
    requires value != Null
    ensures "k" in out.writes && out.writes["k"] == value
    ensures "0:k" in out.writes && out.writes["0:k"] == value
    ensures Encode("t", "a:0", 0, "k") in out.nulled
  {
    var entry := Encode("t", "a:0", 0, "k");
    EntryReadsBack("t", "a:0", 0, "k");
    ForeignReading();
    forall key {
      NoConflictOfTwo("t", {"a", "a:0"}, "a", "a:0", entry, "0:k", "k", map[entry := value], key);
    }
    var r := RunGuard("t", {"a", "a:0"}, map[entry := value]);
    WritesBoth("t", "a", "a:0", entry, "0:k", "k", value, r.value);
    out := r.value;
  }

  lemma ForeignReading()
    ensures Carries("t", "a", Encode("t", "a:0", 0, "k")) == Some("0:k")
  {
    var entry := Encode("t", "a:0", 0, "k");
    assert Decimal(0) == "0";
    assert entry == Prefix("t", "a") + "0:0:k";
    assert entry[|Prefix("t", "a")|..] == "0:0:k" == "0" + [':'] + "0:k";
    IndexOfFirst("0", ':', "0:k");
    assert "0:0:k"[2..] == "0:k";
  }

  // ---- Consumed entries at checkpoints ----

  /** `strip_consumed_fan_in_provenance`. */
  function Strip(state: State): State {
    map k | k in state && !(PROVENANCE <= k && state[k] == Null) :: state[k]
  }

  /** The state after a node's output is merged in; nulls are written last. */
  function Apply(state: State, out: Output): State {
    map k | k in state.Keys + out.writes.Keys + out.nulled ::
      if k in out.nulled then Null else if k in out.writes then out.writes[k] else state[k]
  }

  /** Stripping drops consumed entries and nothing else, so twice is once, and no guard can tell a stripped state from the original. */
  lemma StripIsInvisible(state: State, target: string, sources: set<string>)
    ensures Strip(Strip(state)) == Strip(state)
    ensures forall k <- state :: k in Strip(state) <==> !(PROVENANCE <= k) || state[k] != Null
    ensures forall k <- Strip(state) :: k in state && Strip(state)[k] == state[k]
    ensures forall c :: Reading(target, Strip(state), c) == Reading(target, state, c)
    ensures forall out :: IsOutput(target, sources, Strip(state), out) <==> IsOutput(target, sources, state, out)
    ensures forall key :: Conflict(target, sources, Strip(state), key) <==> Conflict(target, sources, state, key)
  {
    assert forall c :: Reading(target, Strip(state), c) == Reading(target, state, c);
    forall out ensures IsOutput(target, sources, Strip(state), out) <==> IsOutput(target, sources, state, out) {
      assert forall c :: Contributes(target, sources, Strip(state), c) <==> Contributes(target, sources, state, c);
    }
  }

  lemma ContributionsAreProvenance(target: string, state: State, c: Contribution)
    requires Reading(target, state, c).Some?
    ensures PROVENANCE <= c.stateKey
  {
    assert Prefix(target, c.source)[..|PROVENANCE|] == PROVENANCE;
  }

  /** After the guard's output is merged nothing of the target is left to gather - unless a branch
      wrote a key that itself reads as provenance of the target - and stripping drops the consumed
      entries. */
  lemma GuardConsumes(target: string, sources: set<string>, state: State, out: Output)
    requires IsOutput(target, sources, state, out)
    requires forall key <- out.writes, s <- sources :: Carries(target, s, key).None?
    ensures forall c :: !Contributes(target, sources, Apply(state, out), c)
    ensures forall k <- out.nulled :: k !in Strip(Apply(state, out))
  {
    var after := Apply(state, out);
    forall c ensures !Contributes(target, sources, after, c) {
    }
    forall k | k in out.nulled ensures k !in Strip(after) {
      var c :| Contributes(target, sources, state, c) && c.stateKey == k;
      ContributionsAreProvenance(target, state, c);
    }
  }
}
