/** `cached_openapi_tools`: the mapped tools of a record, cached under a key made from its spec
    hash and its sorted choices, and shared by worker threads. */
module ToolCache {
  import opened JsonValues
  import opened Mapping
  import opened Revisions
  import opened DefNames

  const CACHE_SIZE: nat := 32

  // ------------------------------------------------------------ a stable sort

  /** `s` comes before or with `t`, character by character. */
  predicate TextLe(s: string, t: string) {
    |s| == 0 || (|t| > 0 && (s[0] < t[0] || (s[0] == t[0] && TextLe(s[1..], t[1..]))))
  }

  predicate KeyLe(x: OperationKey, y: OperationKey) {
    if x.verb == y.verb then TextLe(x.path, y.path) else TextLe(x.verb, y.verb)
  }

  /** Puts `x` before everything that is not less: equal keys keep their order. */
  function Insert<T>(xs: seq<T>, x: T, keyOf: T -> OperationKey): seq<T> {
    if |xs| == 0 || KeyLe(keyOf(x), keyOf(xs[0])) then [x] + xs
    else [xs[0]] + Insert(xs[1..], x, keyOf)
  }

  function Sorted<T>(xs: seq<T>, keyOf: T -> OperationKey): seq<T> {
    if |xs| == 0 then [] else Insert(Sorted(xs[1..], keyOf), xs[0], keyOf)
  }

  /** The entries with one key, in order. */
  function WithKey<T>(xs: seq<T>, k: OperationKey, keyOf: T -> OperationKey): seq<T> {
    if |xs| == 0 then []
    else WithKey(xs[..|xs| - 1], k, keyOf) + (if keyOf(xs[|xs| - 1]) == k then [xs[|xs| - 1]] else [])
  }

  lemma {:induction false} TextLeReflexive(s: string)
    ensures TextLe(s, s)
  {
    if |s| > 0 { TextLeReflexive(s[1..]); }
  }

  /** What one entry adds to those with a key. */
  function Own<T>(x: T, k: OperationKey, keyOf: T -> OperationKey): seq<T> {
    if keyOf(x) == k then [x] else []
  }

  lemma {:induction false} WithKeyCons<T>(x: T, xs: seq<T>, k: OperationKey, keyOf: T -> OperationKey)
    ensures WithKey([x] + xs, k, keyOf) == Own(x, k, keyOf) + WithKey(xs, k, keyOf)
    decreases |xs|
  {
    if |xs| == 0 {
      assert [x] + xs == [x] && [x][..0] == [];
    } else {
      var init, last := xs[..|xs| - 1], xs[|xs| - 1];
      var all := [x] + xs;
      assert all[..|all| - 1] == [x] + init && all[|all| - 1] == last;
      WithKeyCons(x, init, k, keyOf);
    }
  }

  lemma {:induction false} InsertIsStable<T>(xs: seq<T>, x: T, k: OperationKey, keyOf: T -> OperationKey)
    ensures WithKey(Insert(xs, x, keyOf), k, keyOf) == Own(x, k, keyOf) + WithKey(xs, k, keyOf)
    decreases |xs|
  {
    hide WithKey, KeyLe;
    if |xs| == 0 || KeyLe(keyOf(x), keyOf(xs[0])) {
      WithKeyCons(x, xs, k, keyOf);
    } else {
      var first, rest := xs[0], xs[1..];
      InsertIsStable(rest, x, k, keyOf);
      WithKeyCons(first, Insert(rest, x, keyOf), k, keyOf);
      WithKeyCons(first, rest, k, keyOf);
      assert [first] + rest == xs;
      DifferentKeys(x, first, k, keyOf);
    }
  }

  lemma DifferentKeys<T>(x: T, first: T, k: OperationKey, keyOf: T -> OperationKey)
    requires !KeyLe(keyOf(x), keyOf(first))
    ensures Own(x, k, keyOf) == [] || Own(first, k, keyOf) == []
  {
    TextLeReflexive(k.path);
  }

  /** Sorting keeps, for every key, its entries in their order. */
  lemma {:induction false} SortIsStable<T>(xs: seq<T>, k: OperationKey, keyOf: T -> OperationKey)
    ensures WithKey(Sorted(xs, keyOf), k, keyOf) == WithKey(xs, k, keyOf)
    decreases |xs|
  {
    hide WithKey, Insert;
    if |xs| > 0 {
      SortIsStable(xs[1..], k, keyOf);
      InsertIsStable(Sorted(xs[1..], keyOf), xs[0], k, keyOf);
      WithKeyCons(xs[0], xs[1..], k, keyOf);
      assert [xs[0]] + xs[1..] == xs;
    }
  }

  function Identity(k: OperationKey): OperationKey {
    k
  }

  function RefKey(r: OverrideRef): OperationKey {
    r.key
  }

  // ------------------------------------------------------------ the uncached function

  /** A description cut to the limit, with an ellipsis in its last place. */
  function Cut(text: string, limit: nat): string {
    if |text| <= limit then text
    else text[..if limit > 0 then limit - 1 else |text| - 1] + ['\U{2026}']
  }

  function CutAll(tools: seq<Tool>, limit: nat): (r: seq<Tool>)
    ensures |r| == |tools| && forall i :: 0 <= i < |r| ==> r[i] == tools[i].(text := Cut(tools[i].text, limit))
  {
    seq(|tools|, i requires 0 <= i < |tools| => tools[i].(text := Cut(tools[i].text, limit)))
  }

  /** `openapi_tools` under a description limit. */
  function OpenapiTools(r: Record, limit: nat): Built {
    match RecordTools(r)
    case Tools(tools) => Tools(CutAll(tools, limit))
    case Failed(problems) => Failed(problems)
  }

  // ------------------------------------------------------------ the cache key

  datatype CacheKey = CacheKey(sha: string, selection: seq<OperationKey>, overrides: seq<OverrideRef>, limit: nat)

  function KeyOf(r: Record, limit: nat): CacheKey
    requires r.snapshot.Some?
  {
    CacheKey(r.snapshot.value.sha, Sorted(r.selection, Identity), Sorted(r.overrides, RefKey), limit)
  }

  lemma {:induction false} MemberByKey(keys: seq<OperationKey>, k: OperationKey)
    ensures k in keys <==> WithKey(keys, k, Identity) != []
    decreases |keys|
  {
    if |keys| > 0 {
      MemberByKey(keys[..|keys| - 1], k);
      assert keys == keys[..|keys| - 1] + [keys[|keys| - 1]];
    }
  }

  /** A dictionary built from a list holds, for each key, its last entry. */
  lemma {:induction false} LastWins(refs: seq<OverrideRef>, k: OperationKey)
    ensures k in OverrideMap(refs) <==> WithKey(refs, k, RefKey) != []
    ensures var same := WithKey(refs, k, RefKey);
            same != [] ==> OverrideMap(refs)[k] == same[|same| - 1].change
    decreases |refs|
  {
    if |refs| > 0 {
      LastWins(refs[..|refs| - 1], k);
    }
  }

  /** Equal keys mean the same selection and the same overrides, duplicates and all. */
  lemma EqualKeysSameChoices(r: Record, r': Record, limit: nat, limit': nat)
    requires r.snapshot.Some? && r'.snapshot.Some? && KeyOf(r, limit) == KeyOf(r', limit')
    ensures SelectionSet(r) == SelectionSet(r') && OverrideMap(r.overrides) == OverrideMap(r'.overrides)
    ensures r.snapshot.value.sha == r'.snapshot.value.sha && limit == limit'
  {
    hide Sorted, WithKey, OverrideMap;
    forall k ensures k in r.selection <==> k in r'.selection {
      MemberByKey(r.selection, k);
      MemberByKey(r'.selection, k);
      SortIsStable(r.selection, k, Identity);
      SortIsStable(r'.selection, k, Identity);
    }
    forall k
      ensures k in OverrideMap(r.overrides) <==> k in OverrideMap(r'.overrides)
      ensures k in OverrideMap(r.overrides) ==> OverrideMap(r.overrides)[k] == OverrideMap(r'.overrides)[k]
    {
      LastWins(r.overrides, k);
      LastWins(r'.overrides, k);
      SortIsStable(r.overrides, k, RefKey);
      SortIsStable(r'.overrides, k, RefKey);
    }
    assert OverrideMap(r.overrides).Keys == OverrideMap(r'.overrides).Keys;
  }

  // ------------------------------------------------------------ the same choices have one key

  lemma {:induction false} TextLeOrder(s: string, t: string, u: string)
    ensures TextLe(s, t) || TextLe(t, s)
    ensures TextLe(s, t) && TextLe(t, s) ==> s == t
    ensures TextLe(s, t) && TextLe(t, u) ==> TextLe(s, u)
    decreases |s|
  {
    if |s| > 0 && |t| > 0 {
      TextLeOrder(s[1..], t[1..], if |u| > 0 then u[1..] else "");
      assert [s[0]] + s[1..] == s && [t[0]] + t[1..] == t;
    }
  }

  /** A total order on operation keys. */
  lemma KeyLeOrder(x: OperationKey, y: OperationKey, z: OperationKey)
    ensures KeyLe(x, y) || KeyLe(y, x)
    ensures KeyLe(x, y) && KeyLe(y, x) ==> x == y
    ensures KeyLe(x, y) && KeyLe(y, z) ==> KeyLe(x, z)
  {
    hide TextLe;
    TextLeOrder(x.verb, y.verb, z.verb);
    TextLeOrder(y.verb, z.verb, x.verb);
    TextLeOrder(x.path, y.path, z.path);
  }

  ghost predicate Ordered<T(!new)>(xs: seq<T>, keyOf: T -> OperationKey) {
    forall i, j :: 0 <= i < j < |xs| ==> KeyLe(keyOf(xs[i]), keyOf(xs[j]))
  }

  lemma {:induction false} InsertOrders<T(!new)>(xs: seq<T>, x: T, keyOf: T -> OperationKey)
    requires Ordered(xs, keyOf)
    ensures Ordered(Insert(xs, x, keyOf), keyOf)
    ensures forall y :: y in Insert(xs, x, keyOf) <==> y == x || y in xs
    decreases |xs|
  {
    hide KeyLe;
    if |xs| == 0 || KeyLe(keyOf(x), keyOf(xs[0])) {
      forall j | 0 <= j < |xs|
        ensures KeyLe(keyOf(x), keyOf(xs[j]))
      {
        KeyLeOrder(keyOf(x), keyOf(xs[0]), keyOf(xs[j]));
      }
    } else {
      var rest := xs[1..];
      assert xs == [xs[0]] + rest;
      KeyLeOrder(keyOf(x), keyOf(xs[0]), keyOf(x));
      InsertOrders(rest, x, keyOf);
      var r := Insert(rest, x, keyOf);
      forall j | 0 <= j < |r|
        ensures KeyLe(keyOf(xs[0]), keyOf(r[j]))
      {
        assert r[j] in r;
        if r[j] != x {
          var k :| 0 <= k < |rest| && rest[k] == r[j];
          assert xs[k + 1] == r[j];
        }
      }
    }
  }

  lemma {:induction false} SortOrders<T(!new)>(xs: seq<T>, keyOf: T -> OperationKey)
    ensures Ordered(Sorted(xs, keyOf), keyOf)
    decreases |xs|
  {
    hide Insert, Ordered;
    if |xs| > 0 {
      SortOrders(xs[1..], keyOf);
      InsertOrders(Sorted(xs[1..], keyOf), xs[0], keyOf);
    } else {
      NothingOrdered(keyOf);
    }
  }

  lemma NothingOrdered<T(!new)>(keyOf: T -> OperationKey)
    ensures Ordered([], keyOf)
  {
  }

  lemma {:induction false} WithKeyHolds<T(!new)>(xs: seq<T>, k: OperationKey, keyOf: T -> OperationKey)
    ensures WithKey(xs, k, keyOf) != [] <==> exists i :: 0 <= i < |xs| && keyOf(xs[i]) == k
    decreases |xs|
  {
    if |xs| > 0 {
      var init := xs[..|xs| - 1];
      WithKeyHolds(init, k, keyOf);
      if i :| 0 <= i < |xs| && keyOf(xs[i]) == k {
        if i < |init| { assert init[i] == xs[i]; }
      }
    }
  }

  /** The same entries under every key. */
  ghost predicate SameByKey<T(!new)>(xs: seq<T>, ys: seq<T>, keyOf: T -> OperationKey) {
    forall k :: WithKey(xs, k, keyOf) == WithKey(ys, k, keyOf)
  }

  lemma HeadsLe<T(!new)>(xs: seq<T>, ys: seq<T>, keyOf: T -> OperationKey)
    requires Ordered(xs, keyOf) && SameByKey(xs, ys, keyOf) && |ys| > 0
    ensures |xs| > 0 && KeyLe(keyOf(xs[0]), keyOf(ys[0]))
  {
    hide WithKey, KeyLe;
    var k := keyOf(ys[0]);
    WithKeyHolds(ys, k, keyOf);
    WithKeyHolds(xs, k, keyOf);
    var i :| 0 <= i < |xs| && keyOf(xs[i]) == k;
    KeyLeOrder(k, k, k);
  }

  lemma TailsSame<T(!new)>(xs: seq<T>, ys: seq<T>, keyOf: T -> OperationKey)
    requires |xs| > 0 && |ys| > 0 && SameByKey(xs, ys, keyOf) && keyOf(xs[0]) == keyOf(ys[0])
    ensures xs[0] == ys[0] && SameByKey(xs[1..], ys[1..], keyOf)
  {
    hide WithKey;
    assert [xs[0]] + xs[1..] == xs && [ys[0]] + ys[1..] == ys;
    forall k
      ensures WithKey(xs[1..], k, keyOf) == WithKey(ys[1..], k, keyOf) && (k == keyOf(xs[0]) ==> xs[0] == ys[0])
    {
      WithKeyCons(xs[0], xs[1..], k, keyOf);
      WithKeyCons(ys[0], ys[1..], k, keyOf);
      var before, after := WithKey(xs[1..], k, keyOf), WithKey(ys[1..], k, keyOf);
      if k == keyOf(xs[0]) {
        assert ([xs[0]] + before)[0] == xs[0] && ([ys[0]] + after)[0] == ys[0];
        assert ([xs[0]] + before)[1..] == before && ([ys[0]] + after)[1..] == after;
      } else {
        assert [] + before == before && [] + after == after;
      }
    }
    assert WithKey(xs[1..], keyOf(xs[0]), keyOf) == WithKey(ys[1..], keyOf(xs[0]), keyOf);
  }

  lemma {:induction false} OrderedUnique<T(!new)>(xs: seq<T>, ys: seq<T>, keyOf: T -> OperationKey)
    requires Ordered(xs, keyOf) && Ordered(ys, keyOf) && SameByKey(xs, ys, keyOf)
    ensures xs == ys
    decreases |xs|
  {
    hide WithKey, KeyLe, SameByKey;
    if |ys| > 0 || |xs| > 0 {
      if |ys| > 0 { HeadsLe(xs, ys, keyOf); }
      Backwards(xs, ys, keyOf);
      if |xs| > 0 { HeadsLe(ys, xs, keyOf); }
      KeyLeOrder(keyOf(xs[0]), keyOf(ys[0]), keyOf(xs[0]));
      TailsSame(xs, ys, keyOf);
      OrderedUnique(xs[1..], ys[1..], keyOf);
      assert [xs[0]] + xs[1..] == xs && [ys[0]] + ys[1..] == ys;
    }
  }

  lemma Backwards<T(!new)>(xs: seq<T>, ys: seq<T>, keyOf: T -> OperationKey)
    requires SameByKey(xs, ys, keyOf)
    ensures SameByKey(ys, xs, keyOf)
  {
    hide WithKey;
  }

  /** Two lists sort to one exactly when only the order between different operations differs. */
  lemma SortedAlikeIff<T(!new)>(xs: seq<T>, ys: seq<T>, keyOf: T -> OperationKey)
    ensures Sorted(xs, keyOf) == Sorted(ys, keyOf) <==> SameByKey(xs, ys, keyOf)
  {
    hide Sorted, WithKey, Ordered;
    forall k
      ensures WithKey(Sorted(xs, keyOf), k, keyOf) == WithKey(xs, k, keyOf)
      ensures WithKey(Sorted(ys, keyOf), k, keyOf) == WithKey(ys, k, keyOf)
    {
      SortIsStable(xs, k, keyOf);
      SortIsStable(ys, k, keyOf);
    }
    if SameByKey(xs, ys, keyOf) {
      SortOrders(xs, keyOf);
      SortOrders(ys, keyOf);
      OrderedUnique(Sorted(xs, keyOf), Sorted(ys, keyOf), keyOf);
    }
  }

  /** Records share a key exactly when they have one spec and one limit, and choose the same with
      only the order between different operations apart. */
  lemma KeysAlikeIff(r: Record, r': Record, limit: nat, limit': nat)
    requires r.snapshot.Some? && r'.snapshot.Some?
    ensures KeyOf(r, limit) == KeyOf(r', limit') <==>
            && r.snapshot.value.sha == r'.snapshot.value.sha && limit == limit'
            && SameByKey(r.selection, r'.selection, Identity)
            && SameByKey(r.overrides, r'.overrides, RefKey)
  {
    hide Sorted, SameByKey;
    SortedAlikeIff(r.selection, r'.selection, Identity);
    SortedAlikeIff(r.overrides, r'.overrides, RefKey);
  }

  // ------------------------------------------------------------ the cache

  type Entries = seq<(CacheKey, Built)>

  function Find(entries: Entries, key: CacheKey): (r: Option<Built>)
    ensures r.Some? ==> (key, r.value) in entries
    ensures r.None? ==> forall e :: e in entries ==> e.0 != key
  {
    if |entries| == 0 then None
    else
      assert entries == [entries[0]] + entries[1..];
      if entries[0].0 == key then Some(entries[0].1) else Find(entries[1..], key)
  }

  function Without(entries: Entries, key: CacheKey): (r: Entries)
    ensures (forall e :: e in r ==> e in entries) && |r| <= |entries|
  {
    if |entries| == 0 then []
    else
      assert entries == [entries[0]] + entries[1..];
      if entries[0].0 == key then entries[1..] else [entries[0]] + Without(entries[1..], key)
  }

  /** `_cache[key] = value`: in place when the key is there, at the end when not. */
  function Set(entries: Entries, key: CacheKey, value: Built): (r: Entries)
    ensures forall e :: e in r ==> e == (key, value) || e in entries
  {
    if |entries| == 0 then [(key, value)]
    else
      assert entries == [entries[0]] + entries[1..];
      if entries[0].0 == key then [(key, value)] + entries[1..] else [entries[0]] + Set(entries[1..], key, value)
  }

  function Trim(entries: Entries): (r: Entries)
    ensures |r| <= 32 && forall e :: e in r ==> e in entries
  {
    if |entries| > CACHE_SIZE then Trim(entries[1..]) else entries
  }

  /** What is kept is the newest. */
  lemma {:induction false} TrimKeepsNewest(entries: Entries)
    ensures Trim(entries) == if |entries| <= 32 then entries else entries[|entries| - 32..]
  {
    if |entries| > 32 {
      TrimKeepsNewest(entries[1..]);
    }
  }

  /** The first lock section: a hit moves to the end. */
  function Looked(entries: Entries, key: CacheKey): (Entries, Option<Built>) {
    match Find(entries, key)
    case Some(value) => (Without(entries, key) + [(key, value)], Some(value))
    case None => (entries, None)
  }

  /** Nothing is lost by a lookup, and a hit becomes the newest entry. */
  lemma LookedKeeps(entries: Entries, key: CacheKey)
    ensures var (after, hit) := Looked(entries, key);
            && multiset(after) == multiset(entries)
            && (hit.Some? ==> |after| > 0 && after[|after| - 1] == (key, hit.value))
            && (hit.None? ==> after == entries && forall e :: e in entries ==> e.0 != key)
  {
    hide Without;
    if Find(entries, key).Some? {
      WithoutFound(entries, key);
    }
  }

  lemma {:induction false} WithoutFound(entries: Entries, key: CacheKey)
    requires Find(entries, key).Some?
    ensures multiset(Without(entries, key) + [(key, Find(entries, key).value)]) == multiset(entries)
    decreases |entries|
  {
    assert entries == [entries[0]] + entries[1..];
    if entries[0].0 != key {
      WithoutFound(entries[1..], key);
    }
  }

  class SharedToolCache {
    var entries: Entries

    constructor ()
      ensures entries == []
    {
      entries := [];
    }

    method Lookup(key: CacheKey) returns (hit: Option<Built>)
      modifies this
      ensures (entries, hit) == Looked(old(entries), key)
    {
      hit := Find(entries, key);
      if hit.Some? {
        entries := Without(entries, key) + [(key, hit.value)];
      }
    }

    method Store(key: CacheKey, value: Built)
      modifies this
      ensures entries == Trim(Set(old(entries), key, value))
    {
      entries := Set(entries, key, value);
      while |entries| > CACHE_SIZE
        invariant Trim(entries) == Trim(Set(old(entries), key, value))
      {
        entries := entries[1..];
      }
    }
  }

  // ------------------------------------------------------------ threads

  datatype Thread = Computing(record: Record, limit: nat)

  datatype Answer = Answer(record: Record, limit: nat, result: Built)

  datatype State = State(entries: Entries, threads: map<nat, Thread>, answers: seq<Answer>)

  datatype Action = Ask(thread: nat, record: Record, limit: nat) | Complete(thread: nat)

  function Step(s: State, a: Action): State {
    match a
    case Ask(thread, record, limit) =>
      if thread in s.threads then s
      else if record.snapshot.None? then s.(answers := s.answers + [Answer(record, limit, Tools([]))])
      else
        var (entries, hit) := Looked(s.entries, KeyOf(record, limit));
        if hit.Some? then s.(entries := entries, answers := s.answers + [Answer(record, limit, hit.value)])
        else s.(threads := s.threads[thread := Computing(record, limit)])
    case Complete(thread) =>
      if thread !in s.threads || s.threads[thread].record.snapshot.None? then s
      else
        var Computing(record, limit) := s.threads[thread];
        State(Trim(Set(s.entries, KeyOf(record, limit), OpenapiTools(record, limit))), s.threads - {thread},
              s.answers + [Answer(record, limit, OpenapiTools(record, limit))])
  }

  function Run(actions: seq<Action>): State {
    if |actions| == 0 then State([], map[], []) else Step(Run(actions[..|actions| - 1]), actions[|actions| - 1])
  }

  /** The hash identifies the document: `docs` is the spec each hash stands for. */
  ghost predicate Honest(docs: string -> seq<Operation>, r: Record) {
    r.snapshot.Some? ==> r.snapshot.value.ops == docs(r.snapshot.value.sha)
  }

  ghost predicate EntryOk(docs: string -> seq<Operation>, e: (CacheKey, Built)) {
    forall r, limit :: Honest(docs, r) && r.snapshot.Some? && KeyOf(r, limit) == e.0 ==> e.1 == OpenapiTools(r, limit)
  }

  ghost predicate Inv(docs: string -> seq<Operation>, s: State) {
    && |s.entries| <= 32
    && (forall e :: e in s.entries ==> EntryOk(docs, e))
    && (forall t :: t in s.threads ==> Honest(docs, s.threads[t].record))
    && (forall x :: x in s.answers ==> x.result == OpenapiTools(x.record, x.limit))
  }

  lemma StoredOk(docs: string -> seq<Operation>, r: Record, limit: nat)
    requires Honest(docs, r) && r.snapshot.Some?
    ensures EntryOk(docs, (KeyOf(r, limit), OpenapiTools(r, limit)))
  {
    hide KeyOf, Outcome, OverrideMap;
    forall r', limit' | Honest(docs, r') && r'.snapshot.Some? && KeyOf(r', limit') == KeyOf(r, limit)
      ensures OpenapiTools(r, limit) == OpenapiTools(r', limit')
    {
      EqualKeysSameChoices(r, r', limit, limit');
    }
  }

  lemma StepKeepsInv(docs: string -> seq<Operation>, s: State, a: Action)
    requires Inv(docs, s) && (a.Ask? ==> Honest(docs, a.record))
    ensures Inv(docs, Step(s, a))
  {
    hide KeyOf, Outcome, EntryOk;
    match a
    case Ask(thread, record, limit) =>
      if thread !in s.threads && record.snapshot.Some? {
        var key := KeyOf(record, limit);
        var hit := Find(s.entries, key);
        if hit.Some? {
          HitOk(docs, (key, hit.value), record, limit);
          WithoutShrinks(s.entries, key, hit.value);
        }
      }
    case Complete(thread) =>
      if thread in s.threads && s.threads[thread].record.snapshot.Some? {
        StoredOk(docs, s.threads[thread].record, s.threads[thread].limit);
      }
  }

  lemma HitOk(docs: string -> seq<Operation>, e: (CacheKey, Built), r: Record, limit: nat)
    requires EntryOk(docs, e) && Honest(docs, r) && r.snapshot.Some? && e.0 == KeyOf(r, limit)
    ensures e.1 == OpenapiTools(r, limit)
  {
  }

  lemma {:induction false} WithoutShrinks(entries: Entries, key: CacheKey, value: Built)
    requires (key, value) in entries
    ensures |Without(entries, key)| == |entries| - 1
    decreases |entries|
  {
    if entries[0].0 != key {
      assert entries == [entries[0]] + entries[1..];
      WithoutShrinks(entries[1..], key, value);
    }
  }

  /** Under any interleaving of threads, every answer is what the uncached function gives
      (tools or problems), and the cache never holds more than its limit. */
  lemma {:induction false} CacheAgrees(docs: string -> seq<Operation>, actions: seq<Action>)
    requires forall i :: 0 <= i < |actions| && actions[i].Ask? ==> Honest(docs, actions[i].record)
    ensures Inv(docs, Run(actions))
    decreases |actions|
  {
    hide Step, Honest, EntryOk;
    if |actions| > 0 {
      CacheAgrees(docs, actions[..|actions| - 1]);
      StepKeepsInv(docs, Run(actions[..|actions| - 1]), actions[|actions| - 1]);
    }
  }

  /** A description fits the limit, and is cut only when it does not. */
  lemma CutFits(text: string, limit: nat)
    requires limit > 0
    ensures |text| <= limit ==> Cut(text, limit) == text
    ensures |text| > limit ==>
              |Cut(text, limit)| == limit && Cut(text, limit)[..limit - 1] == text[..limit - 1] &&
              Cut(text, limit)[limit - 1] == '\U{2026}'
  {
  }

  /** Neither the limit nor an override's description could be left out of the key: each alone
      changes what is served. */
  lemma KeyNeedsLimitAndDescription()
    ensures var get := OperationKey("GET", "/a");
            var spec := Snapshot("sha", [Operation(get, Some("a"), "text", true, false)]);
            var r := Record("base", Some(spec), None, [get], [], None, 0, []);
            var described := r.(overrides := [OverrideRef(get, Override(None, Some("mine")))]);
            && OpenapiTools(r, 10) == Tools([Tool(get, "a", "text")])
            && OpenapiTools(described, 10) == Tools([Tool(get, "a", "mine")])
            && OpenapiTools(r, 1) != OpenapiTools(r, 10)
  {
    hide OpenapiTools, Cut, OverrideMap, Description;
    var get := OperationKey("GET", "/a");
    var op := Operation(get, Some("a"), "text", true, false);
    var r := Record("base", Some(Snapshot("sha", [op])), None, [get], [], None, 0, []);
    var change := Override(None, Some("mine"));
    var described := r.(overrides := [OverrideRef(get, change)]);
    OneOverride(OverrideRef(get, change));
    Descriptions(op, change);
    CutShort("text", "mine");
    OnlyTool(r, op, 10);
    OnlyTool(r, op, 1);
    OnlyTool(described, op, 10);
  }

  lemma OneOverride(o: OverrideRef)
    ensures OverrideMap([]) == map[] && OverrideMap([o]) == map[o.key := o.change]
  {
    assert [o][..0] == [];
  }

  lemma Descriptions(op: Operation, change: Override)
    requires change.description.Some?
    ensures Description(op, map[]) == op.text && Description(op, map[op.key := change]) == change.description.value
  {
  }

  lemma CutShort(x: string, y: string)
    requires 1 < |x| <= 10 && |y| <= 10
    ensures Cut(x, 10) == x && Cut(y, 10) == y && Cut(x, 1) != x
  {
    assert |Cut(x, 1)| == 1;
  }

  /** A record that serves one plain operation serves one tool. */
  lemma OnlyTool(r: Record, op: Operation, limit: nat)
    requires r.snapshot.Some? && r.snapshot.value.ops == [op] && r.selection == [op.key]
    requires op.operationId == Some("a") && op.supported
    requires op.key in OverrideMap(r.overrides) ==> OverrideMap(r.overrides)[op.key].name.None?
    ensures OpenapiTools(r, limit) == Tools([Tool(op.key, "a", Cut(Description(op, OverrideMap(r.overrides)), limit))])
  {
    hide Outcome, Cut, Description, OverrideMap, ToolName, NameProblem;
    var overrides := OverrideMap(r.overrides);
    PlainName(op, overrides);
    assert SelectionSet(r) == {op.key};
    OneTool(op, overrides, {op.key});
    var tools := [Served(op, overrides)];
    assert CutAll(tools, limit) == [Tool(op.key, "a", Cut(Description(op, overrides), limit))];
  }

  /** A short plain operation id is the tool's name unless an override gives another. */
  lemma PlainName(op: Operation, overrides: map<OperationKey, Override>)
    requires op.operationId == Some("a")
    requires op.key in overrides ==> overrides[op.key].name.None?
    ensures ToolName(op, overrides) == "a" && !NameProblem(op, overrides)
  {
    hide FallbackName;
    var one := "a";
    assert one[1..] == "" && one[..0] == "";
    assert Sanitize("") == "";
    assert Sanitize("a") == "a";
    assert Strip("a") == "a" && Truncate("a") == "a";
  }

  lemma OneTool(op: Operation, overrides: map<OperationKey, Override>, selection: set<OperationKey>)
    requires op.supported && op.key in selection && !NameProblem(op, overrides)
    ensures Outcome([op], overrides, selection) == Tools([Served(op, overrides)])
  {
    hide Outcome, ToolName, NameProblem;
    BuiltIffServable([op], overrides, selection);
    assert [op][1..] == [] && Picked([op], selection) == [op] + [];
    assert ServedAs([op], overrides) == [Served(op, overrides)];
  }
}
