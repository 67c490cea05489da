/** The bundled schemas form a scope of their own, and following refs in it ends. */
module BundledScope {
  import opened JsonValues
  import opened Schemas
  import opened SchemaConvert
  import opened SchemaPreserved

  ghost predicate Injective(names: Names) {
    forall x, y :: x in names && y in names && names[x] == names[y] ==> x == y
  }

  lemma DefRefInjective(x: string, y: string)
    requires DefRef(x) == DefRef(y)
    ensures x == y
  {
    assert x == DefRef(x)[8..] && y == DefRef(y)[8..];
  }

  lemma DefRefsDiffer(names: Names)
    requires Injective(names)
    ensures forall x, y :: x in names && y in names && DefRef(names[x]) == DefRef(names[y]) ==> x == y
  {
    hide DefRef;
    forall x, y | x in names && y in names && DefRef(names[x]) == DefRef(names[y])
      ensures x == y
    {
      DefRefInjective(names[x], names[y]);
    }
  }

  /** Every named ref leads somewhere, and naming is closed. */
  ghost predicate Closed(names: Names, d: Dialect, src: Scope) {
    forall ref :: ref in names ==> ref in src.target && ConvRefs(d, src.target[ref]) <= names.Keys
  }

  /** The `$defs` of the bundle, each ranked as the ref it was bundled for. */
  ghost function BundleOf(names: Names, d: Dialect, src: Scope): Scope
    requires Injective(names) && Closed(names, d, src) && WellRanked(src)
  {
    hide Converted, ConvRefs, Rank, DefRef;
    DefRefsDiffer(names);
    Scope(map ref | ref in names :: DefRef(names[ref]) := Converted(names, d, src.target[ref]),
          map ref | ref in names :: DefRef(names[ref]) := src.rank[ref])
  }

  lemma BundleRefRank(names: Names, d: Dialect, src: Scope, ref: string)
    requires Injective(names) && Closed(names, d, src) && WellRanked(src) && ref in names
    ensures RefRank(BundleOf(names, d, src), Some(DefRef(names[ref]))) == RefRank(src, Some(ref))
  {
    hide Converted, ConvRefs, Rank, DefRef;
    DefRefsDiffer(names);
    var out := BundleOf(names, d, src);
    assert DefRef(names[ref]) in out.rank && out.rank[DefRef(names[ref])] == src.rank[ref];
  }

  lemma OneConverted(names: Names, d: Dialect, s: Json, c: Json, key: Key)
    requires SubKey(key) && Member(c, key) == ConvertedMember(names, d, s, key)
    ensures OneAt(c, key) == ConvertList(names, d, OneAt(s, key))
  {
    hide Get, Converted;
  }

  lemma ConvertListAppend(names: Names, d: Dialect, xs: seq<Json>, ys: seq<Json>)
    ensures ConvertList(names, d, xs + ys) == ConvertList(names, d, xs) + ConvertList(names, d, ys)
  {
    hide Converted;
  }

  lemma MirrorsSameInstance(names: Names, d: Dialect, s: Json, c: Json)
    requires Mirrors(names, d, s, c)
    ensures SameInstance(c) == ConvertList(names, d, SameInstance(s))
  {
    hide Get, ConvertList, ConvertedMember, ListAt, OneAt;
    ListConverted(names, d, s, c, KAllOf);
    ListConverted(names, d, s, c, KAnyOf);
    ListConverted(names, d, s, c, KOneOf);
    OneConverted(names, d, s, c, KNot);
    OneConverted(names, d, s, c, KIf);
    OneConverted(names, d, s, c, KThen);
    OneConverted(names, d, s, c, KElse);
    var all, any, one, neg := ListAt(s, KAllOf), ListAt(s, KAnyOf), ListAt(s, KOneOf), OneAt(s, KNot);
    var cond, yes, no := OneAt(s, KIf), OneAt(s, KThen), OneAt(s, KElse);
    ConvertListAppend(names, d, all, any);
    ConvertListAppend(names, d, all + any, one);
    ConvertListAppend(names, d, all + any + one, neg);
    ConvertListAppend(names, d, all + any + one + neg, cond);
    ConvertListAppend(names, d, all + any + one + neg + cond, yes);
    ConvertListAppend(names, d, all + any + one + neg + cond + yes, no);
  }

  /** Conversion adds no same-instance ref, so nothing ranks higher than it did. */
  lemma {:induction false} RankConverted(names: Names, d: Dialect, src: Scope, s: Json)
    requires Injective(names) && Closed(names, d, src) && WellRanked(src)
    requires ConvRefs(d, s) <= names.Keys
    ensures Rank(BundleOf(names, d, src), Converted(names, d, s)) <= Rank(src, s)
    decreases s, 2
  {
    hide Get, Written, BundleOf, LocalOk, Mirrors, Bounds30, Dialect30, FieldRefs, OrNull, WellRanked;
    var out := BundleOf(names, d, src);
    var c := Converted(names, d, s);
    if !s.Obj? {
    } else if RefOf(s).Some? {
      var ref := RefOf(s).value;
      BundleRefRank(names, d, src, ref);
      if d.V31? {
        Converted31((_, _, _) => true, names, s, Null);
        MirrorsRank(names, d, src, s, c);
      } else {
        var field := (KRef, Str(DefRef(NameOf(names, ref))));
        Prefixed(field, []);
        assert [field] + [] == [field];
        BareRefRank(out, c);
      }
    } else if NullableUntyped(d, s) {
      ConvertedOrNull((_, _, _) => true, names, s, Null);
      var inner := Obj(Bounds30(s, Written(names, d, s, false)));
      MirrorsRank(names, d, src, s, inner);
      OrNullRank(out, inner.fields);
    } else {
      if d.V30? {
        Converted30((_, _, _) => true, names, s, Null);
      } else {
        Converted31((_, _, _) => true, names, s, Null);
      }
      MirrorsRank(names, d, src, s, c);
    }
  }

  lemma BareRefRank(scope: Scope, s: Json)
    requires s.Obj? && forall key :: key != KRef ==> Member(s, key).None?
    ensures Rank(scope, s) == RefRank(scope, RefOf(s))
  {
    hide Get;
    assert SameInstance(s) == [];
  }

  lemma OrNullRank(scope: Scope, fields: Fields)
    ensures Rank(scope, OrNull(fields)) == Rank(scope, Obj(fields))
  {
    var any := [Obj(fields), NULL_SCHEMA];
    var f, g := (KAnyOf, Arr(any)), (KType, Str("null"));
    Prefixed(f, []);
    Prefixed(g, []);
    assert [f] + [] == [f] && [g] + [] == [g];
    var s := OrNull(fields);
    assert SameInstance(s) == any;
    assert SameInstance(NULL_SCHEMA) == [];
    assert any[1..] == [NULL_SCHEMA] && any[1..][1..] == [];
    assert Rank(scope, NULL_SCHEMA) == 0;
    assert MaxRank(scope, s, any[1..]) == 0;
  }

  lemma {:induction false} MirrorsRank(names: Names, d: Dialect, src: Scope, s: Json, c: Json)
    requires Injective(names) && Closed(names, d, src) && WellRanked(src)
    requires Mirrors(names, d, s, c) && FieldRefs(d, s) <= names.Keys
    requires RefRank(BundleOf(names, d, src), RefOf(c)) <= RefRank(src, RefOf(s))
    ensures Rank(BundleOf(names, d, src), c) <= Rank(src, s)
    decreases s, 1
  {
    hide Get, BundleOf, FieldRefs, SameInstance, ConvertedMember, WellRanked, Converted, ConvRefs;
    MirrorsSameInstance(names, d, s, c);
    forall i | 0 <= i < |SameInstance(s)|
      ensures ConvRefs(d, SameInstance(s)[i]) <= names.Keys
    {
      RefsUnderSameInstance(d, s, i);
    }
    MaxRankConverted(names, d, src, s, c, SameInstance(s));
  }

  lemma RefsUnderSameInstance(d: Dialect, s: Json, i: nat)
    requires i < |SameInstance(s)|
    ensures ConvRefs(d, SameInstance(s)[i]) <= FieldRefs(d, s)
  {
    hide Get, FieldRefs, ConvRefs, ListAt;
    RefsUnderList(d, s, KAllOf);
    RefsUnderList(d, s, KAnyOf);
    RefsUnderList(d, s, KOneOf);
    if Has(s, KNot) { RefsUnderOne(d, s, KNot); }
    if Has(s, KIf) { RefsUnderOne(d, s, KIf); }
    if Has(s, KThen) { RefsUnderOne(d, s, KThen); }
    if Has(s, KElse) { RefsUnderOne(d, s, KElse); }
  }

  lemma {:induction false} MaxRankConverted(names: Names, d: Dialect, src: Scope, s: Json, c: Json, xs: seq<Json>)
    requires Injective(names) && Closed(names, d, src) && WellRanked(src)
    requires forall i :: 0 <= i < |xs| ==> xs[i] < s && ConvRefs(d, xs[i]) <= names.Keys
    requires forall i :: 0 <= i < |xs| ==> ConvertList(names, d, xs)[i] < c
    ensures MaxRank(BundleOf(names, d, src), c, ConvertList(names, d, xs)) <= MaxRank(src, s, xs)
    decreases s, 0, |xs|
  {
    hide Get, BundleOf, Rank, WellRanked, Converted, ConvRefs, Injective, Closed;
    var ys := ConvertList(names, d, xs);
    if |xs| > 0 {
      RankConverted(names, d, src, xs[0]);
      assert ys[1..] == ConvertList(names, d, xs[1..]);
      MaxRankConverted(names, d, src, s, c, xs[1..]);
    }
  }

  lemma BundleEntry(names: Names, d: Dialect, src: Scope, ref: string)
    requires Injective(names) && Closed(names, d, src) && WellRanked(src) && ref in names
    ensures var out := BundleOf(names, d, src);
            && DefRef(names[ref]) in out.target
            && DefRef(names[ref]) in out.rank
            && out.target[DefRef(names[ref])] == Converted(names, d, src.target[ref])
            && out.rank[DefRef(names[ref])] == src.rank[ref]
  {
    hide Rank, Converted, ConvRefs, DefRef, WellRanked;
    var out := BundleOf(names, d, src);
    assert DefRef(names[ref]) in out.target;
    var r :| r in names && DefRef(names[r]) == DefRef(names[ref])
      && out.target[DefRef(names[ref])] == Converted(names, d, src.target[r]);
    DefRefInjective(names[r], names[ref]);
    BundleRefRank(names, d, src, ref);
  }

  lemma BundleKeys(names: Names, d: Dialect, src: Scope)
    requires Injective(names) && Closed(names, d, src) && WellRanked(src)
    ensures var out := BundleOf(names, d, src);
            out.rank.Keys == out.target.Keys == set ref | ref in names :: DefRef(names[ref])
  {
    hide Converted, ConvRefs, DefRef, WellRanked;
  }

  /** The bundle is a scope whose refs end, and it holds the conversion of every target. */
  lemma BundleWellRanked(names: Names, d: Dialect, src: Scope)
    requires Injective(names) && Closed(names, d, src) && WellRanked(src)
    ensures WellRanked(BundleOf(names, d, src))
    ensures Bundled(names, d, src, BundleOf(names, d, src))
  {
    hide Rank, Converted, ConvRefs, DefRef, BundleOf;
    var out := BundleOf(names, d, src);
    BundleKeys(names, d, src);
    forall ref | ref in names
      ensures DefRef(names[ref]) in out.target
      ensures out.target[DefRef(names[ref])] == Converted(names, d, src.target[ref])
      ensures Rank(out, out.target[DefRef(names[ref])]) <= out.rank[DefRef(names[ref])]
    {
      BundleEntry(names, d, src, ref);
      RankConverted(names, d, src, src.target[ref]);
    }
  }
}
