/** A document that passed the ref check gives every schema in it a meaning: its refs form
    a scope in which following them always ends. */
module CheckedScope {
  import opened JsonValues
  import opened Schemas
  import opened SchemaConvert
  import opened Traversal
  import opened RefGraph
  import opened RefCheck

  // ------------------------------------------------------------ refs below are refs above

  lemma ChildSites(v: Json, i: nat, ref: string)
    requires i < |Children(v)| && ref in Sites(Children(v)[i])
    ensures ref in Sites(v)
  {
    ChildrenDescend();
    GatherChild(Children, OwnRef, v, i, ref);
  }

  lemma FieldSites(v: Json, i: nat, ref: string)
    requires v.Obj? && i < |v.fields| && ref in Sites(v.fields[i].1)
    ensures ref in Sites(v)
  {
    hide Sites;
    assert Children(v)[i] == v.fields[i].1;
    ChildSites(v, i, ref);
  }

  lemma MemberSites(v: Json, key: Key, ref: string)
    requires Has(v, key) && ref in Sites(Member(v, key).value)
    ensures ref in Sites(v)
  {
    hide Sites;
    var x := Member(v, key).value;
    assert (key, x) in v.fields;
    var i :| 0 <= i < |v.fields| && v.fields[i] == (key, x);
    FieldSites(v, i, ref);
  }

  lemma ListSites(v: Json, key: Key, i: nat, ref: string)
    requires i < |ListAt(v, key)| && ref in Sites(ListAt(v, key)[i])
    ensures ref in Sites(v)
  {
    hide Sites;
    var list := Member(v, key).value;
    assert Children(list)[i] == list.items[i];
    ChildSites(list, i, ref);
    MemberSites(v, key, ref);
  }

  lemma StepSites(node: Json, part: string, ref: string)
    requires Step(node, part).Some? && ref in Sites(Step(node, part).value)
    ensures ref in Sites(node)
  {
    hide Sites;
    match node
    case Obj(fields) =>
      var i :| 0 <= i < |fields| && fields[i].1 == GetText(fields, part).value;
      FieldSites(node, i, ref);
    case Arr(items) =>
      assert Children(node)[Number(part)] == items[Number(part)];
      ChildSites(node, Number(part), ref);
    case _ =>
  }

  lemma {:induction false} WalkSites(node: Json, parts: Pointer, ref: string)
    requires Walk(node, parts).Some? && ref in Sites(Walk(node, parts).value)
    ensures ref in Sites(node)
    decreases |parts|
  {
    if |parts| > 0 {
      WalkSites(Step(node, parts[0]).value, parts[1..], ref);
      StepSites(node, parts[0], ref);
    }
  }

  /** What a ref leads to holds no ref the document does not hold. */
  lemma TargetSites(unquote: Unquote, document: Json, source: string, ref: string)
    requires Resolve(unquote, document, source).Some?
    requires ref in Sites(Resolve(unquote, document, source).value)
    ensures ref in Sites(document)
  {
    WalkSites(document, PointerOf(unquote, source).value, ref);
  }

  lemma OwnSite(v: Json, ref: string)
    requires RefOf(v) == Some(ref)
    ensures ref in Sites(v)
  {
    ChildrenDescend();
    assert OwnRef(v)[0] == ref;
  }

  lemma SameInstanceSites(s: Json, i: nat, ref: string)
    requires i < |SameInstance(s)| && ref in Sites(SameInstance(s)[i])
    ensures ref in Sites(s)
  {
    hide Sites, ListAt;
    var x := SameInstance(s)[i];
    var lists := ListAt(s, KAllOf) + ListAt(s, KAnyOf) + ListAt(s, KOneOf);
    if i < |lists| {
      var key := if x in ListAt(s, KAllOf) then KAllOf else if x in ListAt(s, KAnyOf) then KAnyOf else KOneOf;
      assert x in lists && x in ListAt(s, key);
      var j :| 0 <= j < |ListAt(s, key)| && ListAt(s, key)[j] == x;
      ListSites(s, key, j, ref);
    } else {
      var ones := OneAt(s, KNot) + OneAt(s, KIf) + OneAt(s, KThen) + OneAt(s, KElse);
      assert SameInstance(s) == lists + ones;
      assert x == ones[i - |lists|];
      var key := if x in OneAt(s, KNot) then KNot else if x in OneAt(s, KIf) then KIf
                 else if x in OneAt(s, KThen) then KThen else KElse;
      assert x in ones && x in OneAt(s, key);
      MemberSites(s, key, ref);
    }
  }

  lemma {:induction false} SameRefsAreSites(s: Json, ref: string)
    requires ref in SameRefs(s)
    ensures ref in Sites(s)
    decreases s
  {
    ChildrenDescend();
    if ref in OwnRef(s) {
      OwnSite(s, ref);
    } else {
      GatherSource(SameInstance, OwnRef, s, SameInstance(s), ref);
      var i :| 0 <= i < |SameInstance(s)| && ref in Gather(SameInstance, OwnRef, SameInstance(s)[i]);
      SameRefsAreSites(SameInstance(s)[i], ref);
      SameInstanceSites(s, i, ref);
    }
  }

  /** Conversion meets only refs the document holds. */
  lemma {:induction false} ConvRefsAreSites(d: Dialect, s: Json, ref: string)
    requires ref in ConvRefs(d, s)
    ensures ref in Sites(s)
    decreases s
  {
    hide Sites;
    if RefOf(s) == Some(ref) {
      OwnSite(s, ref);
    } else {
      var fields := Entries(s);
      var i :| 0 <= i < |fields| && !Dropped(fields[i].0) && ref in ValueRefs(d, fields[i].0, fields[i].1);
      ValueRefsAreSites(d, s, fields[i].0, fields[i].1, ref);
      FieldSites(s, i, ref);
    }
  }

  lemma {:induction false} ValueRefsAreSites(d: Dialect, s: Json, key: Key, value: Json, ref: string)
    requires value < s && ref in ValueRefs(d, key, value)
    ensures ref in Sites(value)
    decreases s, 0
  {
    hide Sites, ConvRefs;
    if key in ONE_SCHEMA {
      ConvRefsAreSites(d, value, ref);
    } else if key in SCHEMA_MAPS && value.Obj? {
      var fields := Entries(value);
      var i :| 0 <= i < |fields| && ref in ConvRefs(d, fields[i].1);
      ConvRefsAreSites(d, fields[i].1, ref);
      FieldSites(value, i, ref);
    } else {
      var i :| 0 <= i < |value.items| && ref in ConvRefs(d, value.items[i]);
      ConvRefsAreSites(d, value.items[i], ref);
      assert Children(value)[i] == value.items[i];
      ChildSites(value, i, ref);
    }
  }

  // ------------------------------------------------------------ the scope

  /** A document's refs, each with what it names and how far it still unfolds. */
  ghost function SourceScope(unquote: Unquote, document: Json, e: map<Pointer, nat>): Scope
    requires Resolvable(unquote, document)
  {
    Scope(map ref | ref in Sites(document) && Resolve(unquote, document, ref).Some? ::
            Resolve(unquote, document, ref).value,
          map ref | ref in Sites(document) && Resolve(unquote, document, ref).Some? ::
            Count(e, PointerOr(unquote, ref)))
  }

  lemma {:induction false} RankFromRefs(scope: Scope, s: Json, bound: nat)
    requires forall ref :: ref in SameRefs(s) && ref in scope.rank ==> scope.rank[ref] < bound
    ensures Rank(scope, s) <= bound
    decreases s, 1
  {
    ChildrenDescend();
    assert RefOf(s).Some? ==> OwnRef(s)[0] == RefOf(s).value;
    MaxRankFromRefs(scope, s, SameInstance(s), bound);
  }

  lemma {:induction false} MaxRankFromRefs(scope: Scope, s: Json, xs: seq<Json>, bound: nat)
    requires Descends(SameInstance) && forall i :: 0 <= i < |xs| ==> xs[i] < s
    requires forall ref :: ref in GatherFrom(SameInstance, OwnRef, s, xs) && ref in scope.rank ==>
             scope.rank[ref] < bound
    ensures MaxRank(scope, s, xs) <= bound
    decreases s, 0, |xs|
  {
    hide Rank, Gather, GatherFrom, SameInstance, OwnRef;
    if |xs| > 0 {
      forall ref | ref in SameRefs(xs[0]) && ref in scope.rank
        ensures scope.rank[ref] < bound
      {
        GatherMember(SameInstance, OwnRef, s, xs, 0, ref);
      }
      RankFromRefs(scope, xs[0], bound);
      forall ref | ref in GatherFrom(SameInstance, OwnRef, s, xs[1..]) && ref in scope.rank
        ensures scope.rank[ref] < bound
      {
        GatherSource(SameInstance, OwnRef, s, xs[1..], ref);
        var i :| 0 <= i < |xs[1..]| && ref in Gather(SameInstance, OwnRef, xs[1..][i]);
        GatherMember(SameInstance, OwnRef, s, xs, i + 1, ref);
      }
      MaxRankFromRefs(scope, s, xs[1..], bound);
    }
  }

  /** Acceptance is what makes validity well founded: the recorded expansion ranks every
      ref above everything it can still reach on the same instance. */
  lemma SourceWellRanked(unquote: Unquote, document: Json, e: map<Pointer, nat>)
    requires Resolvable(unquote, document) && IsExpansion(EdgesOf(unquote, document), e)
    ensures WellRanked(SourceScope(unquote, document, e))
  {
    hide Rank, Sites, SameRefs, IsExpansion;
    var scope := SourceScope(unquote, document, e);
    forall ref | ref in scope.target
      ensures Rank(scope, scope.target[ref]) <= scope.rank[ref]
    {
      forall r | r in SameRefs(scope.target[ref]) && r in scope.rank
        ensures scope.rank[r] < scope.rank[ref]
      {
        RefDecreases(unquote, document, e, ref, r);
      }
      RankFromRefs(scope, scope.target[ref], scope.rank[ref]);
    }
  }

  lemma RefDecreases(unquote: Unquote, document: Json, e: map<Pointer, nat>, ref: string, next: string)
    requires Resolvable(unquote, document) && IsExpansion(EdgesOf(unquote, document), e)
    requires ref in Sites(document) && Leads(unquote, document, ref)
    requires next in SameRefs(Resolve(unquote, document, ref).value)
    ensures next in Sites(document)
    ensures Count(e, PointerOr(unquote, next)) < Count(e, PointerOr(unquote, ref))
  {
    hide Sites, SameRefs, Walk;
    var target := Resolve(unquote, document, ref).value;
    SameRefsAreSites(target, next);
    TargetSites(unquote, document, ref, next);
    var g := EdgesOf(unquote, document);
    InGraph(unquote, document, ref);
    InGraph(unquote, document, next);
    var p, q := PointerOr(unquote, ref), PointerOr(unquote, next);
    var i :| 0 <= i < |SameRefs(target)| && SameRefs(target)[i] == next;
    assert g[p] == PointersOf(unquote, SameRefs(target));
    assert g[p][i] == q;
    ExpansionDecreases(g, e, p, q);
  }

  lemma InGraph(unquote: Unquote, document: Json, ref: string)
    requires Resolvable(unquote, document) && ref in Sites(document)
    ensures Leads(unquote, document, ref)
    ensures PointerOr(unquote, ref) in EdgesOf(unquote, document)
    ensures EdgesOf(unquote, document)[PointerOr(unquote, ref)] ==
            PointersOf(unquote, SameRefs(Resolve(unquote, document, ref).value))
  {
    hide Sites, SameRefs, Walk;
    var i :| 0 <= i < |Sites(document)| && Sites(document)[i] == ref;
    assert PointersOf(unquote, Sites(document))[i] == PointerOr(unquote, ref);
    assert PointerOr(unquote, ref) in TargetsOf(unquote, document, Sites(document));
  }
}
