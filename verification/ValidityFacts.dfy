/** Facts about validity that do not depend on how a schema was written or converted. */
module ValidityFacts {
  import opened JsonValues
  import opened Schemas

  // ------------------------------------------------------------ the rank is only a witness

  /** Which ranks show that refs end has no influence on any verdict. */
  lemma {:induction false} RankIrrelevant(a: Assertions, x: Scope, y: Scope, d: Dialect, s: Json, v: Json)
    requires WellRanked(x) && WellRanked(y) && x.target == y.target
    ensures Valid(a, x, d, s, v) <==> Valid(a, y, d, s, v)
    decreases Level(v), v, Rank(x, s), s, 2
  {
    hide Get, LocalOk, Rank, WellRanked, KeywordsOk;
    if s.Obj? {
      if RefOf(s).Some? && RefOf(s).value in x.target {
        TargetBelow(x, s);
        RankIrrelevant(a, x, y, d, x.target[RefOf(s).value], v);
      }
      KeywordsAgree(a, x, y, d, s, v);
    }
  }

  lemma {:induction false} KeywordsAgree(a: Assertions, x: Scope, y: Scope, d: Dialect, s: Json, v: Json)
    requires WellRanked(x) && WellRanked(y) && x.target == y.target
    ensures KeywordsOk(a, x, d, s, v) <==> KeywordsOk(a, y, d, s, v)
    decreases Level(v), v, Rank(x, s), s, 1
  {
    hide Get, LocalOk, Rank, WellRanked, Verdicts, SubValid, ChildrenOk;
    VerdictsAgree(a, x, y, d, s, KAllOf, v);
    VerdictsAgree(a, x, y, d, s, KAnyOf, v);
    VerdictsAgree(a, x, y, d, s, KOneOf, v);
    SubAgrees(a, x, y, d, s, KNot, v);
    SubAgrees(a, x, y, d, s, KIf, v);
    SubAgrees(a, x, y, d, s, KThen, v);
    SubAgrees(a, x, y, d, s, KElse, v);
    ChildrenAgree(a, x, y, d, s, v);
  }

  lemma {:induction false} ChildrenAgree(a: Assertions, x: Scope, y: Scope, d: Dialect, s: Json, v: Json)
    requires WellRanked(x) && WellRanked(y) && x.target == y.target
    ensures ChildrenOk(a, x, d, s, v) <==> ChildrenOk(a, y, d, s, v)
    decreases Level(v), v, Rank(x, s), s, 0
  {
    hide Get, Rank, WellRanked, Valid, FieldSchemas, ItemSchemas, CountOk, Trues;
    match v
    case Arr(items) =>
      forall i, t | 0 <= i < |items| && t in ItemSchemas(s, i)
        ensures Valid(a, x, d, t, items[i]) <==> Valid(a, y, d, t, items[i])
      {
        RankIrrelevant(a, x, y, d, t, items[i]);
      }
      if Has(s, KContains) {
        forall i | 0 <= i < |items|
          ensures ItemVerdicts(a, x, d, s, v)[i] == ItemVerdicts(a, y, d, s, v)[i]
        {
          RankIrrelevant(a, x, y, d, Member(s, KContains).value, items[i]);
        }
        assert ItemVerdicts(a, x, d, s, v) == ItemVerdicts(a, y, d, s, v);
      }
    case Obj(fields) =>
      forall i, t | 0 <= i < |fields| && t in FieldSchemas(a, s, fields[i].0)
        ensures Valid(a, x, d, t, fields[i].1) <==> Valid(a, y, d, t, fields[i].1)
      {
        assert fields[i] == (fields[i].0, fields[i].1) && fields[i] in fields;
        RankIrrelevant(a, x, y, d, t, fields[i].1);
      }
      if Has(s, KPropertyNames) {
        forall i | 0 <= i < |fields|
          ensures var name := Str(fields[i].0.Text());
                  Valid(a, x, d, Member(s, KPropertyNames).value, name) <==>
                  Valid(a, y, d, Member(s, KPropertyNames).value, name)
        {
          RankIrrelevant(a, x, y, d, Member(s, KPropertyNames).value, Str(fields[i].0.Text()));
        }
      }
    case _ =>
  }

  lemma {:induction false} VerdictsAgree(a: Assertions, x: Scope, y: Scope, d: Dialect, s: Json, key: Key, v: Json)
    requires WellRanked(x) && WellRanked(y) && x.target == y.target && ListKey(key)
    ensures Verdicts(a, x, d, s, key, v) == Verdicts(a, y, d, s, key, v)
    decreases Level(v), v, Rank(x, s), s, 0
  {
    hide Get, Rank, WellRanked, Valid, ListAt, ListKey;
    SameInstanceBelow(x, s, key);
    forall i | 0 <= i < |ListAt(s, key)|
      ensures Verdicts(a, x, d, s, key, v)[i] == Verdicts(a, y, d, s, key, v)[i]
    {
      RankIrrelevant(a, x, y, d, ListAt(s, key)[i], v);
    }
  }

  lemma {:induction false} SubAgrees(a: Assertions, x: Scope, y: Scope, d: Dialect, s: Json, key: Key, v: Json)
    requires WellRanked(x) && WellRanked(y) && x.target == y.target && SubKey(key)
    ensures Has(s, key) ==> (SubValid(a, x, d, s, key, v) <==> SubValid(a, y, d, s, key, v))
    decreases Level(v), v, Rank(x, s), s, 0
  {
    hide Get, Rank, WellRanked, Valid;
    if Has(s, key) {
      SameInstanceBelow(x, s, key);
      RankIrrelevant(a, x, y, d, Member(s, key).value, v);
    }
  }

  // ------------------------------------------------------------ following a chain of refs

  /** The schema a chain of refs ends at. */
  function Dereferenced(scope: Scope, s: Json): (r: Json)
    requires WellRanked(scope)
    ensures RefOf(r).Some? ==> RefOf(r).value !in scope.target
    decreases Rank(scope, s)
  {
    if RefOf(s).Some? && RefOf(s).value in scope.target then
      TargetBelow(scope, s);
      Dereferenced(scope, scope.target[RefOf(s).value])
    else s
  }

  /** `deref` ends on every scope in which refs end. */
  method Deref(scope: Scope, schema: Json) returns (r: Json)
    requires WellRanked(scope)
    ensures r == Dereferenced(scope, schema)
  {
    r := schema;
    while RefOf(r).Some? && RefOf(r).value in scope.target
      invariant Dereferenced(scope, r) == Dereferenced(scope, schema)
      decreases Rank(scope, r)
    {
      TargetBelow(scope, r);
      r := scope.target[RefOf(r).value];
    }
  }

  /** In 3.0, where a ref's siblings are ignored, following the chain changes no verdict. */
  lemma {:induction false} DerefKeepsMeaning(a: Assertions, scope: Scope, s: Json, v: Json)
    requires WellRanked(scope)
    ensures Valid(a, scope, V30, s, v) <==> Valid(a, scope, V30, Dereferenced(scope, s), v)
    decreases Rank(scope, s)
  {
    hide Rank, WellRanked, KeywordsOk, Get;
    if RefOf(s).Some? && RefOf(s).value in scope.target {
      TargetBelow(scope, s);
      DerefKeepsMeaning(a, scope, scope.target[RefOf(s).value], v);
    }
  }
}
