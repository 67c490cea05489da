/** What the keywords of JSON Schema mean, each on its own: the laws `Schemas.Valid` obeys,
    stated without the way it computes them. */
module SchemaLaws {
  import opened JsonValues
  import opened Schemas

  /** A schema of one keyword. */
  ghost predicate Only(s: Json, key: Key) {
    s.Obj? && Has(s, key) && forall k :: k != key ==> Member(s, k).None?
  }

  /** The verdict on a schema of one keyword is that keyword's. */
  lemma OneKeyword(a: Assertions, scope: Scope, d: Dialect, s: Json, key: Key, v: Json)
    requires WellRanked(scope) && Only(s, key) && key != KRef && key != KNullable
    ensures Valid(a, scope, d, s, v) <==> KeywordsOk(a, scope, d, s, v)
  {
    hide WellRanked, Rank, KeywordsOk, Get;
  }

  lemma NothingLocal(a: Assertions, d: Dialect, s: Json, key: Key, v: Json)
    requires Only(s, key) && key.Keyword? && key != KRef
    requires key !in {KType, KEnum, KRequired, KMinimum, KMaximum, KExclusiveMinimum, KExclusiveMaximum}
    ensures LocalOk(a, d, s, v)
  {
    hide Get;
  }

  lemma NothingCombined(a: Assertions, scope: Scope, d: Dialect, s: Json, key: Key, v: Json)
    requires WellRanked(scope) && Only(s, key) && key !in {KAllOf, KAnyOf, KOneOf, KNot, KIf}
    ensures CombinersOk(a, scope, d, s, v)
  {
    hide WellRanked, Rank, Get, Valid;
  }

  lemma NothingInside(a: Assertions, scope: Scope, d: Dialect, s: Json, key: Key, v: Json)
    requires WellRanked(scope) && Only(s, key)
    requires key !in {KItems, KPrefixItems, KContains, KProperties, KPatternProperties, KAdditionalProperties}
    requires key != KPropertyNames
    ensures ChildrenOk(a, scope, d, s, v)
  {
    hide WellRanked, Rank, Get, Valid;
    forall k | v.Obj?
      ensures FieldSchemas(a, s, k) == []
    {
    }
  }

  // ------------------------------------------------------------ combining schemas

  lemma VerdictsSay(a: Assertions, scope: Scope, d: Dialect, s: Json, key: Key, members: seq<Json>, v: Json)
    requires WellRanked(scope) && ListKey(key) && Member(s, key) == Some(Arr(members))
    ensures var verdicts := Verdicts(a, scope, d, s, key, v);
            && |verdicts| == |members|
            && forall i :: 0 <= i < |members| ==> verdicts[i] == Valid(a, scope, d, members[i], v)
  {
    hide WellRanked, Rank, Get, Valid;
    assert ListAt(s, key) == members;
  }

  /** The list keywords that a schema does not have ask nothing. */
  lemma OtherLists(a: Assertions, scope: Scope, d: Dialect, s: Json, key: Key, v: Json)
    requires WellRanked(scope) && Only(s, key) && ListKey(key)
    ensures CombinersOk(a, scope, d, s, v) <==>
            && (key == KAllOf ==> All(Verdicts(a, scope, d, s, KAllOf, v)))
            && (key == KAnyOf && IsList(s, KAnyOf) ==> Any(Verdicts(a, scope, d, s, KAnyOf, v)))
            && (key == KOneOf && IsList(s, KOneOf) ==> ExactlyOne(Verdicts(a, scope, d, s, KOneOf, v)))
  {
    hide WellRanked, Rank, Get, Valid, Any, ExactlyOne;
    assert key != KAllOf ==> ListAt(s, KAllOf) == [] && |Verdicts(a, scope, d, s, KAllOf, v)| == 0;
  }

  /** `allOf` takes what every member takes, `anyOf` what some member does, `oneOf` what one
      does and no other. */
  lemma ListsMean(a: Assertions, scope: Scope, d: Dialect, s: Json, key: Key, members: seq<Json>, v: Json)
    requires WellRanked(scope) && Only(s, key) && ListKey(key) && Member(s, key) == Some(Arr(members))
    ensures key == KAllOf ==>
              (Valid(a, scope, d, s, v) <==> forall i :: 0 <= i < |members| ==> Valid(a, scope, d, members[i], v))
    ensures key == KAnyOf ==>
              (Valid(a, scope, d, s, v) <==> exists i :: 0 <= i < |members| && Valid(a, scope, d, members[i], v))
    ensures key == KOneOf ==>
              (Valid(a, scope, d, s, v) <==>
               exists i :: 0 <= i < |members| && Valid(a, scope, d, members[i], v) &&
                 forall j :: 0 <= j < |members| && j != i ==> !Valid(a, scope, d, members[j], v))
  {
    hide WellRanked, Rank, Get, Valid, LocalOk, CombinersOk, ChildrenOk, Verdicts;
    OneKeyword(a, scope, d, s, key, v);
    NothingLocal(a, d, s, key, v);
    NothingInside(a, scope, d, s, key, v);
    OtherLists(a, scope, d, s, key, v);
    VerdictsSay(a, scope, d, s, key, members, v);
    assert IsList(s, key);
  }

  /** `not` takes what the schema does not. */
  lemma NotMeans(a: Assertions, scope: Scope, d: Dialect, s: Json, v: Json)
    requires WellRanked(scope) && Only(s, KNot)
    ensures Valid(a, scope, d, s, v) <==> !Valid(a, scope, d, Member(s, KNot).value, v)
  {
    hide WellRanked, Rank, Get, Valid, LocalOk, ChildrenOk;
    OneKeyword(a, scope, d, s, KNot, v);
    NothingLocal(a, d, s, KNot, v);
    NothingInside(a, scope, d, s, KNot, v);
    assert ListAt(s, KAllOf) == [] && |Verdicts(a, scope, d, s, KAllOf, v)| == 0;
    assert KeywordsOk(a, scope, d, s, v) <==> CombinersOk(a, scope, d, s, v);
    assert CombinersOk(a, scope, d, s, v) <==> !SubValid(a, scope, d, s, KNot, v);
  }

  /** `if` with `then` and `else` takes what the branch its schema picks takes. */
  lemma IfMeans(a: Assertions, scope: Scope, d: Dialect, s: Json, v: Json)
    requires WellRanked(scope) && s.Obj? && Has(s, KIf) && Has(s, KThen) && Has(s, KElse)
    requires forall k :: k !in {KIf, KThen, KElse} ==> Member(s, k).None?
    ensures Valid(a, scope, d, s, v) <==>
            if Valid(a, scope, d, Member(s, KIf).value, v)
            then Valid(a, scope, d, Member(s, KThen).value, v)
            else Valid(a, scope, d, Member(s, KElse).value, v)
  {
    hide WellRanked, Rank, Get;
    IfAlone(a, scope, d, s, v);
    hide Valid, LocalOk, ChildrenOk;
  }

  lemma IfAlone(a: Assertions, scope: Scope, d: Dialect, s: Json, v: Json)
    requires WellRanked(scope) && s.Obj? && forall k :: k !in {KIf, KThen, KElse} ==> Member(s, k).None?
    ensures Valid(a, scope, d, s, v) <==> CombinersOk(a, scope, d, s, v)
  {
    hide WellRanked, Rank, Get, CombinersOk;
    assert Valid(a, scope, d, s, v) <==> KeywordsOk(a, scope, d, s, v);
    hide Valid;
    forall k | v.Obj?
      ensures FieldSchemas(a, s, k) == []
    {
    }
    assert ChildrenOk(a, scope, d, s, v);
  }

  // ------------------------------------------------------------ parts of the instance

  /** The only keyword for items applies to each of them. */
  lemma ItemsMean(a: Assertions, scope: Scope, d: Dialect, s: Json, v: Json)
    requires WellRanked(scope) && Only(s, KItems)
    ensures Valid(a, scope, d, s, v) <==>
            (v.Arr? ==> forall i :: 0 <= i < |v.items| ==> Valid(a, scope, d, Member(s, KItems).value, v.items[i]))
  {
    hide WellRanked, Rank, Get, Valid, LocalOk, CombinersOk;
    OneKeyword(a, scope, d, s, KItems, v);
    NothingLocal(a, d, s, KItems, v);
    NothingCombined(a, scope, d, s, KItems, v);
    forall i: nat
      ensures ItemSchemas(s, i) == [Member(s, KItems).value]
    {
    }
    assert forall i: nat :: Member(s, KItems).value in ItemSchemas(s, i);
  }

  /** `contains` takes a list with such an item, and whatever is no list. */
  lemma ContainsMeans(a: Assertions, scope: Scope, d: Dialect, s: Json, v: Json)
    requires WellRanked(scope) && Only(s, KContains)
    ensures Valid(a, scope, d, s, v) <==>
            (v.Arr? ==> exists i :: 0 <= i < |v.items| && Valid(a, scope, d, Member(s, KContains).value, v.items[i]))
  {
    hide WellRanked, Rank, Get, Valid, LocalOk, CombinersOk, Trues;
    OneKeyword(a, scope, d, s, KContains, v);
    NothingLocal(a, d, s, KContains, v);
    NothingCombined(a, scope, d, s, KContains, v);
    if v.Arr? {
      forall i: nat
        ensures ItemSchemas(s, i) == []
      {
      }
      var verdicts := ItemVerdicts(a, scope, d, s, v);
      TruesIff(verdicts);
      assert CountOk(s, Trues(verdicts)) <==> Trues(verdicts) >= 1;
      assert ChildrenOk(a, scope, d, s, v) <==> CountOk(s, Trues(verdicts));
      assert forall i :: 0 <= i < |v.items| ==>
          verdicts[i] == Valid(a, scope, d, Member(s, KContains).value, v.items[i]);
    } else {
      forall k | v.Obj?
        ensures FieldSchemas(a, s, k) == []
      {
      }
    }
  }

  lemma {:induction false} TruesIff(verdicts: seq<bool>)
    ensures Trues(verdicts) >= 1 <==> exists i :: 0 <= i < |verdicts| && verdicts[i]
    decreases |verdicts|
  {
    if |verdicts| > 0 {
      TruesIff(verdicts[..|verdicts| - 1]);
      if i :| 0 <= i < |verdicts| && verdicts[i] {
        if i < |verdicts| - 1 { assert verdicts[..|verdicts| - 1][i]; }
      }
    }
  }

  /** `properties` and `additionalProperties` together: a field is taken by the schema of its
      name, and by the other one without a schema of its name. */
  lemma PropertiesMean(a: Assertions, scope: Scope, d: Dialect, s: Json, props: Fields, v: Json)
    requires WellRanked(scope) && s.Obj? && Member(s, KProperties) == Some(Obj(props)) && Has(s, KAdditionalProperties)
    requires forall k :: k !in {KProperties, KAdditionalProperties} ==> Member(s, k).None?
    ensures Valid(a, scope, d, s, v) <==>
            (v.Obj? ==>
               forall i :: 0 <= i < |v.fields| ==>
                 var own := Get(props, v.fields[i].0);
                 Valid(a, scope, d, if own.Some? then own.value else Member(s, KAdditionalProperties).value,
                       v.fields[i].1))
  {
    hide WellRanked, Rank, Get, Valid, LocalOk, CombinersOk;
    PropertiesAlone(a, scope, d, s, v);
    forall k: Key, x
      ensures x in FieldSchemas(a, s, k) <==>
              x == if Get(props, k).Some? then Get(props, k).value else Member(s, KAdditionalProperties).value
    {
      OneProperty(a, s, props, k);
    }
    hide FieldSchemas;
  }

  lemma OneProperty(a: Assertions, s: Json, props: Fields, k: Key)
    requires s.Obj? && Member(s, KProperties) == Some(Obj(props)) && Has(s, KAdditionalProperties)
    requires !Has(s, KPatternProperties)
    ensures FieldSchemas(a, s, k) ==
            [if Get(props, k).Some? then Get(props, k).value else Member(s, KAdditionalProperties).value]
  {
    hide Get;
    assert PatternsOf(s) == [];
  }

  lemma PropertiesAlone(a: Assertions, scope: Scope, d: Dialect, s: Json, v: Json)
    requires WellRanked(scope) && s.Obj?
    requires forall k :: k !in {KProperties, KAdditionalProperties} ==> Member(s, k).None?
    ensures Valid(a, scope, d, s, v) <==> ChildrenOk(a, scope, d, s, v)
  {
    hide WellRanked, Rank, Get, ChildrenOk;
    assert Valid(a, scope, d, s, v) <==> KeywordsOk(a, scope, d, s, v);
    hide Valid;
    assert CombinersOk(a, scope, d, s, v) && LocalOk(a, d, s, v);
  }

  // ------------------------------------------------------------ the instance itself

  /** `required` asks an object for each name, `enum` any instance to be one of the values. */
  lemma RequiredAndEnumMean(a: Assertions, scope: Scope, d: Dialect, s: Json, key: Key, list: seq<Json>, v: Json)
    requires WellRanked(scope) && Only(s, key) && key in {KRequired, KEnum} && Member(s, key) == Some(Arr(list))
    ensures key == KRequired ==>
              (Valid(a, scope, d, s, v) <==>
               (v.Obj? ==> forall name: string :: Str(name) in list ==>
                             exists i :: 0 <= i < |v.fields| && v.fields[i].0.Text() == name))
    ensures key == KEnum ==> (Valid(a, scope, d, s, v) <==> exists x :: x in list && SameValue(x, v))
  {
    hide WellRanked, Rank, Get, Valid, CombinersOk, ChildrenOk;
    OneKeyword(a, scope, d, s, key, v);
    NothingCombined(a, scope, d, s, key, v);
    NothingInside(a, scope, d, s, key, v);
    assert LocalOk(a, d, s, v) <==> if key == KRequired then RequiredOk(s, v) else EnumOk(d, s, v);
    assert forall i :: 0 <= i < |list| ==> list[i] in list;
    assert ListAt(s, KRequired) == if key == KRequired then list else [];
    if key == KRequired && v.Obj? {
      forall name: string | Str(name) in list
        ensures RequiredOk(s, v) ==> HasText(v, name)
      {
        var i :| 0 <= i < |list| && list[i] == Str(name);
      }
      assert forall i :: 0 <= i < |list| && list[i].Str? ==> Str(list[i].s) in list;
    }
  }

  /** The four bounds concern numbers alone. */
  lemma BoundsMean(a: Assertions, scope: Scope, d: Dialect, s: Json, key: Key, m: real, v: Json)
    requires WellRanked(scope) && Only(s, key) && Member(s, key) == Some(Num(m))
    requires key in {KMinimum, KMaximum, KExclusiveMinimum, KExclusiveMaximum}
    ensures Valid(a, scope, d, s, v) <==>
            (v.Num? ==>
               && (key == KMinimum ==> v.n >= m) && (key == KExclusiveMinimum ==> v.n > m)
               && (key == KMaximum ==> v.n <= m) && (key == KExclusiveMaximum ==> v.n < m))
  {
    hide WellRanked, Rank, Get, Valid, CombinersOk, ChildrenOk;
    OneKeyword(a, scope, d, s, key, v);
    NothingCombined(a, scope, d, s, key, v);
    NothingInside(a, scope, d, s, key, v);
    assert LocalOk(a, d, s, v) <==> BoundsOk(d, s, v);
  }

  /** A type name, or one of a list of them. */
  lemma TypesMean(a: Assertions, scope: Scope, d: Dialect, s: Json, v: Json)
    requires WellRanked(scope) && Only(s, KType)
    ensures forall name: string :: Member(s, KType) == Some(Str(name)) ==>
              (Valid(a, scope, d, s, v) <==> IsOf(name, v))
    ensures forall names: seq<Json> :: Member(s, KType) == Some(Arr(names)) ==>
              (Valid(a, scope, d, s, v) <==> exists i :: 0 <= i < |names| && names[i].Str? && IsOf(names[i].s, v))
  {
    hide WellRanked, Rank, Get, Valid, CombinersOk, ChildrenOk;
    OneKeyword(a, scope, d, s, KType, v);
    NothingCombined(a, scope, d, s, KType, v);
    NothingInside(a, scope, d, s, KType, v);
    OnlyType(a, d, s, v);
    hide TypeMatches, IsOf, LocalOk;
    forall name
      ensures IsOf(name, v) <==> TypeMatches(name, v)
    {
      TypesAgree(name, v);
    }
  }

  lemma OnlyType(a: Assertions, d: Dialect, s: Json, v: Json)
    requires Only(s, KType)
    ensures LocalOk(a, d, s, v) <==> TypeOk(d, s, v)
    ensures !NullableType(d, s)
  {
    hide Get, TypeOk;
  }

  lemma TypesAgree(name: string, v: Json)
    ensures IsOf(name, v) <==> TypeMatches(name, v)
  {
  }

  /** The instances of each type: an integer is a number too. */
  predicate IsOf(name: string, v: Json) {
    || (name == "null" && v == Null) || (name == "boolean" && v in {Bool(true), Bool(false)})
    || (name == "number" && v.Num?) || (name == "integer" && v.Num? && v.n.Floor as real == v.n)
    || (name == "string" && v.Str?) || (name == "array" && v.Arr?) || (name == "object" && v.Obj?)
  }

  /** `propertyNames` concerns the names of an object's fields. */
  lemma NamesMean(a: Assertions, scope: Scope, d: Dialect, s: Json, v: Json)
    requires WellRanked(scope) && Only(s, KPropertyNames)
    ensures Valid(a, scope, d, s, v) <==>
            (v.Obj? ==>
               forall i :: 0 <= i < |v.fields| ==>
                 Valid(a, scope, d, Member(s, KPropertyNames).value, Str(v.fields[i].0.Text())))
  {
    hide WellRanked, Rank, Get, Valid, LocalOk, CombinersOk;
    OneKeyword(a, scope, d, s, KPropertyNames, v);
    NothingLocal(a, d, s, KPropertyNames, v);
    NothingCombined(a, scope, d, s, KPropertyNames, v);
    forall k | v.Obj?
      ensures FieldSchemas(a, s, k) == []
    {
    }
    forall i: nat | v.Arr?
      ensures ItemSchemas(s, i) == []
    {
    }
  }

  /** `prefixItems` gives the first items a schema each. */
  lemma PrefixMeans(a: Assertions, scope: Scope, d: Dialect, s: Json, prefix: seq<Json>, v: Json)
    requires WellRanked(scope) && Only(s, KPrefixItems) && Member(s, KPrefixItems) == Some(Arr(prefix))
    ensures Valid(a, scope, d, s, v) <==>
            (v.Arr? ==>
               forall i :: 0 <= i < |v.items| && i < |prefix| ==> Valid(a, scope, d, prefix[i], v.items[i]))
  {
    hide WellRanked, Rank, Get, Valid, LocalOk, CombinersOk;
    OneKeyword(a, scope, d, s, KPrefixItems, v);
    NothingLocal(a, d, s, KPrefixItems, v);
    NothingCombined(a, scope, d, s, KPrefixItems, v);
    forall i: nat
      ensures ItemSchemas(s, i) == if i < |prefix| then [prefix[i]] else []
    {
    }
    assert forall i: nat :: i < |prefix| ==> prefix[i] in ItemSchemas(s, i);
    forall k | v.Obj?
      ensures FieldSchemas(a, s, k) == []
    {
    }
  }

  /** `patternProperties` gives a field the schema of every pattern that matches its name. */
  lemma PatternMeans(a: Assertions, scope: Scope, d: Dialect, s: Json, pattern: Key, x: Json, v: Json)
    requires WellRanked(scope) && Only(s, KPatternProperties)
    requires Member(s, KPatternProperties) == Some(Obj([(pattern, x)]))
    ensures Valid(a, scope, d, s, v) <==>
            (v.Obj? ==>
               forall i :: 0 <= i < |v.fields| ==>
                 a(KPatternProperties, Str(pattern.Text()), Str(v.fields[i].0.Text())) ==>
                   Valid(a, scope, d, x, v.fields[i].1))
  {
    hide WellRanked, Rank, Get, Valid, LocalOk, CombinersOk;
    OneKeyword(a, scope, d, s, KPatternProperties, v);
    NothingLocal(a, d, s, KPatternProperties, v);
    NothingCombined(a, scope, d, s, KPatternProperties, v);
    forall k: Key
      ensures FieldSchemas(a, s, k) == if Matches(a, pattern, k) then [x] else []
    {
      OnePattern(a, s, pattern, x, k);
    }
    hide FieldSchemas;
    assert x in [x];
    forall i: nat | v.Arr?
      ensures ItemSchemas(s, i) == []
    {
    }
  }

  lemma OnePattern(a: Assertions, s: Json, pattern: Key, x: Json, k: Key)
    requires Only(s, KPatternProperties) && Member(s, KPatternProperties) == Some(Obj([(pattern, x)]))
    ensures FieldSchemas(a, s, k) == if Matches(a, pattern, k) then [x] else []
  {
    hide Get;
    var patterns := [(pattern, x)];
    assert PatternsOf(s) == patterns && patterns[..0] == [];
    assert Matched(a, patterns[..0], k) == [];
    assert Matched(a, patterns, k) == if Matches(a, pattern, k) then [x] else [];
  }
}
