/** `object_fields`: an object body's properties as arguments of their own, and the proof
    that flattening never refuses what the API accepts. */
module Flattening {
  import opened JsonValues
  import opened Schemas
  import opened ValidityFacts

  const MAX_ALL_OF_DEPTH: nat := 32

  /** The properties an object body may carry and the ones it must. */
  datatype Flat = Flat(properties: Fields, required: seq<string>)

  /** `base.update(more)`: keys of `base` keep their place, new ones follow in order. */
  function Update(base: Fields, more: Fields): (r: Fields)
    ensures forall k :: Get(r, k) == if Get(more, k).Some? then Get(more, k) else Get(base, k)
  {
    var kept := Replace(base, more);
    var added := Added(base, more);
    GetAppend(kept, added);
    kept + added
  }

  function Replace(base: Fields, more: Fields): (r: Fields)
    ensures forall k :: Get(r, k) ==
              if Get(base, k).None? then None else if Get(more, k).Some? then Get(more, k) else Get(base, k)
  {
    if |base| == 0 then []
    else
      var (k, x) := base[0];
      var rest := Replace(base[1..], more);
      var head := [(k, if Get(more, k).Some? then Get(more, k).value else x)];
      assert (head + rest)[1..] == rest;
      head + rest
  }

  function Added(base: Fields, more: Fields): (r: Fields)
    ensures forall k :: Get(r, k) == if Get(base, k).Some? then None else Get(more, k)
  {
    if |more| == 0 then []
    else
      var rest := Added(base, more[1..]);
      if Get(base, more[0].0).Some? then rest
      else
        assert ([more[0]] + rest)[1..] == rest;
        [more[0]] + rest
  }

  lemma {:induction false} GetAppend(xs: Fields, ys: Fields)
    ensures forall k :: Get(xs + ys, k) == if Get(xs, k).Some? then Get(xs, k) else Get(ys, k)
  {
    if |xs| == 0 {
      assert xs + ys == ys;
    } else {
      assert (xs + ys)[1..] == xs[1..] + ys;
      GetAppend(xs[1..], ys);
    }
  }

  /** `required.extend(r for r in more if r not in required)`. */
  function Union(base: seq<string>, more: seq<string>): (r: seq<string>)
    ensures forall x :: x in r <==> x in base || x in more
    decreases |more|
  {
    if |more| == 0 then base
    else
      assert more == [more[0]] + more[1..];
      if more[0] in base then Union(base, more[1..]) else Union(base + [more[0]], more[1..])
  }

  function Texts(xs: seq<Json>): (r: seq<string>)
    ensures forall x :: x in r <==> Str(x) in xs
  {
    if |xs| == 0 then []
    else
      assert xs == [xs[0]] + xs[1..];
      (if xs[0].Str? then [xs[0].s] else []) + Texts(xs[1..])
  }

  function PropertiesOf(s: Json): Fields {
    match Member(s, KProperties)
    case Some(Obj(props)) => props
    case _ => []
  }

  /** A schema that says more about an object than its properties and what is required. */
  predicate GoesWhole(s: Json) {
    || !s.Obj?
    || Has(s, KOneOf) || Has(s, KAnyOf) || Has(s, KNot) || Has(s, KIf) || Has(s, KPatternProperties)
    || IsTrue(Member(s, KAdditionalProperties))
    || (Has(s, KAdditionalProperties) && Member(s, KAdditionalProperties).value.Obj?)
    || Member(s, KType) !in {None, Some(Null), Some(Str("object"))}
    || IsTrue(Member(s, KNullable))
  }

  /** The fields a schema flattens to, or `None` when the body must be passed whole. */
  function ObjectFields(scope: Scope, s: Json, depth: nat): Option<Flat>
    requires WellRanked(scope)
    decreases MAX_ALL_OF_DEPTH + 1 - depth, 1
  {
    var resolved := Dereferenced(scope, s);
    if depth > MAX_ALL_OF_DEPTH || GoesWhole(resolved) then None
    else match AllOfFields(scope, ListAt(resolved, KAllOf), depth)
      case None => None
      case Some(inherited) =>
        if !Has(resolved, KAllOf) && !Has(resolved, KProperties) && Member(resolved, KType) != Some(Str("object"))
        then None
        else Some(Flat(Update(inherited.properties, PropertiesOf(resolved)),
                       Union(inherited.required, Texts(ListAt(resolved, KRequired)))))
  }

  function AllOfFields(scope: Scope, members: seq<Json>, depth: nat): Option<Flat>
    requires WellRanked(scope) && depth <= MAX_ALL_OF_DEPTH
    decreases MAX_ALL_OF_DEPTH + 1 - depth, 0, |members|
  {
    if |members| == 0 then Some(Flat([], []))
    else
      var last := |members| - 1;
      match AllOfFields(scope, members[..last], depth)
      case None => None
      case Some(before) =>
        match ObjectFields(scope, members[last], depth + 1)
        case None => None
        case Some(own) =>
          Some(Flat(Update(before.properties, own.properties), Union(before.required, own.required)))
  }

  // ------------------------------------------------------------ it never over-restricts

  /** `v` has everything that is required, and each of its fields fits. */
  ghost predicate Fits(a: Assertions, scope: Scope, d: Dialect, flat: Flat, v: Json)
    requires WellRanked(scope)
  {
    && v.Obj?
    && (forall r :: r in flat.required ==> HasText(v, r))
    && (forall i :: 0 <= i < |v.fields| ==>
          var schema := Get(flat.properties, v.fields[i].0);
          schema.Some? ==> Valid(a, scope, d, schema.value, v.fields[i].1))
  }

  lemma FitsBoth(a: Assertions, scope: Scope, d: Dialect, x: Flat, y: Flat, v: Json)
    requires WellRanked(scope) && Fits(a, scope, d, x, v) && Fits(a, scope, d, y, v)
    ensures Fits(a, scope, d, Flat(Update(x.properties, y.properties), Union(x.required, y.required)), v)
  {
    hide Get, Update, Union, Valid, WellRanked;
  }

  lemma {:induction false} DerefImplied(a: Assertions, scope: Scope, d: Dialect, s: Json, v: Json)
    requires WellRanked(scope) && Valid(a, scope, d, s, v)
    ensures Valid(a, scope, d, Dereferenced(scope, s), v)
    decreases Rank(scope, s)
  {
    hide Rank, WellRanked, KeywordsOk, Get;
    if RefOf(s).Some? && RefOf(s).value in scope.target {
      TargetBelow(scope, s);
      DerefImplied(a, scope, d, scope.target[RefOf(s).value], v);
    }
  }

  lemma OwnKeywords(a: Assertions, scope: Scope, d: Dialect, s: Json, v: Json)
    requires WellRanked(scope) && Valid(a, scope, d, s, v) && v.Obj? && s.Obj? && RefOf(s).None?
    ensures KeywordsOk(a, scope, d, s, v)
  {
    hide Rank, WellRanked, KeywordsOk, Get;
  }

  /** Any object the source schema accepts fits what it flattens to, through refs, nested
      `allOf` and properties that override inherited ones. */
  lemma {:induction false} NeverOverRestricts(a: Assertions, scope: Scope, d: Dialect, s: Json, depth: nat, v: Json)
    requires WellRanked(scope) && ObjectFields(scope, s, depth).Some?
    requires v.Obj? && Valid(a, scope, d, s, v)
    ensures Fits(a, scope, d, ObjectFields(scope, s, depth).value, v)
    decreases MAX_ALL_OF_DEPTH + 1 - depth, 1
  {
    hide Get, Update, Union, Texts, Rank, WellRanked, Fits, Valid, KeywordsOk, GoesWhole;
    var resolved := Dereferenced(scope, s);
    DerefImplied(a, scope, d, s, v);
    if RefOf(resolved).Some? {
      DanglingRef(a, scope, d, resolved, v);
    } else {
      IsObject(resolved);
      OwnKeywords(a, scope, d, resolved, v);
      var members := ListAt(resolved, KAllOf);
      MembersAccept(a, scope, d, resolved, v);
      MembersFit(a, scope, d, members, depth, v);
      OwnFieldsFit(a, scope, d, resolved, v);
      FitsBoth(a, scope, d, AllOfFields(scope, members, depth).value,
               Flat(PropertiesOf(resolved), Texts(ListAt(resolved, KRequired))), v);
    }
  }

  lemma IsObject(s: Json)
    requires !GoesWhole(s)
    ensures s.Obj?
  {
  }

  lemma DanglingRef(a: Assertions, scope: Scope, d: Dialect, s: Json, v: Json)
    requires WellRanked(scope) && RefOf(s).Some? && RefOf(s).value !in scope.target
    ensures !Valid(a, scope, d, s, v)
  {
  }

  lemma MembersAccept(a: Assertions, scope: Scope, d: Dialect, s: Json, v: Json)
    requires WellRanked(scope) && KeywordsOk(a, scope, d, s, v)
    ensures forall i :: 0 <= i < |ListAt(s, KAllOf)| ==> Valid(a, scope, d, ListAt(s, KAllOf)[i], v)
  {
    hide Rank, WellRanked, Get, LocalOk, ChildrenOk;
    var verdicts := Verdicts(a, scope, d, s, KAllOf, v);
    assert CombinersOk(a, scope, d, s, v) && All(verdicts);
    forall i | 0 <= i < |ListAt(s, KAllOf)|
      ensures Valid(a, scope, d, ListAt(s, KAllOf)[i], v)
    {
      assert verdicts[i];
    }
  }

  lemma OwnFieldsFit(a: Assertions, scope: Scope, d: Dialect, s: Json, v: Json)
    requires WellRanked(scope) && KeywordsOk(a, scope, d, s, v) && v.Obj?
    ensures Fits(a, scope, d, Flat(PropertiesOf(s), Texts(ListAt(s, KRequired))), v)
  {
    hide Rank, WellRanked, Get, CombinersOk, Valid, TypeOk, EnumOk, BoundsOk, CopiedOk;
    assert LocalOk(a, d, s, v) && ChildrenOk(a, scope, d, s, v);
    var names := ListAt(s, KRequired);
    forall r | r in Texts(names)
      ensures HasText(v, r)
    {
      var i :| 0 <= i < |names| && names[i] == Str(r);
    }
    forall i | 0 <= i < |v.fields| && Get(PropertiesOf(s), v.fields[i].0).Some?
      ensures Valid(a, scope, d, Get(PropertiesOf(s), v.fields[i].0).value, v.fields[i].1)
    {
      NoProperties(v.fields[i].0);
      assert PropertySchemas(s, v.fields[i].0) == [Get(PropertiesOf(s), v.fields[i].0).value];
      assert Get(PropertiesOf(s), v.fields[i].0).value in FieldSchemas(a, s, v.fields[i].0);
    }
  }

  lemma NoProperties(key: Key)
    ensures Get([], key).None?
  {
  }

  lemma {:induction false} MembersFit(a: Assertions, scope: Scope, d: Dialect, members: seq<Json>, depth: nat, v: Json)
    requires WellRanked(scope) && depth <= MAX_ALL_OF_DEPTH && AllOfFields(scope, members, depth).Some?
    requires v.Obj? && forall i :: 0 <= i < |members| ==> Valid(a, scope, d, members[i], v)
    ensures Fits(a, scope, d, AllOfFields(scope, members, depth).value, v)
    decreases MAX_ALL_OF_DEPTH + 1 - depth, 0, |members|
  {
    hide Update, Union, Rank, WellRanked, Valid, ObjectFields;
    if |members| > 0 {
      var last := |members| - 1;
      MembersFit(a, scope, d, members[..last], depth, v);
      NeverOverRestricts(a, scope, d, members[last], depth + 1, v);
      FitsBoth(a, scope, d, AllOfFields(scope, members[..last], depth).value,
               ObjectFields(scope, members[last], depth + 1).value, v);
    }
  }

  // ------------------------------------------------------------ what it flattens to

  /** What a member of an `allOf` at this depth flattens to. */
  ghost function FlatOf(scope: Scope, member: Json, depth: nat): Flat
    requires WellRanked(scope)
  {
    match ObjectFields(scope, member, depth + 1)
    case Some(flat) => flat
    case None => Flat([], [])
  }

  /** The `i`-th member gives the property, and no later one does. */
  ghost predicate DeclaresLast(scope: Scope, members: seq<Json>, depth: nat, key: Key, i: nat, x: Json)
    requires WellRanked(scope)
  {
    && i < |members| && Get(FlatOf(scope, members[i], depth).properties, key) == Some(x)
    && forall j :: i < j < |members| ==> Get(FlatOf(scope, members[j], depth).properties, key).None?
  }

  ghost predicate RequiresIt(scope: Scope, members: seq<Json>, depth: nat, i: nat, name: string)
    requires WellRanked(scope)
  {
    i < |members| && name in FlatOf(scope, members[i], depth).required
  }

  /** One member more: its properties win. */
  lemma OneMember(scope: Scope, members: seq<Json>, depth: nat, key: Key, x: Json)
    requires WellRanked(scope) && |members| > 0
    ensures var last := |members| - 1;
            var own := Get(FlatOf(scope, members[last], depth).properties, key);
            (exists i :: DeclaresLast(scope, members, depth, key, i, x)) <==>
            (own == Some(x) || (own.None? && exists i :: DeclaresLast(scope, members[..last], depth, key, i, x)))
  {
    hide Get, WellRanked, FlatOf;
    var last := |members| - 1;
    if Get(FlatOf(scope, members[last], depth).properties, key) == Some(x) {
      assert DeclaresLast(scope, members, depth, key, last, x);
    }
    if i: nat :| DeclaresLast(scope, members, depth, key, i, x) {
      if i < last { assert DeclaresLast(scope, members[..last], depth, key, i, x); }
    }
    if Get(FlatOf(scope, members[last], depth).properties, key).None? {
      if i: nat :| DeclaresLast(scope, members[..last], depth, key, i, x) {
        assert DeclaresLast(scope, members, depth, key, i, x);
      }
    }
  }

  /** The members of an `allOf` together: each property as the last of them gives it. */
  lemma {:induction false} MembersGive(scope: Scope, members: seq<Json>, depth: nat, key: Key, x: Json)
    requires WellRanked(scope) && depth <= MAX_ALL_OF_DEPTH && AllOfFields(scope, members, depth).Some?
    ensures Get(AllOfFields(scope, members, depth).value.properties, key) == Some(x) <==>
            exists i :: DeclaresLast(scope, members, depth, key, i, x)
    decreases |members|
  {
    hide WellRanked, DeclaresLast, ObjectFields, Update, Union;
    if |members| > 0 {
      MembersGive(scope, members[..|members| - 1], depth, key, x);
      OneMember(scope, members, depth, key, x);
    } else {
      NoProperties(key);
      NoneDeclare(scope, depth, key, x);
    }
  }

  lemma NoneDeclare(scope: Scope, depth: nat, key: Key, x: Json)
    requires WellRanked(scope)
    ensures !exists i :: DeclaresLast(scope, [], depth, key, i, x)
  {
  }

  lemma {:induction false} MembersRequire(scope: Scope, members: seq<Json>, depth: nat, name: string)
    requires WellRanked(scope) && depth <= MAX_ALL_OF_DEPTH && AllOfFields(scope, members, depth).Some?
    ensures name in AllOfFields(scope, members, depth).value.required <==>
            exists i :: RequiresIt(scope, members, depth, i, name)
    decreases |members|
  {
    hide WellRanked, ObjectFields, Update;
    if |members| > 0 {
      var last := |members| - 1;
      MembersRequire(scope, members[..last], depth, name);
      if i: nat :| RequiresIt(scope, members[..last], depth, i, name) {
        assert RequiresIt(scope, members, depth, i, name);
      }
      if name in FlatOf(scope, members[last], depth).required {
        assert RequiresIt(scope, members, depth, last, name);
      }
      if i: nat :| RequiresIt(scope, members, depth, i, name) {
        if i < last { assert RequiresIt(scope, members[..last], depth, i, name); }
      }
    }
  }

  lemma {:induction false} MembersFlatten(scope: Scope, members: seq<Json>, depth: nat)
    requires WellRanked(scope) && depth <= MAX_ALL_OF_DEPTH
    ensures AllOfFields(scope, members, depth).Some? <==>
            forall i :: 0 <= i < |members| ==> ObjectFields(scope, members[i], depth + 1).Some?
    decreases |members|
  {
    hide WellRanked, ObjectFields, Update, Union;
    if |members| > 0 {
      MembersFlatten(scope, members[..|members| - 1], depth);
    }
  }

  /** Something besides properties restricts or opens the object. */
  ghost predicate Restricts(s: Json) {
    || (exists key :: key in {KOneOf, KAnyOf, KNot, KIf, KPatternProperties} && Has(s, key))
    || (Has(s, KAdditionalProperties) &&
        (Member(s, KAdditionalProperties).value == Bool(true) || Member(s, KAdditionalProperties).value.Obj?))
    || (Has(s, KNullable) && Member(s, KNullable).value == Bool(true))
  }

  lemma WholeIff(s: Json)
    ensures !GoesWhole(s) <==>
            && s.Obj? && !Restricts(s)
            && (Has(s, KType) ==> Member(s, KType).value in {Null, Str("object")})
  {
    hide Get;
    forall key | key in {KOneOf, KAnyOf, KNot, KIf, KPatternProperties} && Has(s, key)
      ensures Restricts(s)
    {
    }
  }

  /** A schema flattens exactly when nothing but properties says what the object is, there and
      in every member of its `allOf`, nested 32 deep at most. It then has its own properties,
      and of the inherited ones each as the last member gives it; it requires what any of them
      requires. */
  lemma FlattensTo(scope: Scope, s: Json, depth: nat, key: Key, x: Json, name: string)
    requires WellRanked(scope)
    ensures var r := Dereferenced(scope, s);
            var members := ListAt(r, KAllOf);
            ObjectFields(scope, s, depth).Some? <==>
              && depth <= 32 && r.Obj? && !Restricts(r)
              && (Has(r, KType) ==> Member(r, KType).value in {Null, Str("object")})
              && (Has(r, KAllOf) || Has(r, KProperties) || Member(r, KType) == Some(Str("object")))
              && forall i :: 0 <= i < |members| ==> ObjectFields(scope, members[i], depth + 1).Some?
    ensures var r := Dereferenced(scope, s);
            var members := ListAt(r, KAllOf);
            ObjectFields(scope, s, depth).Some? ==>
              var flat := ObjectFields(scope, s, depth).value;
              && (Get(flat.properties, key) == Some(x) <==>
                    || Get(PropertiesOf(r), key) == Some(x)
                    || (Get(PropertiesOf(r), key).None? && exists i :: DeclaresLast(scope, members, depth, key, i, x)))
              && (name in flat.required <==>
                    Str(name) in ListAt(r, KRequired) || exists i :: RequiresIt(scope, members, depth, i, name))
  {
    hide Get, WellRanked, Update, Union, GoesWhole, Restricts, Dereferenced, DeclaresLast, RequiresIt, Texts;
    var r := Dereferenced(scope, s);
    WholeIff(r);
    if depth <= MAX_ALL_OF_DEPTH {
      var members := ListAt(r, KAllOf);
      MembersFlatten(scope, members, depth);
      hide AllOfFields;
      if ObjectFields(scope, s, depth).Some? {
        MembersGive(scope, members, depth, key, x);
        MembersRequire(scope, members, depth, name);
      }
    }
  }
}
