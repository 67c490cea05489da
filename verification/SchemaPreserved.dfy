/** Conversion keeps the meaning of every schema, through refs and recursive types. */
module SchemaPreserved {
  import opened JsonValues
  import opened Schemas
  import opened SchemaConvert

  // ------------------------------------------------------------ a schema's own keywords

  lemma CopiedLocals(a: Assertions, s: Json, c: Json, v: Json)
    requires SameLocals(s, c)
    ensures LocalOk(a, V31, s, v) <==> LocalOk(a, V31, c, v)
  {
    hide Get, Member, CopiedOk, RequiredOk, SameOthers, InEnum, TypeMatches, AtLeast, AtMost;
    OthersPreserved(a, s, c, v);
  }

  lemma ExclusiveLookup(s: Json, out: Fields, exclusive: Key, bound: Key)
    requires exclusive != bound
    ensures var r := Exclusive30(s, out, exclusive, bound);
            forall key :: Get(r, key) ==
              if Member(s, exclusive).Some? && Member(s, exclusive).value.Bool? && key == exclusive then
                if Member(s, exclusive) == Some(Bool(true)) then Member(s, bound) else None
              else if Member(s, exclusive) == Some(Bool(true)) && Has(s, bound) && key == bound then None
              else Get(out, key)
  {
    hide Get, Pop, Put;
  }

  /** Boolean exclusives turned into numbers bound the same instances. */
  lemma BoundsPreserved(s: Json, out: Fields, v: Json)
    requires SameLocals(s, Obj(out))
    ensures BoundsOk(V30, s, v) <==> BoundsOk(V31, Obj(Bounds30(s, out)), v)
    ensures forall key :: key !in {KMinimum, KMaximum, KExclusiveMinimum, KExclusiveMaximum} ==>
              Get(Bounds30(s, out), key) == Get(out, key)
  {
    hide Get, Exclusive30;
    ExclusiveLookup(s, out, KExclusiveMinimum, KMinimum);
    ExclusiveLookup(s, Exclusive30(s, out, KExclusiveMinimum, KMinimum), KExclusiveMaximum, KMaximum);
  }

  /** The keys whose values the 3.0 rewriting may change. */
  predicate Rewrites(key: Key) {
    key in {KType, KEnum, KMinimum, KMaximum, KExclusiveMinimum, KExclusiveMaximum}
  }

  lemma OthersPreserved(a: Assertions, s: Json, c: Json, v: Json)
    requires SameOthers(s, c)
    ensures RequiredOk(s, v) <==> RequiredOk(c, v)
    ensures CopiedOk(a, s, v) <==> CopiedOk(a, c, v)
  {
    hide Get;
  }

  lemma TypesPreserved(s: Json, c: Json, v: Json)
    requires Member(c, KType) == Member(s, KType) && Member(c, KEnum) == Member(s, KEnum)
    requires !NullableType(V30, s)
    ensures TypeOk(V30, s, v) <==> TypeOk(V31, c, v)
    ensures EnumOk(V30, s, v) <==> EnumOk(V31, c, v)
  {
    hide Get;
  }

  lemma BoundedLocals(a: Assertions, s: Json, out: Fields, v: Json)
    requires SameLocals(s, Obj(out)) && !NullableType(V30, s)
    ensures LocalOk(a, V30, s, v) <==> LocalOk(a, V31, Obj(Bounds30(s, out)), v)
  {
    hide Get, Bounds30, TypeOk, EnumOk, BoundsOk, RequiredOk, CopiedOk;
    BoundsPreserved(s, out, v);
    TypesPreserved(s, Obj(Bounds30(s, out)), v);
    OthersPreserved(a, s, Obj(Bounds30(s, out)), v);
  }

  lemma NullableTypes(s: Json, out: Fields, v: Json)
    requires NullableType(V30, s)
    requires Get(out, KType) == Member(s, KType) && Get(out, KEnum) == Member(s, KEnum)
    ensures var c := Nullable30(s, out);
            && c.Obj?
            && (TypeOk(V30, s, v) <==> TypeOk(V31, c, v))
            && (EnumOk(V30, s, v) <==> EnumOk(V31, c, v))
            && forall key :: key !in {KType, KEnum} ==> Member(c, key) == Get(out, key)
  {
    hide Get, Put, BoundsOk;
    var c := Nullable30(s, out);
    var kind := Member(s, KType).value.s;
    assert Member(c, KType) == Some(Arr([Str(kind), Str("null")]));
    var names := [Str(kind), Str("null")];
    assert names[0].s == kind && names[1].s == "null";
    assert TypeOk(V31, c, v) <==> TypeMatches(kind, v) || TypeMatches("null", v);
    if Member(s, KEnum).Some? && Member(s, KEnum).value.Arr? {
      EnumWithNull(Member(s, KEnum).value.items, v);
    }
  }

  lemma EnumWithNull(values: seq<Json>, v: Json)
    ensures InEnum(values + [Null], v) <==> InEnum(values, v) || v.Null?
    ensures Null in values ==> (InEnum(values, Null))
  {
    var more := values + [Null];
    if InEnum(more, v) {
      var i :| 0 <= i < |more| && SameValue(more[i], v);
      if i < |values| {
        assert SameValue(values[i], v);
      }
    }
    if InEnum(values, v) {
      var i :| 0 <= i < |values| && SameValue(values[i], v);
      assert SameValue(more[i], v);
    }
    if v.Null? {
      assert SameValue(more[|values|], v);
    }
    if Null in values {
      var i :| 0 <= i < |values| && values[i] == Null;
      assert SameValue(values[i], Null);
    }
  }

  /** In every case but the untyped nullable one, rewriting keeps the verdict of a schema's
      own keywords and touches nothing else. */
  lemma Locals30(a: Assertions, s: Json, out: Fields, v: Json)
    requires SameLocals(s, Obj(out)) && !NullableUntyped(V30, s)
    ensures var c := Dialect30(s, out);
            && c.Obj?
            && (LocalOk(a, V30, s, v) <==> LocalOk(a, V31, c, v))
            && forall key :: !Rewrites(key) ==> Member(c, key) == Get(out, key)
  {
    hide Get, Bounds30, TypeOk, EnumOk, BoundsOk, RequiredOk, CopiedOk, Nullable30;
    BoundsPreserved(s, out, v);
    var bounded := Bounds30(s, out);
    if NullableType(V30, s) {
      NullableTypes(s, bounded, v);
      var c := Nullable30(s, bounded);
      OthersPreserved(a, s, c, v);
      SameBoundsOk(Obj(bounded), c, v);
    } else {
      BoundedLocals(a, s, out, v);
      NotNullable(s, bounded);
    }
  }

  lemma NotNullable(s: Json, out: Fields)
    requires Get(out, KType) == Member(s, KType)
    requires !NullableType(V30, s) && !NullableUntyped(V30, s)
    ensures Nullable30(s, out) == Obj(out)
  {
    hide Get;
  }

  lemma SameBoundsOk(s: Json, c: Json, v: Json)
    requires SameBounds(s, c)
    ensures BoundsOk(V31, s, v) <==> BoundsOk(V31, c, v)
  {
    hide Get;
  }

  // ------------------------------------------------------------ subschemas

  /** `out` holds, under its `$defs` ref, the conversion of what each named ref leads to
      in `src`, and naming is closed: what a bundled schema refers to is bundled too. */
  ghost predicate Bundled(names: Names, d: Dialect, src: Scope, out: Scope) {
    forall ref :: ref in names ==>
      && ref in src.target
      && ConvRefs(d, src.target[ref]) <= names.Keys
      && DefRef(names[ref]) in out.target
      && out.target[DefRef(names[ref])] == Converted(names, d, src.target[ref])
  }

  /** What the 3.0 rewriting and a ref beside the keywords leave alone. */
  ghost predicate SameElsewhere(o: Json, c: Json) {
    c.Obj? && forall key :: !Rewrites(key) && key != KRef ==> Member(c, key) == Member(o, key)
  }

  lemma MirrorsElsewhere(names: Names, d: Dialect, s: Json, o: Json, c: Json)
    requires Mirrors(names, d, s, o) && SameElsewhere(o, c)
    ensures Mirrors(names, d, s, c)
  {
    hide MirrorsSame, MirrorsParts, SameElsewhere;
    SameMirrorsElsewhere(names, d, s, o, c);
    PartsMirrorsElsewhere(names, d, s, o, c);
  }

  lemma SameMirrorsElsewhere(names: Names, d: Dialect, s: Json, o: Json, c: Json)
    requires MirrorsSame(names, d, s, o) && SameElsewhere(o, c)
    ensures MirrorsSame(names, d, s, c)
  {
    hide Get, Member, ConvertedMember;
  }

  lemma PartsMirrorsElsewhere(names: Names, d: Dialect, s: Json, o: Json, c: Json)
    requires MirrorsParts(names, d, s, o) && SameElsewhere(o, c)
    ensures MirrorsParts(names, d, s, c)
  {
    hide Get, Member, ConvertedMember;
  }

  // How each form of conversion output reads, before any subschema is looked at.

  lemma Converted31(a: Assertions, names: Names, s: Json, v: Json)
    requires s.Obj?
    ensures var c := Converted(names, V31, s);
            && c.Obj? && Mirrors(names, V31, s, c)
            && (LocalOk(a, V31, s, v) <==> LocalOk(a, V31, c, v))
            && RefOf(c) == (match RefOf(s) case None => None case Some(r) => Some(DefRef(NameOf(names, r))))
  {
    hide Written, LocalOk, Mirrors, SameLocals, DefRef, NameOf, Get;
    var skip := RefOf(s).Some?;
    var out := Written(names, V31, s, skip);
    WrittenMirrors(names, V31, s, skip);
    WrittenLocals(names, V31, s, skip);
    var c := Converted(names, V31, s);
    if skip {
      var field := (KRef, Str(DefRef(NameOf(names, RefOf(s).value))));
      assert c == Obj([field] + out);
      Prefixed(field, out);
      MirrorsElsewhere(names, V31, s, Obj(out), c);
      LocalsElsewhere(s, Obj(out), c);
    } else {
      PlainRef(names, V31, s);
    }
    CopiedLocals(a, s, c, v);
  }

  lemma LocalsElsewhere(s: Json, o: Json, c: Json)
    requires SameLocals(s, o) && c.Obj? && forall key :: key != KRef ==> Member(c, key) == Member(o, key)
    ensures SameLocals(s, c)
  {
    hide Get, Member;
  }

  lemma Prefixed(field: (Key, Json), out: Fields)
    ensures forall key :: Get([field] + out, key) == if key == field.0 then Some(field.1) else Get(out, key)
  {
    assert ([field] + out)[1..] == out;
  }

  lemma PlainRef(names: Names, d: Dialect, s: Json)
    requires s.Obj?
    ensures Get(Written(names, d, s, false), KRef) == Member(s, KRef)
  {
    WrittenMember(names, d, s, false, KRef);
  }

  lemma Converted30(a: Assertions, names: Names, s: Json, v: Json)
    requires s.Obj? && RefOf(s).None? && !NullableUntyped(V30, s)
    ensures var c := Converted(names, V30, s);
            && c.Obj? && Mirrors(names, V30, s, c)
            && (LocalOk(a, V30, s, v) <==> LocalOk(a, V31, c, v))
            && RefOf(c).None?
  {
    hide Get, Written, LocalOk, Mirrors, SameLocals, Dialect30;
    var out := Written(names, V30, s, false);
    WrittenMirrors(names, V30, s, false);
    WrittenLocals(names, V30, s, false);
    PlainRef(names, V30, s);
    Locals30(a, s, out, v);
    MirrorsElsewhere(names, V30, s, Obj(out), Converted(names, V30, s));
  }

  lemma ConvertedOrNull(a: Assertions, names: Names, s: Json, v: Json)
    requires s.Obj? && RefOf(s).None? && NullableUntyped(V30, s)
    ensures var c := Obj(Bounds30(s, Written(names, V30, s, false)));
            && Converted(names, V30, s) == OrNull(c.fields)
            && Mirrors(names, V30, s, c)
            && (LocalOk(a, V30, s, v) <==> LocalOk(a, V31, c, v))
            && RefOf(c).None?
  {
    hide Get, Written, LocalOk, Mirrors, SameLocals, Bounds30;
    var out := Written(names, V30, s, false);
    WrittenMirrors(names, V30, s, false);
    WrittenLocals(names, V30, s, false);
    PlainRef(names, V30, s);
    BoundsPreserved(s, out, v);
    BoundedLocals(a, s, out, v);
    MirrorsElsewhere(names, V30, s, Obj(out), Obj(Bounds30(s, out)));
    UntypedOrNull(s, Obj(out));
  }

  /** No type to add null to: the whole schema gets an alternative. */
  lemma UntypedOrNull(s: Json, o: Json)
    requires SameLocals(s, o) && o.Obj? && NullableUntyped(V30, s)
    ensures Nullable30(s, Bounds30(s, o.fields)) == OrNull(Bounds30(s, o.fields))
  {
    hide Get, Bounds30;
    BoundsPreserved(s, o.fields, Null);
  }

  lemma OrNullValid(a: Assertions, out: Scope, fields: Fields, v: Json)
    requires WellRanked(out)
    ensures Valid(a, out, V31, OrNull(fields), v) <==> Valid(a, out, V31, Obj(fields), v) || v.Null?
  {
    var s := OrNull(fields);
    var any := [Obj(fields), NULL_SCHEMA];
    var f := (KAnyOf, Arr(any));
    assert forall key :: Get([f], key) == if key == KAnyOf then Some(Arr(any)) else None by {
      Prefixed(f, []);
      assert [f] + [] == [f];
    }
    NullSchemaValid(a, out, v);
    assert any[0] == Obj(fields) && any[1] == NULL_SCHEMA;
    OnlyAnyOf(a, out, s, v);
    assert ListAt(s, KAnyOf) == any;
    var verdicts := Verdicts(a, out, V31, s, KAnyOf, v);
    assert |verdicts| == 2;
    assert verdicts[0] == Valid(a, out, V31, any[0], v) && verdicts[1] == Valid(a, out, V31, any[1], v);
    assert Any(Verdicts(a, out, V31, s, KAnyOf, v)) <==>
           Valid(a, out, V31, any[0], v) || Valid(a, out, V31, any[1], v);
  }

  lemma OnlyAnyOf(a: Assertions, out: Scope, s: Json, v: Json)
    requires WellRanked(out) && s.Obj? && IsList(s, KAnyOf)
    requires forall key :: key != KAnyOf ==> Member(s, key).None?
    ensures Valid(a, out, V31, s, v) <==> Any(Verdicts(a, out, V31, s, KAnyOf, v))
  {
    hide Get;
    assert ListAt(s, KAllOf) == [] && ListAt(s, KRequired) == [];
    NothingForParts(a, out, s, v);
    assert LocalOk(a, V31, s, v) && ChildrenOk(a, out, V31, s, v);
    assert All(Verdicts(a, out, V31, s, KAllOf, v));
    assert CombinersOk(a, out, V31, s, v) <==> Any(Verdicts(a, out, V31, s, KAnyOf, v));
  }

  lemma NullSchemaValid(a: Assertions, out: Scope, v: Json)
    requires WellRanked(out)
    ensures Valid(a, out, V31, NULL_SCHEMA, v) <==> v.Null?
  {
    var f := (KType, Str("null"));
    assert forall key :: Get([f], key) == if key == KType then Some(Str("null")) else None by {
      Prefixed(f, []);
      assert [f] + [] == [f];
    }
    OnlyType(a, out, NULL_SCHEMA, v);
  }

  lemma OnlyType(a: Assertions, out: Scope, s: Json, v: Json)
    requires WellRanked(out) && s.Obj? && Member(s, KType) == Some(Str("null"))
    requires forall key :: key != KType ==> Member(s, key).None?
    ensures Valid(a, out, V31, s, v) <==> v.Null?
  {
    hide Get;
    assert ListAt(s, KAllOf) == [] && ListAt(s, KRequired) == [];
    NothingForParts(a, out, s, v);
    assert ChildrenOk(a, out, V31, s, v) && All(Verdicts(a, out, V31, s, KAllOf, v));
    assert CombinersOk(a, out, V31, s, v);
    assert TypeMatches("null", v) <==> v.Null?;
    assert LocalOk(a, V31, s, v) <==> TypeOk(V31, s, v);
  }

  // The refs of a subschema are among those of the schema it sits in.

  lemma RefsUnderOne(d: Dialect, s: Json, key: Key)
    requires key in ONE_SCHEMA && Has(s, key) && !Dropped(key)
    ensures ConvRefs(d, Member(s, key).value) <= FieldRefs(d, s)
  {
    hide Get, ConvRefs, FieldRefs;
    assert ValueRefs(d, key, Member(s, key).value) <= FieldRefs(d, s);
  }

  lemma RefsUnderList(d: Dialect, s: Json, key: Key)
    requires key in SCHEMA_LISTS
    ensures forall i :: 0 <= i < |ListAt(s, key)| ==> ConvRefs(d, ListAt(s, key)[i]) <= FieldRefs(d, s)
  {
    hide Get, ConvRefs, FieldRefs;
    if Has(s, key) && Member(s, key).value.Arr? {
      assert ValueRefs(d, key, Member(s, key).value) <= FieldRefs(d, s);
    }
  }

  lemma RefsUnderProperty(d: Dialect, s: Json, name: Key)
    requires Has(s, KProperties) && Has(Member(s, KProperties).value, name)
    ensures ConvRefs(d, Member(Member(s, KProperties).value, name).value) <= FieldRefs(d, s)
  {
    hide ConvRefs, FieldRefs;
    var props := Member(s, KProperties).value;
    assert ValueRefs(d, KProperties, props) <= FieldRefs(d, s);
    var x := Get(props.fields, name).value;
    assert (name, x) in props.fields;
    var i :| 0 <= i < |props.fields| && props.fields[i] == (name, x);
    assert Entries(props)[i].1 == x;
  }

  /** For every instance, the source schema and its conversion give the same verdict. */
  lemma {:induction false} Preserved(a: Assertions, names: Names, d: Dialect, src: Scope, out: Scope, s: Json, v: Json)
    requires WellRanked(src) && WellRanked(out) && Bundled(names, d, src, out)
    requires ConvRefs(d, s) <= names.Keys
    ensures Valid(a, src, d, s, v) <==> Valid(a, out, V31, Converted(names, d, s), v)
    decreases Level(v), v, Rank(src, s), s, 5
  {
    hide Get, LocalOk, Written, KeywordsOk, Dialect30, Bounds30, Rank, Mirrors, FieldRefs, OrNull, WellRanked;
    if s.Obj? {
      match RefOf(s)
      case Some(ref) =>
        TargetBelow(src, s);
        Preserved(a, names, d, src, out, src.target[ref], v);
        RefPreserved(a, names, d, src, out, s, v);
      case None =>
        if NullableUntyped(d, s) {
          ConvertedOrNull(a, names, s, v);
          var c := Obj(Bounds30(s, Written(names, d, s, false)));
          KeywordsPreserved(a, names, d, src, out, s, c, v);
          OrNullValid(a, out, c.fields, v);
        } else {
          if d.V30? { Converted30(a, names, s, v); } else { Converted31(a, names, s, v); }
          KeywordsPreserved(a, names, d, src, out, s, Converted(names, d, s), v);
        }
    }
  }

  lemma {:induction false} RefPreserved(a: Assertions, names: Names, d: Dialect, src: Scope, out: Scope, s: Json,
                                        v: Json)
    requires WellRanked(src) && WellRanked(out) && Bundled(names, d, src, out)
    requires ConvRefs(d, s) <= names.Keys && RefOf(s).Some?
    requires Valid(a, src, d, src.target[RefOf(s).value], v) <==>
             Valid(a, out, V31, Converted(names, d, src.target[RefOf(s).value]), v)
    ensures Valid(a, src, d, s, v) <==> Valid(a, out, V31, Converted(names, d, s), v)
    decreases Level(v), v, Rank(src, s), s, 4
  {
    hide Get, LocalOk, Written, Rank, Mirrors, FieldRefs, CombinersOk, ChildrenOk;
    var c := Converted(names, d, s);
    if d.V31? {
      Converted31(a, names, s, v);
      KeywordsPreserved(a, names, d, src, out, s, c, v);
    } else {
      var field := (KRef, Str(DefRef(NameOf(names, RefOf(s).value))));
      Prefixed(field, []);
      assert [field] + [] == [field];
      BareRef(a, out, c, v);
    }
  }

  /** A schema that is nothing but a ref says what its target says. */
  lemma BareRef(a: Assertions, out: Scope, s: Json, v: Json)
    requires WellRanked(out) && s.Obj? && RefOf(s).Some? && RefOf(s).value in out.target
    requires forall key :: key != KRef ==> Member(s, key).None?
    ensures Valid(a, out, V31, s, v) <==> Valid(a, out, V31, out.target[RefOf(s).value], v)
  {
    hide Get, Rank, WellRanked;
    assert ListAt(s, KAllOf) == [] && ListAt(s, KRequired) == [];
    NothingForParts(a, out, s, v);
    assert LocalOk(a, V31, s, v) && ChildrenOk(a, out, V31, s, v);
    assert All(Verdicts(a, out, V31, s, KAllOf, v));
    assert CombinersOk(a, out, V31, s, v);
    assert KeywordsOk(a, out, V31, s, v);
  }

  lemma {:induction false} KeywordsPreserved(a: Assertions, names: Names, d: Dialect, src: Scope, out: Scope, s: Json,
                                             c: Json, v: Json)
    requires WellRanked(src) && WellRanked(out) && Bundled(names, d, src, out)
    requires Mirrors(names, d, s, c) && (LocalOk(a, d, s, v) <==> LocalOk(a, V31, c, v))
    requires FieldRefs(d, s) <= names.Keys
    ensures KeywordsOk(a, src, d, s, v) <==> KeywordsOk(a, out, V31, c, v)
    decreases Level(v), v, Rank(src, s), s, 3
  {
    hide Get, LocalOk, ConvertedMember, FieldRefs, MirrorsSame, MirrorsParts;
    CombinersPreserved(a, names, d, src, out, s, c, v);
    ChildrenPreserved(a, names, d, src, out, s, c, v);
  }

  /** The members of a list keyword, one by one. */
  lemma {:induction false} MembersPreserved(a: Assertions, names: Names, d: Dialect, src: Scope, out: Scope, s: Json,
                                            c: Json, v: Json, key: Key)
    requires WellRanked(src) && WellRanked(out) && Bundled(names, d, src, out)
    requires ListKey(key)
    requires Member(c, key) == ConvertedMember(names, d, s, key) && FieldRefs(d, s) <= names.Keys
    ensures IsList(s, key) <==> IsList(c, key)
    ensures Verdicts(a, src, d, s, key, v) == Verdicts(a, out, V31, c, key, v)
    decreases Level(v), v, Rank(src, s), s, 0
  {
    hide Get, FieldRefs, ConvRefs, Converted, Rank, Valid, SameInstance, Bundled, WellRanked, ListAt, ListKey;
    ListKeyHoldsList(key);
    RefsUnderList(d, s, key);
    SameInstanceBelow(src, s, key);
    ListConverted(names, d, s, c, key);
    forall i | 0 <= i < |ListAt(s, key)|
      ensures Verdicts(a, src, d, s, key, v)[i] == Verdicts(a, out, V31, c, key, v)[i]
    {
      Preserved(a, names, d, src, out, ListAt(s, key)[i], v);
    }
  }

  lemma ListKeyHoldsList(key: Key)
    requires ListKey(key)
    ensures key in SCHEMA_LISTS
  {
  }

  lemma ListConverted(names: Names, d: Dialect, s: Json, c: Json, key: Key)
    requires key in SCHEMA_LISTS && Member(c, key) == ConvertedMember(names, d, s, key)
    ensures IsList(s, key) <==> IsList(c, key)
    ensures ListAt(c, key) == ConvertList(names, d, ListAt(s, key))
  {
    hide Get, Converted;
  }

  lemma {:induction false} OnePreserved(a: Assertions, names: Names, d: Dialect, src: Scope, out: Scope, s: Json,
                                        c: Json, v: Json, key: Key)
    requires WellRanked(src) && WellRanked(out) && Bundled(names, d, src, out)
    requires SubKey(key)
    requires Member(c, key) == ConvertedMember(names, d, s, key) && FieldRefs(d, s) <= names.Keys
    ensures Has(c, key) <==> Has(s, key)
    ensures Has(s, key) ==> (SubValid(a, src, d, s, key, v) <==> SubValid(a, out, V31, c, key, v))
    decreases Level(v), v, Rank(src, s), s, 0
  {
    hide Get, FieldRefs, ConvRefs, Converted, Rank, Valid, SameInstance, Bundled;
    if Has(s, key) {
      RefsUnderOne(d, s, key);
      SameInstanceBelow(src, s, key);
      Preserved(a, names, d, src, out, Member(s, key).value, v);
    }
  }

  lemma {:induction false} CombinersPreserved(a: Assertions, names: Names, d: Dialect, src: Scope, out: Scope,
                                              s: Json, c: Json, v: Json)
    requires WellRanked(src) && WellRanked(out) && Bundled(names, d, src, out)
    requires MirrorsSame(names, d, s, c) && FieldRefs(d, s) <= names.Keys
    ensures CombinersOk(a, src, d, s, v) <==> CombinersOk(a, out, V31, c, v)
    decreases Level(v), v, Rank(src, s), s, 2
  {
    hide Get, ConvertedMember, FieldRefs, Rank, Bundled, WellRanked, ListAt, Verdicts, SubValid;
    MembersPreserved(a, names, d, src, out, s, c, v, KAllOf);
    MembersPreserved(a, names, d, src, out, s, c, v, KAnyOf);
    MembersPreserved(a, names, d, src, out, s, c, v, KOneOf);
    OnePreserved(a, names, d, src, out, s, c, v, KNot);
    OnePreserved(a, names, d, src, out, s, c, v, KIf);
    OnePreserved(a, names, d, src, out, s, c, v, KThen);
    OnePreserved(a, names, d, src, out, s, c, v, KElse);
  }

  lemma RefsUnderPattern(d: Dialect, s: Json, i: nat)
    requires i < |PatternsOf(s)|
    ensures ConvRefs(d, PatternsOf(s)[i].1) <= FieldRefs(d, s)
  {
    hide ConvRefs, FieldRefs;
    var patterns := Member(s, KPatternProperties).value;
    assert ValueRefs(d, KPatternProperties, patterns) <= FieldRefs(d, s);
    assert Entries(patterns)[i].1 == PatternsOf(s)[i].1;
  }

  /** The conversions of some schemas, in order. */
  ghost predicate AllConverted(names: Names, d: Dialect, xs: seq<Json>, ys: seq<Json>) {
    |ys| == |xs| && forall i :: 0 <= i < |xs| ==> ys[i] == Converted(names, d, xs[i])
  }

  lemma ItemsConverted(names: Names, d: Dialect, s: Json, c: Json, i: nat)
    requires MirrorsParts(names, d, s, c)
    ensures AllConverted(names, d, ItemSchemas(s, i), ItemSchemas(c, i))
  {
    hide Get, Converted;
    ListConverted(names, d, s, c, KPrefixItems);
  }

  lemma PropertyConverted(names: Names, d: Dialect, s: Json, c: Json, key: Key)
    requires MirrorsParts(names, d, s, c)
    ensures AllConverted(names, d, PropertySchemas(s, key), PropertySchemas(c, key))
  {
    hide Get, Converted, ConvertMap;
    assert Member(c, KProperties) == ConvertedMember(names, d, s, KProperties);
    hide MirrorsParts;
    match Member(s, KProperties)
    case Some(Obj(props)) => GetConvertedMap(names, d, Obj(props), key);
    case _ =>
  }

  lemma {:induction false} MatchedConverted(a: Assertions, names: Names, d: Dialect, ps: Fields, qs: Fields, key: Key)
    requires |qs| == |ps| && forall i :: 0 <= i < |ps| ==> qs[i] == (ps[i].0, Converted(names, d, ps[i].1))
    ensures AllConverted(names, d, Matched(a, ps, key), Matched(a, qs, key))
    decreases |ps|
  {
    hide Converted, Matches;
    if |ps| > 0 {
      MatchedConverted(a, names, d, ps[..|ps| - 1], qs[..|ps| - 1], key);
    }
  }

  lemma PatternsConverted(names: Names, d: Dialect, s: Json, c: Json)
    requires MirrorsParts(names, d, s, c)
    ensures var ps, qs := PatternsOf(s), PatternsOf(c);
            |qs| == |ps| && forall i :: 0 <= i < |ps| ==> qs[i] == (ps[i].0, Converted(names, d, ps[i].1))
  {
    hide Get, Converted;
  }

  lemma AppendConverted(names: Names, d: Dialect, xs: seq<Json>, ys: seq<Json>, xs': seq<Json>, ys': seq<Json>)
    requires AllConverted(names, d, xs, ys) && AllConverted(names, d, xs', ys')
    ensures AllConverted(names, d, xs + xs', ys + ys')
  {
    hide Converted;
  }

  lemma OthersConverted(names: Names, d: Dialect, s: Json, c: Json)
    requires MirrorsParts(names, d, s, c)
    ensures AllConverted(names, d, OneAt(s, KAdditionalProperties), OneAt(c, KAdditionalProperties))
  {
    hide Get, Converted;
  }

  lemma FieldsConverted(a: Assertions, names: Names, d: Dialect, s: Json, c: Json, key: Key)
    requires MirrorsParts(names, d, s, c)
    ensures AllConverted(names, d, FieldSchemas(a, s, key), FieldSchemas(a, c, key))
  {
    hide MirrorsParts, Converted, Matched, PatternsOf, PropertySchemas, OneAt;
    PropertyConverted(names, d, s, c, key);
    PatternsConverted(names, d, s, c);
    MatchedConverted(a, names, d, PatternsOf(s), PatternsOf(c), key);
    AppendConverted(names, d, PropertySchemas(s, key), PropertySchemas(c, key),
                    Matched(a, PatternsOf(s), key), Matched(a, PatternsOf(c), key));
    OthersConverted(names, d, s, c);
  }

  lemma RefsUnderItem(d: Dialect, s: Json, i: nat, x: Json)
    requires x in ItemSchemas(s, i)
    ensures ConvRefs(d, x) <= FieldRefs(d, s)
  {
    hide Get, FieldRefs, ConvRefs, ListAt;
    RefsUnderList(d, s, KPrefixItems);
    if Has(s, KItems) {
      RefsUnderOne(d, s, KItems);
    }
  }

  lemma RefsUnderField(a: Assertions, d: Dialect, s: Json, key: Key, x: Json)
    requires x in FieldSchemas(a, s, key)
    ensures ConvRefs(d, x) <= FieldRefs(d, s)
  {
    hide Get, FieldRefs, ConvRefs, Matched, PatternsOf;
    if x in PropertySchemas(s, key) {
      RefsUnderProperty(d, s, key);
    } else if x in Matched(a, PatternsOf(s), key) {
      var i :| 0 <= i < |PatternsOf(s)| && PatternsOf(s)[i].1 == x;
      RefsUnderPattern(d, s, i);
    } else {
      RefsUnderOne(d, s, KAdditionalProperties);
    }
  }

  /** A part is valid under all of some schemas exactly when it is under their conversions. */
  lemma {:induction false} PartPreserved(a: Assertions, names: Names, d: Dialect, src: Scope, out: Scope, s: Json,
                                         xs: seq<Json>, ys: seq<Json>, v: Json, part: Json)
    requires WellRanked(src) && WellRanked(out) && Bundled(names, d, src, out)
    requires part < v && Level(part) <= Level(v) && AllConverted(names, d, xs, ys)
    requires forall x :: x in xs ==> ConvRefs(d, x) <= names.Keys
    ensures (forall x :: x in xs ==> Valid(a, src, d, x, part)) <==>
            (forall y :: y in ys ==> Valid(a, out, V31, y, part))
    decreases Level(v), v, Rank(src, s), s, 0
  {
    hide Valid, WellRanked, Bundled, Converted, ConvRefs, Rank;
    forall i | 0 <= i < |xs|
      ensures Valid(a, src, d, xs[i], part) <==> Valid(a, out, V31, ys[i], part)
      ensures xs[i] in xs && ys[i] in ys
    {
      assert xs[i] in xs;
      Preserved(a, names, d, src, out, xs[i], part);
    }
  }

  lemma {:induction false} ItemsPreserved(a: Assertions, names: Names, d: Dialect, src: Scope, out: Scope, s: Json,
                                          c: Json, v: Json)
    requires WellRanked(src) && WellRanked(out) && Bundled(names, d, src, out)
    requires MirrorsParts(names, d, s, c) && FieldRefs(d, s) <= names.Keys && v.Arr?
    ensures ChildrenOk(a, src, d, s, v) <==> ChildrenOk(a, out, V31, c, v)
    decreases Level(v), v, Rank(src, s), s, 1
  {
    hide Get, FieldRefs, ConvRefs, Converted, Rank, Valid, Bundled, ItemSchemas, CountOk, Trues, WellRanked,
      AllConverted;
    hide MirrorsParts;
    forall i | 0 <= i < |v.items|
      ensures (forall x :: x in ItemSchemas(s, i) ==> Valid(a, src, d, x, v.items[i])) <==>
              (forall y :: y in ItemSchemas(c, i) ==> Valid(a, out, V31, y, v.items[i]))
    {
      ItemPreserved(a, names, d, src, out, s, c, v, i);
    }
    ContainsPreserved(a, names, d, src, out, s, c, v);
  }

  lemma {:induction false} ItemPreserved(a: Assertions, names: Names, d: Dialect, src: Scope, out: Scope, s: Json,
                                         c: Json, v: Json, i: nat)
    requires WellRanked(src) && WellRanked(out) && Bundled(names, d, src, out)
    requires MirrorsParts(names, d, s, c) && FieldRefs(d, s) <= names.Keys && v.Arr? && i < |v.items|
    ensures (forall x :: x in ItemSchemas(s, i) ==> Valid(a, src, d, x, v.items[i])) <==>
            (forall y :: y in ItemSchemas(c, i) ==> Valid(a, out, V31, y, v.items[i]))
    decreases Level(v), v, Rank(src, s), s, 1, 0
  {
    hide Get, FieldRefs, ConvRefs, Converted, Rank, Valid, Bundled, ItemSchemas, WellRanked, AllConverted;
    ItemsConverted(names, d, s, c, i);
    hide MirrorsParts;
    forall x | x in ItemSchemas(s, i)
      ensures ConvRefs(d, x) <= names.Keys
    {
      RefsUnderItem(d, s, i, x);
    }
    PartPreserved(a, names, d, src, out, s, ItemSchemas(s, i), ItemSchemas(c, i), v, v.items[i]);
  }

  lemma {:induction false} ContainsPreserved(a: Assertions, names: Names, d: Dialect, src: Scope, out: Scope, s: Json,
                                             c: Json, v: Json)
    requires WellRanked(src) && WellRanked(out) && Bundled(names, d, src, out)
    requires MirrorsParts(names, d, s, c) && FieldRefs(d, s) <= names.Keys && v.Arr?
    ensures Has(c, KContains) <==> Has(s, KContains)
    ensures Has(s, KContains) ==>
              (CountOk(s, Trues(ItemVerdicts(a, src, d, s, v))) <==> CountOk(c, Trues(ItemVerdicts(a, out, V31, c, v))))
    decreases Level(v), v, Rank(src, s), s, 1, 0
  {
    hide Get, FieldRefs, ConvRefs, Converted, Rank, Valid, Bundled, CountOk, Trues, WellRanked;
    if Has(s, KContains) {
      RefsUnderOne(d, s, KContains);
      forall i | 0 <= i < |v.items|
        ensures ItemVerdicts(a, src, d, s, v)[i] == ItemVerdicts(a, out, V31, c, v)[i]
      {
        Preserved(a, names, d, src, out, Member(s, KContains).value, v.items[i]);
      }
      assert ItemVerdicts(a, src, d, s, v) == ItemVerdicts(a, out, V31, c, v);
      CountsAgree(s, c, Trues(ItemVerdicts(a, src, d, s, v)));
    }
  }

  lemma CountsAgree(s: Json, c: Json, n: nat)
    requires SameCounts(s, c)
    ensures CountOk(s, n) <==> CountOk(c, n)
  {
    hide Get;
  }

  lemma {:induction false} FieldsPreserved(a: Assertions, names: Names, d: Dialect, src: Scope, out: Scope, s: Json,
                                           c: Json, v: Json)
    requires WellRanked(src) && WellRanked(out) && Bundled(names, d, src, out)
    requires MirrorsParts(names, d, s, c) && FieldRefs(d, s) <= names.Keys && v.Obj?
    ensures ChildrenOk(a, src, d, s, v) <==> ChildrenOk(a, out, V31, c, v)
    decreases Level(v), v, Rank(src, s), s, 1
  {
    hide Get, FieldRefs, ConvRefs, Converted, Rank, Valid, Bundled, FieldSchemas, WellRanked, AllConverted;
    hide MirrorsParts;
    forall i | 0 <= i < |v.fields|
      ensures (forall x :: x in FieldSchemas(a, s, v.fields[i].0) ==> Valid(a, src, d, x, v.fields[i].1)) <==>
              (forall y :: y in FieldSchemas(a, c, v.fields[i].0) ==> Valid(a, out, V31, y, v.fields[i].1))
    {
      FieldPreserved(a, names, d, src, out, s, c, v, i);
    }
    NamesPreserved(a, names, d, src, out, s, c, v);
  }

  lemma {:induction false} FieldPreserved(a: Assertions, names: Names, d: Dialect, src: Scope, out: Scope, s: Json,
                                          c: Json, v: Json, i: nat)
    requires WellRanked(src) && WellRanked(out) && Bundled(names, d, src, out)
    requires MirrorsParts(names, d, s, c) && FieldRefs(d, s) <= names.Keys && v.Obj? && i < |v.fields|
    ensures (forall x :: x in FieldSchemas(a, s, v.fields[i].0) ==> Valid(a, src, d, x, v.fields[i].1)) <==>
            (forall y :: y in FieldSchemas(a, c, v.fields[i].0) ==> Valid(a, out, V31, y, v.fields[i].1))
    decreases Level(v), v, Rank(src, s), s, 1, 0
  {
    hide Get, FieldRefs, ConvRefs, Converted, Rank, Valid, Bundled, FieldSchemas, WellRanked, AllConverted;
    var key := v.fields[i].0;
    FieldsConverted(a, names, d, s, c, key);
    assert v.fields[i] == (key, v.fields[i].1) && v.fields[i] in v.fields;
    hide MirrorsParts;
    forall x | x in FieldSchemas(a, s, key)
      ensures ConvRefs(d, x) <= names.Keys
    {
      RefsUnderField(a, d, s, key, x);
    }
    PartPreserved(a, names, d, src, out, s, FieldSchemas(a, s, key), FieldSchemas(a, c, key), v, v.fields[i].1);
  }

  lemma {:induction false} NamesPreserved(a: Assertions, names: Names, d: Dialect, src: Scope, out: Scope, s: Json,
                                          c: Json, v: Json)
    requires WellRanked(src) && WellRanked(out) && Bundled(names, d, src, out)
    requires MirrorsParts(names, d, s, c) && FieldRefs(d, s) <= names.Keys && v.Obj?
    ensures Has(c, KPropertyNames) <==> Has(s, KPropertyNames)
    ensures Has(s, KPropertyNames) ==>
              forall i :: 0 <= i < |v.fields| ==>
                var name := Str(v.fields[i].0.Text());
                Valid(a, src, d, Member(s, KPropertyNames).value, name) <==>
                Valid(a, out, V31, Member(c, KPropertyNames).value, name)
    decreases Level(v), v, Rank(src, s), s, 1, 0
  {
    hide Get, FieldRefs, ConvRefs, Converted, Rank, Valid, Bundled, WellRanked;
    if Has(s, KPropertyNames) {
      RefsUnderOne(d, s, KPropertyNames);
      forall i | 0 <= i < |v.fields|
        ensures var name := Str(v.fields[i].0.Text());
                Valid(a, src, d, Member(s, KPropertyNames).value, name) <==>
                Valid(a, out, V31, Member(c, KPropertyNames).value, name)
      {
        Preserved(a, names, d, src, out, Member(s, KPropertyNames).value, Str(v.fields[i].0.Text()));
      }
    }
  }

  lemma {:induction false} ChildrenPreserved(a: Assertions, names: Names, d: Dialect, src: Scope, out: Scope, s: Json,
                                             c: Json, v: Json)
    requires WellRanked(src) && WellRanked(out) && Bundled(names, d, src, out)
    requires MirrorsParts(names, d, s, c) && FieldRefs(d, s) <= names.Keys
    ensures ChildrenOk(a, src, d, s, v) <==> ChildrenOk(a, out, V31, c, v)
    decreases Level(v), v, Rank(src, s), s, 2
  {
    hide MirrorsParts, Bundled, WellRanked, FieldRefs, Rank;
    if v.Arr? {
      ItemsPreserved(a, names, d, src, out, s, c, v);
    } else if v.Obj? {
      FieldsPreserved(a, names, d, src, out, s, c, v);
    }
  }

  predicate ForParts(key: Key) {
    || key in {KItems, KPrefixItems, KContains, KPropertyNames}
    || key in {KProperties, KPatternProperties, KAdditionalProperties}
  }

  /** A schema without keywords for parts leaves parts alone. */
  lemma NothingForParts(a: Assertions, out: Scope, s: Json, v: Json)
    requires WellRanked(out)
    requires forall key :: ForParts(key) ==> Member(s, key).None?
    ensures ChildrenOk(a, out, V31, s, v)
  {
    hide Get, Valid, WellRanked;
    assert ListAt(s, KPrefixItems) == [] && OneAt(s, KItems) == [] && OneAt(s, KAdditionalProperties) == [];
    assert PatternsOf(s) == [];
  }
}
