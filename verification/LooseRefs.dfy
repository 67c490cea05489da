/** No ref is left behind in a finished tool schema: an account of every `$ref` anywhere in it,
    in a schema position or not. */
module LooseRefs {
  import opened JsonValues
  import opened Schemas
  import opened SchemaConvert
  import opened SchemaPreserved
  import opened RefCheck
  import opened Bundling
  import opened SelfContained

  // ------------------------------------------------------------ every ref, wherever it stands

  /** Keywords whose values are data: a `$ref` in there refers to nothing. */
  predicate IsData(key: Key) {
    key in {KEnum, KExample, KExamples, Name("const"), Name("default")}
  }

  function OwnRefs(v: Json): set<string> {
    if RefOf(v).Some? then {RefOf(v).value} else {}
  }

  /** Every `$ref` in `v` and below it, except in data. */
  ghost function AllRefs(v: Json): set<string>
    decreases v, 1
  {
    match v
    case Obj(fields) => OwnRefs(v) + FieldsAllRefs(v, fields)
    case Arr(items) => set i, ref | 0 <= i < |items| && ref in AllRefs(items[i]) :: ref
    case _ => {}
  }

  ghost function FieldsAllRefs(owner: Json, fields: Fields): set<string>
    requires Within(owner, fields)
    decreases owner, 0
  {
    set i, ref | 0 <= i < |fields| && !IsData(fields[i].0) && ref in AllRefs(fields[i].1) :: ref
  }

  // ------------------------------------------------------------ refs where no schema stands

  /** The keywords of JSON Schema that hold a schema, schemas by name, and a list of schemas. */
  predicate HoldsOne(key: Key) {
    || key in {KItems, KAdditionalItems, KUnevaluatedItems, KContains}
    || key in {KAdditionalProperties, KUnevaluatedProperties, KPropertyNames}
    || key in {KNot, KIf, KThen, KElse}
  }

  predicate HoldsNamed(key: Key) {
    key in {KProperties, KPatternProperties, KDependentSchemas, KDefs}
  }

  predicate HoldsListed(key: Key) {
    key in {KAllOf, KAnyOf, KOneOf, KPrefixItems}
  }

  /** The refs of `s` that stand where JSON Schema has no schema: under a keyword it does not
      know, or in place of a schema. */
  ghost function Strays(s: Json): set<string>
    decreases s, 1
  {
    if !s.Obj? then AllRefs(s) else FieldStrays(s, s.fields)
  }

  ghost function FieldStrays(owner: Json, fields: Fields): set<string>
    requires Within(owner, fields)
    decreases owner, 0
  {
    set i, ref | 0 <= i < |fields| && !IsData(fields[i].0) && !Dropped(fields[i].0) &&
                 ref in ValueStrays(fields[i].0, fields[i].1) :: ref
  }

  ghost function ValueStrays(key: Key, value: Json): set<string>
    decreases value, 2
  {
    if HoldsOne(key) then Strays(value)
    else if HoldsNamed(key) && value.Obj? then
      OwnRefs(value) + NamedStrays(value, Entries(value))
    else if HoldsListed(key) && value.Arr? then
      set i, ref | 0 <= i < |value.items| && ref in Strays(value.items[i]) :: ref
    else AllRefs(value)
  }

  ghost function NamedStrays(owner: Json, fields: Fields): set<string>
    requires Within(owner, fields)
    decreases owner, 0
  {
    set i, ref | 0 <= i < |fields| && !IsData(fields[i].0) && ref in Strays(fields[i].1) :: ref
  }

  // ------------------------------------------------------------ the output

  /** The refs to the names given. */
  ghost function Given(names: Names): set<string> {
    set ref | ref in names :: DefRef(names[ref])
  }

  ghost predicate LooseIn(fields: Fields, allowed: set<string>) {
    forall i :: 0 <= i < |fields| && !IsData(fields[i].0) ==> AllRefs(fields[i].1) <= allowed
  }

  lemma LooseObject(fields: Fields, allowed: set<string>)
    requires LooseIn(fields, allowed) && OwnRefs(Obj(fields)) <= allowed
    ensures AllRefs(Obj(fields)) <= allowed
  {
    hide IsData, OwnRefs;
  }

  lemma {:induction false} LoosePop(fields: Fields, key: Key, allowed: set<string>)
    requires LooseIn(fields, allowed)
    ensures LooseIn(Pop(fields, key), allowed)
    decreases |fields|
  {
    hide AllRefs, IsData;
    if |fields| > 0 {
      LoosePop(fields[1..], key, allowed);
    }
  }

  lemma {:induction false} LoosePut(fields: Fields, key: Key, value: Json, allowed: set<string>)
    requires LooseIn(fields, allowed) && (IsData(key) || AllRefs(value) <= allowed)
    ensures LooseIn(Put(fields, key, value), allowed)
    decreases |fields|
  {
    hide AllRefs, IsData;
    if |fields| > 0 {
      LoosePut(fields[1..], key, value, allowed);
    }
  }

  predicate IsBound(key: Key) {
    key in {KMinimum, KMaximum, KExclusiveMinimum, KExclusiveMaximum}
  }

  /** A bound holds no ref but a stray one. */
  lemma BoundStrays(s: Json, key: Key)
    requires s.Obj? && IsBound(key) && Has(s, key)
    ensures AllRefs(Member(s, key).value) <= Strays(s)
  {
    hide AllRefs;
    var value := Member(s, key).value;
    var i :| 0 <= i < |s.fields| && s.fields[i] == (key, value);
    assert !IsData(key) && !Dropped(key) && ValueStrays(key, value) == AllRefs(value);
    assert s.fields[i].0 == key && s.fields[i].1 == value;
  }

  lemma LooseExclusive(s: Json, out: Fields, exclusive: Key, bound: Key, allowed: set<string>)
    requires s.Obj? && LooseIn(out, allowed) && IsBound(bound) && Strays(s) <= allowed
    ensures LooseIn(Exclusive30(s, out, exclusive, bound), allowed)
  {
    hide LooseIn, Pop, Put, AllRefs, Strays;
    match Member(s, exclusive)
    case Some(Bool(b)) =>
      LoosePop(out, exclusive, allowed);
      if b && Has(s, bound) {
        var value := Member(s, bound).value;
        BoundStrays(s, bound);
        LoosePut(Pop(out, exclusive), exclusive, value, allowed);
        LoosePop(Put(Pop(out, exclusive), exclusive, value), bound, allowed);
      }
    case _ =>
  }

  lemma TextsHoldNoRefs(x: string, y: string)
    ensures AllRefs(Arr([Str(x), Str(y)])) == {}
  {
    assert AllRefs(Str(x)) == {} && AllRefs(Str(y)) == {};
  }

  lemma LooseNullable(s: Json, out: Fields, allowed: set<string>)
    requires LooseIn(out, allowed) && RefOf(Obj(out)).None?
    ensures AllRefs(Nullable30(s, out)) <= allowed
  {
    hide LooseIn, Put, Get, AllRefs;
    LooseObject(out, allowed);
    if IsTrue(Member(s, KNullable)) {
      match Get(out, KType)
      case Some(Str(kind)) =>
        var types := Arr([Str(kind), Str("null")]);
        TextsHoldNoRefs(kind, "null");
        LoosePut(out, KType, types, allowed);
        var typed := Put(out, KType, types);
        LooseObject(typed, allowed);
        match Get(typed, KEnum) {
          case Some(Arr(values)) =>
            LoosePut(typed, KEnum, Arr(values + [Null]), allowed);
            LooseObject(Put(typed, KEnum, Arr(values + [Null])), allowed);
          case _ =>
        }
      case None => LooseOrNull(out, allowed);
      case Some(Null) => LooseOrNull(out, allowed);
      case _ =>
    }
  }

  lemma LooseOrNull(out: Fields, allowed: set<string>)
    requires AllRefs(Obj(out)) <= allowed
    ensures AllRefs(OrNull(out)) <= allowed
  {
    var any := [Obj(out), NULL_SCHEMA];
    var f := (KAnyOf, Arr(any));
    Prefixed(f, []);
    assert [f] + [] == [f];
    NullSchemaHoldsNone();
    assert forall i :: 0 <= i < |any| ==> AllRefs(any[i]) <= allowed;
    LooseArray(any, allowed);
    OneLoose(f, allowed);
  }

  lemma LooseArray(items: seq<Json>, allowed: set<string>)
    requires forall i :: 0 <= i < |items| ==> AllRefs(items[i]) <= allowed
    ensures AllRefs(Arr(items)) <= allowed
  {
  }

  lemma OneLoose(f: (Key, Json), allowed: set<string>)
    requires AllRefs(f.1) <= allowed && RefOf(Obj([f])).None?
    ensures AllRefs(Obj([f])) <= allowed
  {
    hide AllRefs;
    LooseObject([f], allowed);
  }

  lemma NullSchemaHoldsNone()
    ensures AllRefs(NULL_SCHEMA) == {}
  {
    var f := (KType, Str("null"));
    Prefixed(f, []);
    assert [f] + [] == [f];
    assert AllRefs(Str("null")) == {};
    OneLoose(f, {});
  }

  /** Every `$ref` in a conversion, wherever it stands, is one of the names given, or it stood
      where JSON Schema has no schema and was copied. */
  lemma {:induction false} ConvertedAllRefs(names: Names, d: Dialect, s: Json)
    requires ConvRefs(d, s) <= names.Keys
    ensures AllRefs(Converted(names, d, s)) <= Given(names) + Strays(s)
    decreases s, 2
  {
    hide Get, Written, Dialect30, FieldRefs, LooseIn, AllRefs, Strays, DefRef;
    if !s.Obj? {
      NotAnObject(names, d, s);
    } else {
      var allowed := Given(names) + Strays(s);
      var skip := RefOf(s).Some?;
      if !(skip && d.V30?) {
        WrittenLoose(names, d, s, skip, allowed);
      }
      var out := Written(names, d, s, skip);
      if skip {
        var field := (KRef, Str(DefRef(NameOf(names, RefOf(s).value))));
        if d.V30? {
          RefFirst(field, [], allowed);
          assert [field] + [] == [field];
        } else {
          RefFirst(field, out, allowed);
        }
      } else {
        PlainRef(names, d, s);
        if d.V30? {
          Dialect30Loose(s, out, allowed);
        } else {
          LooseObject(out, allowed);
        }
      }
    }
  }

  lemma NotAnObject(names: Names, d: Dialect, s: Json)
    requires !s.Obj?
    ensures Converted(names, d, s) == s && Strays(s) == AllRefs(s)
  {
  }

  lemma RefFirst(field: (Key, Json), out: Fields, allowed: set<string>)
    requires field.0 == KRef && field.1.Str? && field.1.s in allowed
    requires out == [] || LooseIn(out, allowed)
    ensures AllRefs(Obj([field] + out)) <= allowed
  {
    var all := [field] + out;
    Prefixed(field, out);
    assert AllRefs(field.1) == {};
    hide AllRefs;
    assert LooseIn(all, allowed);
    LooseObject(all, allowed);
  }

  lemma Dialect30Loose(s: Json, out: Fields, allowed: set<string>)
    requires s.Obj? && LooseIn(out, allowed) && Strays(s) <= allowed
    requires Get(out, KRef) == Member(s, KRef) && RefOf(s).None?
    ensures AllRefs(Dialect30(s, out)) <= allowed
  {
    hide LooseIn, Exclusive30, Put, AllRefs, Strays, Get;
    LooseExclusive(s, out, KExclusiveMinimum, KMinimum, allowed);
    LooseExclusive(s, Exclusive30(s, out, KExclusiveMinimum, KMinimum), KExclusiveMaximum, KMaximum, allowed);
    BoundedRef(s, out);
    LooseNullable(s, Bounds30(s, out), allowed);
  }

  lemma {:induction false} WrittenLoose(names: Names, d: Dialect, s: Json, skipRef: bool, allowed: set<string>)
    requires s.Obj? && FieldRefs(d, s) <= names.Keys && Given(names) + Strays(s) <= allowed
    ensures LooseIn(Written(names, d, s, skipRef), allowed)
    decreases s, 1
  {
    hide Get, LooseIn, ConvertFields, Put, ValueRefs, ValueStrays, AllRefs;
    var fields := Entries(s);
    assert forall i :: 0 <= i < |fields| && !Dropped(fields[i].0) ==>
        ValueRefs(d, fields[i].0, fields[i].1) <= FieldRefs(d, s);
    assert forall i :: 0 <= i < |fields| && !Dropped(fields[i].0) && !IsData(fields[i].0) ==>
        ValueStrays(fields[i].0, fields[i].1) <= Strays(s);
    FieldsLoose(names, d, s, fields, skipRef, allowed);
    if Has(s, KExample) {
      LoosePut(ConvertFields(names, d, s, fields, skipRef), KExamples, Arr([Member(s, KExample).value]), allowed);
    }
  }

  lemma {:induction false} FieldsLoose(names: Names, d: Dialect, s: Json, fields: Fields, skipRef: bool,
                                       allowed: set<string>)
    requires Within(s, fields) && Given(names) <= allowed
    requires forall i :: 0 <= i < |fields| && !Dropped(fields[i].0) ==>
               ValueRefs(d, fields[i].0, fields[i].1) <= names.Keys
    requires forall i :: 0 <= i < |fields| && !Dropped(fields[i].0) && !IsData(fields[i].0) ==>
               ValueStrays(fields[i].0, fields[i].1) <= allowed
    ensures LooseIn(ConvertFields(names, d, s, fields, skipRef), allowed)
    decreases s, 0, |fields|
  {
    hide ValueRefs, ValueStrays, ConvertValue, Given, AllRefs, IsData, Dropped;
    if |fields| > 0 {
      FieldsLoose(names, d, s, fields[1..], skipRef, allowed);
      if !Dropped(fields[0].0) && !IsData(fields[0].0) {
        ValueLoose(names, d, s, fields[0].0, fields[0].1);
      }
    }
  }

  lemma {:induction false} ValueLoose(names: Names, d: Dialect, s: Json, key: Key, value: Json)
    requires value < s && ValueRefs(d, key, value) <= names.Keys
    ensures AllRefs(ConvertValue(names, d, key, value)) <= Given(names) + ValueStrays(key, value)
    decreases s, 0, 0
  {
    hide ConvRefs, Converted, AllRefs, Strays, Given;
    KindsAgree(key);
    if key in ONE_SCHEMA {
      ConvertedAllRefs(names, d, value);
    } else if key in SCHEMA_MAPS && value.Obj? {
      NamedLoose(names, d, s, key, value);
    } else if key in SCHEMA_LISTS && value.Arr? {
      var items := ConvertList(names, d, value.items);
      forall i | 0 <= i < |items|
        ensures AllRefs(items[i]) <= Given(names) + ValueStrays(key, value)
      {
        ConvertedAllRefs(names, d, value.items[i]);
        assert Strays(value.items[i]) <= ValueStrays(key, value);
      }
      LooseArray(items, Given(names) + ValueStrays(key, value));
    }
  }

  /** Conversion goes into exactly the keywords that hold schemas. */
  lemma KindsAgree(key: Key)
    ensures (key in ONE_SCHEMA <==> HoldsOne(key)) && (key in SCHEMA_MAPS <==> HoldsNamed(key))
    ensures key in SCHEMA_LISTS <==> HoldsListed(key)
  {
  }

  lemma {:induction false} NamedLoose(names: Names, d: Dialect, s: Json, key: Key, value: Json)
    requires value < s && ValueRefs(d, key, value) <= names.Keys && value.Obj? && HoldsNamed(key)
    requires key in SCHEMA_MAPS && key !in ONE_SCHEMA
    ensures AllRefs(Obj(ConvertMap(names, d, value))) <= Given(names) + ValueStrays(key, value)
    decreases value, 3
  {
    hide ConvRefs, Converted, AllRefs, Strays, Given, IsData, OwnRefs;
    var entries, out := Entries(value), ConvertMap(names, d, value);
    var allowed := Given(names) + ValueStrays(key, value);
    NamedKind(key, value);
    forall i | 0 <= i < |out| && !IsData(out[i].0)
      ensures AllRefs(out[i].1) <= allowed
    {
      assert ConvRefs(d, entries[i].1) <= names.Keys;
      ConvertedAllRefs(names, d, entries[i].1);
      assert Strays(entries[i].1) <= NamedStrays(value, entries);
    }
    NamedRef(names, d, value);
    LooseObject(out, allowed);
  }

  lemma NamedKind(key: Key, value: Json)
    requires HoldsNamed(key) && value.Obj?
    ensures ValueStrays(key, value) == OwnRefs(value) + NamedStrays(value, Entries(value))
  {
  }

  /** A property called `$ref` stays a property. */
  lemma NamedRef(names: Names, d: Dialect, value: Json)
    requires value.Obj?
    ensures OwnRefs(Obj(ConvertMap(names, d, value))) <= OwnRefs(value)
  {
    hide ConvertMap, Get, Written, Dialect30;
    GetConvertedMap(names, d, value, KRef);
    if Has(value, KRef) && Member(value, KRef).value.Obj? {
      StaysObject(names, d, Member(value, KRef).value);
    }
  }

  lemma StaysObject(names: Names, d: Dialect, s: Json)
    requires s.Obj?
    ensures Converted(names, d, s).Obj?
  {
  }

  // ------------------------------------------------------------ the finished output

  /** Stray refs of the schemas that were bundled. */
  ghost function BundledStrays(unquote: Unquote, document: Json, names: Names): set<string> {
    set ref, r | ref in names && Resolve(unquote, document, ref).Some? &&
      r in Strays(Resolve(unquote, document, ref).value) :: r
  }

  lemma DefIsConversion(unquote: Unquote, document: Json, d: Dialect, names: Names, defs: Fields, i: nat)
    requires Consistent(unquote, document, d, names, [], defs, {}) && i < |defs|
    ensures exists ref ::
              && ref in names && Resolve(unquote, document, ref).Some?
              && ConvRefs(d, Resolve(unquote, document, ref).value) <= names.Keys
              && defs[i].1 == Converted(names, d, Resolve(unquote, document, ref).value)
  {
    hide Converted, ConvRefs, Sites, Resolve, Get;
    AllDone(unquote, document, d, names, defs);
    assert NamesDef(names, defs[i].0);
    var ref :| ref in names && defs[i].0 == Name(names[ref]);
    assert IsDone(unquote, document, d, names, defs, ref);
    FirstEntry(defs, i);
  }

  lemma {:induction false} FirstEntry(fields: Fields, i: nat)
    requires i < |fields| && forall j, k :: 0 <= j < k < |fields| ==> fields[j].0 != fields[k].0
    ensures Get(fields, fields[i].0) == Some(fields[i].1)
  {
    if i > 0 {
      FirstEntry(fields[1..], i - 1);
    }
  }

  /** Every `$ref` anywhere in the definitions is one of the names given or a copied stray. */
  lemma DefsLoose(unquote: Unquote, document: Json, d: Dialect, names: Names, defs: Fields)
    requires Consistent(unquote, document, d, names, [], defs, {})
    ensures AllRefs(Obj(defs)) <= Given(names) + BundledStrays(unquote, document, names)
  {
    hide Converted, ConvRefs, Sites, Resolve, Get, Strays, AllRefs, Given, IsData, Consistent;
    var allowed := Given(names) + BundledStrays(unquote, document, names);
    forall i | 0 <= i < |defs|
      ensures AllRefs(defs[i].1) <= allowed
    {
      DefIsConversion(unquote, document, d, names, defs, i);
      var ref :| ref in names && Resolve(unquote, document, ref).Some? &&
        ConvRefs(d, Resolve(unquote, document, ref).value) <= names.Keys &&
        defs[i].1 == Converted(names, d, Resolve(unquote, document, ref).value);
      var target := Resolve(unquote, document, ref).value;
      ConvertedAllRefs(names, d, target);
      assert Strays(target) <= BundledStrays(unquote, document, names);
    }
    DefsHoldNoRefThemselves(unquote, document, d, names, defs);
    LooseObject(defs, allowed);
  }

  lemma DefsHoldNoRefThemselves(unquote: Unquote, document: Json, d: Dialect, names: Names, defs: Fields)
    requires Consistent(unquote, document, d, names, [], defs, {})
    ensures RefOf(Obj(defs)).None?
  {
    hide Sites, IsDone;
    assert forall i :: 0 <= i < |defs| ==> defs[i].0.Name?;
  }

  /** All of these properties, converted. */
  ghost predicate PropertiesConverted(names: Names, d: Dialect, properties: Fields, converted: Fields) {
    && |converted| == |properties|
    && forall i :: 0 <= i < |properties| ==>
         && converted[i] == (properties[i].0, Converted(names, d, properties[i].1))
         && ConvRefs(d, properties[i].1) <= names.Keys
  }

  lemma PropertiesLoose(names: Names, d: Dialect, properties: Fields, converted: Fields)
    requires PropertiesConverted(names, d, properties, converted)
    ensures AllRefs(Obj(converted)) <= Given(names) + ValueStrays(KProperties, Obj(properties))
  {
    hide Converted, ConvRefs, AllRefs, ValueStrays, Given;
    var value := Obj(properties);
    assert ConvertMap(names, d, value) == converted;
    forall ref | ref in ValueRefs(d, KProperties, value)
      ensures ref in names
    {
      var i :| 0 <= i < |properties| && ref in ConvRefs(d, properties[i].1);
    }
    assert value in [value];
    NamedLoose(names, d, Arr([value]), KProperties, value);
  }

  /** Conversion copies what it does not know: a ref there stays as it is. */
  lemma StrayIsCopied(names: Names)
    requires "#/x" !in Given(names)
    ensures var s := Obj([(Name("unknown"), Obj([(KRef, Str("#/x"))]))]);
            && ConvRefs(V31, s) == {} && "#/x" in Strays(s)
            && "#/x" in AllRefs(Converted(names, V31, s))
  {
    hide Given;
    var inner := Obj([(KRef, Str("#/x"))]);
    var key := Name("unknown");
    var s := Obj([(key, inner)]);
    Prefixed((KRef, Str("#/x")), []);
    Prefixed((key, inner), []);
    assert [(KRef, Str("#/x"))] + [] == [(KRef, Str("#/x"))] && [(key, inner)] + [] == [(key, inner)];
    assert "unknown"[0] == 'u' && "const"[0] == 'c' && "default"[0] == 'd' && "x-"[0] == 'x';
    assert !IsData(key) && !Dropped(key);
    assert "#/x" in AllRefs(inner);
    assert ValueStrays(key, inner) == AllRefs(inner);
    assert s.fields[0] == (key, inner);
    assert s.fields[1..] == [];
    assert ConvertValue(names, V31, key, inner) == inner;
    assert ConvertFields(names, V31, s, [], false) == [];
    assert ConvertFields(names, V31, s, s.fields, false) == [(key, inner)];
    assert Written(names, V31, s, false) == [(key, inner)];
    assert Converted(names, V31, s) == s;
  }
}
