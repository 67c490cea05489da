/** What becomes of every keyword of a schema in a conversion: which are converted, which are
    copied, and which go. */
module KeywordFate {
  import opened JsonValues
  import opened Schemas
  import opened SchemaConvert
  import opened LooseRefs

  /** Keywords that mean nothing outside OpenAPI. */
  predicate OpenApiOnly(key: Key) {
    || key in {KDiscriminator, KXml, KExternalDocs, KNullable, KExample}
    || (key.Name? && |key.name| >= 2 && key.name[0] == 'x' && key.name[1] == '-')
  }

  lemma DroppedIff(key: Key)
    ensures Dropped(key) <==> OpenApiOnly(key)
  {
    assert "x-"[0] == 'x' && "x-"[1] == '-';
    if key.Name? && |key.name| >= 2 && key.name[0] == 'x' && key.name[1] == '-' {
      assert key.name[..2] == "x-";
    }
  }

  // ------------------------------------------------------------ one keyword

  /** Schemas are converted where they stand, alone, by name or in a list, and all else is kept. */
  ghost predicate ValueFate(names: Names, d: Dialect, key: Key, before: Json, after: Json) {
    if HoldsOne(key) then after == Converted(names, d, before)
    else if HoldsNamed(key) && before.Obj? then
      && after.Obj? && |after.fields| == |before.fields|
      && forall i :: 0 <= i < |before.fields| ==>
           after.fields[i] == (before.fields[i].0, Converted(names, d, before.fields[i].1))
    else if HoldsListed(key) && before.Arr? then
      && after.Arr? && |after.items| == |before.items|
      && forall i :: 0 <= i < |before.items| ==> after.items[i] == Converted(names, d, before.items[i])
    else after == before
  }

  /** The keyword `key` of a schema `s` and of its conversion `c`. */
  ghost predicate Fate(names: Names, d: Dialect, s: Json, c: Json, key: Key) {
    if OpenApiOnly(key) then !Has(c, key)
    else if Has(s, key) then Has(c, key) && ValueFate(names, d, key, Member(s, key).value, Member(c, key).value)
    else if key == KExamples && Has(s, KExample) then Member(c, key) == Some(Arr([Member(s, KExample).value]))
    else !Has(c, key)
  }

  lemma ValueFates(names: Names, d: Dialect, key: Key, value: Json)
    ensures ValueFate(names, d, key, value, ConvertValue(names, d, key, value))
  {
    hide Converted, HoldsOne, HoldsNamed, HoldsListed;
    KindsAgree(key);
    if value.Obj? {
      assert Entries(value) == value.fields;
    }
  }

  lemma {:induction false} DroppedGone(names: Names, d: Dialect, s: Json, fields: Fields, skipRef: bool, key: Key)
    requires Within(s, fields) && Dropped(key)
    ensures Get(ConvertFields(names, d, s, fields, skipRef), key).None?
    decreases |fields|
  {
    hide Dropped, ConvertValue;
    if |fields| > 0 {
      DroppedGone(names, d, s, fields[1..], skipRef, key);
      var rest := ConvertFields(names, d, s, fields[1..], skipRef);
      assert ([(fields[0].0, ConvertValue(names, d, fields[0].0, fields[0].1))] + rest)[1..] == rest;
    }
  }

  lemma WrittenFate(names: Names, d: Dialect, s: Json, skipRef: bool, key: Key)
    requires s.Obj? && !(skipRef && key == KRef)
    ensures Fate(names, d, s, Obj(Written(names, d, s, skipRef)), key)
  {
    hide Get, ConvertFields, ValueFate, ConvertValue, OpenApiOnly;
    DroppedIff(key);
    if Dropped(key) {
      DroppedGone(names, d, s, Entries(s), skipRef, key);
      NotExamples(key);
    } else {
      GetConverted(names, d, s, Entries(s), skipRef, key);
      ExamplesStay();
      GetConverted(names, d, s, Entries(s), skipRef, KExamples);
      if Has(s, key) {
        ValueFates(names, d, key, Member(s, key).value);
      }
    }
  }

  lemma NotExamples(key: Key)
    requires Dropped(key)
    ensures key != KExamples
  {
  }

  lemma ExamplesStay()
    ensures !Dropped(KExamples) && KExamples != KRef
  {
  }

  // ------------------------------------------------------------ a whole conversion

  /** In 3.1 every keyword but `$ref` meets its fate. */
  lemma KeywordFates31(names: Names, s: Json, key: Key)
    requires s.Obj? && key != KRef
    ensures Fate(names, V31, s, Converted(names, V31, s), key)
  {
    hide Written, Fate, Get;
    WrittenFate(names, V31, s, RefOf(s).Some?, key);
    var out := Written(names, V31, s, RefOf(s).Some?);
    if RefOf(s).Some? {
      var field := (KRef, Str(DefRef(NameOf(names, RefOf(s).value))));
      RefApart(names, V31, s, field, out, key);
    }
  }

  lemma RefApart(names: Names, d: Dialect, s: Json, field: (Key, Json), out: Fields, key: Key)
    requires Fate(names, d, s, Obj(out), key) && key != KRef && field.0 == KRef
    ensures Fate(names, d, s, Obj([field] + out), key)
  {
    hide ValueFate, OpenApiOnly;
    assert ([field] + out)[1..] == out;
  }

  /** Keywords that mean something else in 3.0. */
  predicate Differs30(key: Key) {
    key in {KType, KEnum, KMinimum, KMaximum, KExclusiveMinimum, KExclusiveMaximum}
  }

  /** In 3.0 so does every other keyword of a schema that is no ref, in the conversion itself or in
      the schema it offers beside null. */
  lemma KeywordFates30(names: Names, s: Json, key: Key) returns (inner: Json)
    requires s.Obj? && RefOf(s).None? && !Differs30(key)
    ensures Converted(names, V30, s) in {inner, Obj([(KAnyOf, Arr([inner, Obj([(KType, Str("null"))])]))])}
    ensures Fate(names, V30, s, inner, key)
  {
    hide Written, Fate, Get, Converted, Dialect30;
    WrittenFate(names, V30, s, false, key);
    var out := Written(names, V30, s, false);
    inner := Rewritten30(names, s, out, key);
    Dialects(names, s);
  }

  lemma Dialects(names: Names, s: Json)
    requires s.Obj? && RefOf(s).None?
    ensures Converted(names, V30, s) == Dialect30(s, Written(names, V30, s, false))
  {
    hide Written, Dialect30;
  }

  lemma Rewritten30(names: Names, s: Json, out: Fields, key: Key) returns (inner: Json)
    requires s.Obj? && !Differs30(key) && Fate(names, V30, s, Obj(out), key)
    ensures Dialect30(s, out) in {inner, Obj([(KAnyOf, Arr([inner, Obj([(KType, Str("null"))])]))])}
    ensures Fate(names, V30, s, inner, key)
  {
    hide ValueFate, OpenApiOnly, Get;
    var bounded := Bounds30(s, out);
    assert Get(bounded, key) == Get(out, key);
    var c := Nullable30(s, bounded);
    if c == OrNull(bounded) {
      inner := Obj(bounded);
    } else {
      inner := c;
    }
  }
}
