/** Schemas to self-contained JSON Schema 2020-12: what conversion produces once every
    ref has a name, and the proof that it accepts exactly the same instances. */
module SchemaConvert {
  import opened JsonValues
  import opened Schemas

  const OPENAPI_ONLY := {KDiscriminator, KXml, KExternalDocs, KNullable, KExample}
  const ONE_SCHEMA :=
    { KItems, KAdditionalProperties, KNot, KIf, KThen, KElse, KContains, KPropertyNames,
      KUnevaluatedProperties, KUnevaluatedItems, KAdditionalItems }
  const SCHEMA_MAPS := {KProperties, KPatternProperties, KDependentSchemas, KDefs}
  const SCHEMA_LISTS := {KAllOf, KAnyOf, KOneOf, KPrefixItems}

  /** The name each bundled ref was given. */
  type Names = map<string, string>

  function DefRef(name: string): string {
    "#/$defs/" + name
  }

  function NameOf(names: Names, ref: string): string {
    if ref in names then names[ref] else ""
  }

  predicate Dropped(key: Key) {
    key in OPENAPI_ONLY || (key.Name? && "x-" <= key.name)
  }

  // ------------------------------------------------------------ conversion

  function Converted(names: Names, d: Dialect, s: Json): Json
    decreases s, 2
  {
    if !s.Obj? then s
    else match RefOf(s)
      case Some(ref) =>
        var field := (KRef, Str(DefRef(NameOf(names, ref))));
        if d.V30? then Obj([field]) else Obj([field] + Written(names, d, s, true))
      case None =>
        if d.V30? then Dialect30(s, Written(names, d, s, false)) else Obj(Written(names, d, s, false))
  }

  /** The converted keywords, before any 3.0-only rewriting. */
  function Written(names: Names, d: Dialect, s: Json, skipRef: bool): Fields
    decreases s, 1
  {
    var out := ConvertFields(names, d, s, Entries(s), skipRef);
    if Has(s, KExample) && Get(out, KExamples).None? then
      Put(out, KExamples, Arr([Member(s, KExample).value]))
    else out
  }

  function ConvertFields(names: Names, d: Dialect, ghost s: Json, fields: Fields, skipRef: bool): Fields
    requires Within(s, fields)
    decreases s, 0, |fields|
  {
    if |fields| == 0 then []
    else
      var (key, value) := fields[0];
      var rest := ConvertFields(names, d, s, fields[1..], skipRef);
      if Dropped(key) || (skipRef && key == KRef) then rest
      else [(key, ConvertValue(names, d, key, value))] + rest
  }

  function ConvertValue(names: Names, d: Dialect, key: Key, value: Json): Json
    decreases value, 3
  {
    if key in ONE_SCHEMA then Converted(names, d, value)
    else if key in SCHEMA_MAPS && value.Obj? then Obj(ConvertMap(names, d, value))
    else if key in SCHEMA_LISTS && value.Arr? then Arr(ConvertList(names, d, value.items))
    else value
  }

  function ConvertMap(names: Names, d: Dialect, m: Json): (r: Fields)
    requires m.Obj?
    ensures |r| == |m.fields|
    ensures forall i :: 0 <= i < |r| ==> r[i] == (Entries(m)[i].0, Converted(names, d, Entries(m)[i].1))
    decreases m, 0
  {
    seq(|m.fields|, i requires 0 <= i < |Entries(m)| => (Entries(m)[i].0, Converted(names, d, Entries(m)[i].1)))
  }

  function ConvertList(names: Names, d: Dialect, xs: seq<Json>): (r: seq<Json>)
    ensures |r| == |xs|
    ensures forall i :: 0 <= i < |r| ==> r[i] == Converted(names, d, xs[i])
    decreases xs, 0
  {
    seq(|xs|, i requires 0 <= i < |xs| => Converted(names, d, xs[i]))
  }

  function Dialect30(s: Json, out: Fields): Json {
    Nullable30(s, Bounds30(s, out))
  }

  function Bounds30(s: Json, out: Fields): Fields {
    Exclusive30(s, Exclusive30(s, out, KExclusiveMinimum, KMinimum), KExclusiveMaximum, KMaximum)
  }

  /** A boolean exclusive bound becomes a number of its own, or goes. */
  function Exclusive30(s: Json, out: Fields, exclusive: Key, bound: Key): Fields {
    match Member(s, exclusive)
    case Some(Bool(b)) =>
      var cleared := Pop(out, exclusive);
      if b && Has(s, bound) then Pop(Put(cleared, exclusive, Member(s, bound).value), bound)
      else cleared
    case _ => out
  }

  function Nullable30(s: Json, out: Fields): Json {
    if !IsTrue(Member(s, KNullable)) then Obj(out)
    else match Get(out, KType)
      case Some(Str(kind)) =>
        var typed := Put(out, KType, Arr([Str(kind), Str("null")]));
        (match Get(typed, KEnum)
         case Some(Arr(values)) =>
           if Null in values then Obj(typed) else Obj(Put(typed, KEnum, Arr(values + [Null])))
         case _ => Obj(typed))
      case None => OrNull(out)
      case Some(Null) => OrNull(out)
      case _ => Obj(out)
  }

  const NULL_SCHEMA := Obj([(KType, Str("null"))])

  function OrNull(out: Fields): Json {
    Obj([(KAnyOf, Arr([Obj(out), NULL_SCHEMA]))])
  }

  // ------------------------------------------------------------ the refs conversion meets

  /** Every ref in a schema position of `s`: exactly those conversion gives a name. */
  function ConvRefs(d: Dialect, s: Json): (r: set<string>)
    decreases s, 1
  {
    match RefOf(s)
    case Some(ref) => if d.V30? then {ref} else {ref} + FieldRefs(d, s)
    case None => FieldRefs(d, s)
  }

  function FieldRefs(d: Dialect, s: Json): (r: set<string>)
    ensures forall key :: !Dropped(key) && Member(s, key).Some? ==>
              ValueRefs(d, key, Member(s, key).value) <= r
    decreases s, 0
  {
    var fields := Entries(s);
    set i, ref | 0 <= i < |fields| && !Dropped(fields[i].0) && ref in ValueRefs(d, fields[i].0, fields[i].1) :: ref
  }

  function ValueRefs(d: Dialect, key: Key, value: Json): (r: set<string>)
    decreases value, 2
  {
    if key in ONE_SCHEMA then ConvRefs(d, value)
    else if key in SCHEMA_MAPS && value.Obj? then
      var fields := Entries(value);
      set i, ref | 0 <= i < |fields| && ref in ConvRefs(d, fields[i].1) :: ref
    else if key in SCHEMA_LISTS && value.Arr? then
      set i, ref | 0 <= i < |value.items| && ref in ConvRefs(d, value.items[i]) :: ref
    else {}
  }

  // ------------------------------------------------------------ lookups in the output

  function ConvertedMember(names: Names, d: Dialect, s: Json, key: Key): Option<Json> {
    match Member(s, key)
    case None => None
    case Some(value) => Some(ConvertValue(names, d, key, value))
  }

  lemma {:induction false} GetConverted(names: Names, d: Dialect, s: Json, fields: Fields, skipRef: bool, key: Key)
    requires Within(s, fields) && !Dropped(key) && !(skipRef && key == KRef)
    ensures Get(ConvertFields(names, d, s, fields, skipRef), key) == ConvertedMember(names, d, Obj(fields), key)
    decreases |fields|
  {
    if |fields| == 0 {
    } else {
      var rest := ConvertFields(names, d, s, fields[1..], skipRef);
      GetConverted(names, d, s, fields[1..], skipRef, key);
      var head := [(fields[0].0, ConvertValue(names, d, fields[0].0, fields[0].1))];
      assert (head + rest)[1..] == rest;
    }
  }

  lemma {:induction false} GetConvertedMap(names: Names, d: Dialect, m: Json, key: Key)
    requires m.Obj?
    ensures Get(ConvertMap(names, d, m), key) ==
            match Member(m, key) case None => None case Some(x) => Some(Converted(names, d, x))
    decreases |m.fields|
  {
    if |m.fields| == 0 {
    } else {
      GetConvertedMap(names, d, Obj(m.fields[1..]), key);
      assert ConvertMap(names, d, m)[1..] == ConvertMap(names, d, Obj(m.fields[1..]));
    }
  }

  lemma WrittenMember(names: Names, d: Dialect, s: Json, skipRef: bool, key: Key)
    requires s.Obj? && !Dropped(key) && !(skipRef && key == KRef) && key != KExamples
    ensures Get(Written(names, d, s, skipRef), key) == ConvertedMember(names, d, s, key)
  {
    GetConverted(names, d, s, Entries(s), skipRef, key);
  }

  // ------------------------------------------------------------ what the output says, key by key

  /** The lookups that decide a schema's own keywords agree. */
  ghost predicate SameLocals(s: Json, c: Json) {
    && Member(c, KType) == Member(s, KType)
    && Member(c, KEnum) == Member(s, KEnum)
    && SameBounds(s, c)
    && SameOthers(s, c)
  }

  ghost predicate SameBounds(s: Json, c: Json) {
    && Member(c, KMinimum) == Member(s, KMinimum)
    && Member(c, KMaximum) == Member(s, KMaximum)
    && Member(c, KExclusiveMinimum) == Member(s, KExclusiveMinimum)
    && Member(c, KExclusiveMaximum) == Member(s, KExclusiveMaximum)
  }

  ghost predicate SameOthers(s: Json, c: Json) {
    && Member(c, KRequired) == Member(s, KRequired)
    && forall name: string :: !("x-" <= name) ==> Member(c, Name(name)) == Member(s, Name(name))
  }

  /** `c` carries, under each keyword that holds subschemas, the conversion of what `s` has. */
  ghost predicate Mirrors(names: Names, d: Dialect, s: Json, c: Json) {
    MirrorsSame(names, d, s, c) && MirrorsParts(names, d, s, c)
  }

  /** The keywords for the instance itself. */
  ghost predicate MirrorsSame(names: Names, d: Dialect, s: Json, c: Json) {
    && s.Obj? && c.Obj?
    && Member(c, KAllOf) == ConvertedMember(names, d, s, KAllOf)
    && Member(c, KAnyOf) == ConvertedMember(names, d, s, KAnyOf)
    && Member(c, KOneOf) == ConvertedMember(names, d, s, KOneOf)
    && Member(c, KNot) == ConvertedMember(names, d, s, KNot)
    && Member(c, KIf) == ConvertedMember(names, d, s, KIf)
    && Member(c, KThen) == ConvertedMember(names, d, s, KThen)
    && Member(c, KElse) == ConvertedMember(names, d, s, KElse)
  }

  /** The keywords for its parts. */
  ghost predicate MirrorsParts(names: Names, d: Dialect, s: Json, c: Json) {
    && s.Obj? && c.Obj?
    && Member(c, KItems) == ConvertedMember(names, d, s, KItems)
    && Member(c, KPrefixItems) == ConvertedMember(names, d, s, KPrefixItems)
    && Member(c, KContains) == ConvertedMember(names, d, s, KContains)
    && Member(c, KPropertyNames) == ConvertedMember(names, d, s, KPropertyNames)
    && Member(c, KPatternProperties) == ConvertedMember(names, d, s, KPatternProperties)
    && SameCounts(s, c)
    && Member(c, KProperties) == ConvertedMember(names, d, s, KProperties)
    && Member(c, KAdditionalProperties) == ConvertedMember(names, d, s, KAdditionalProperties)
  }

  /** How many items `contains` asks for. */
  ghost predicate SameCounts(s: Json, c: Json) {
    && Member(c, Name("minContains")) == Member(s, Name("minContains"))
    && Member(c, Name("maxContains")) == Member(s, Name("maxContains"))
  }

  /** A keyword that conversion copies as it stands. */
  predicate Plain(key: Key) {
    !Dropped(key) && key !in ONE_SCHEMA && key !in SCHEMA_MAPS && key !in SCHEMA_LISTS
  }

  lemma PlainMember(names: Names, d: Dialect, s: Json, skipRef: bool, key: Key)
    requires s.Obj? && Plain(key) && key != KRef && key != KExamples
    ensures Get(Written(names, d, s, skipRef), key) == Member(s, key)
  {
    WrittenMember(names, d, s, skipRef, key);
  }

  lemma WrittenLocals(names: Names, d: Dialect, s: Json, skipRef: bool)
    requires s.Obj?
    ensures SameLocals(s, Obj(Written(names, d, s, skipRef)))
  {
    hide Get, Written, Converted, SameBounds;
    PlainMember(names, d, s, skipRef, KType);
    PlainMember(names, d, s, skipRef, KEnum);
    PlainMember(names, d, s, skipRef, KRequired);
    WrittenBounds(names, d, s, skipRef);
    WrittenNames(names, d, s, skipRef);
  }

  lemma WrittenBounds(names: Names, d: Dialect, s: Json, skipRef: bool)
    requires s.Obj?
    ensures SameBounds(s, Obj(Written(names, d, s, skipRef)))
  {
    hide Get, Written, Converted;
    PlainMember(names, d, s, skipRef, KMinimum);
    PlainMember(names, d, s, skipRef, KMaximum);
    PlainMember(names, d, s, skipRef, KExclusiveMinimum);
    PlainMember(names, d, s, skipRef, KExclusiveMaximum);
  }

  lemma WrittenNames(names: Names, d: Dialect, s: Json, skipRef: bool)
    requires s.Obj?
    ensures forall name: string :: !("x-" <= name) ==>
              Get(Written(names, d, s, skipRef), Name(name)) == Member(s, Name(name))
  {
    hide Get, Written;
    forall name: string | !("x-" <= name)
      ensures Get(Written(names, d, s, skipRef), Name(name)) == Member(s, Name(name))
    {
      PlainMember(names, d, s, skipRef, Name(name));
    }
  }

  lemma WrittenMirrors(names: Names, d: Dialect, s: Json, skipRef: bool)
    requires s.Obj?
    ensures Mirrors(names, d, s, Obj(Written(names, d, s, skipRef)))
  {
    hide MirrorsSame, MirrorsParts, Written;
    WrittenSame(names, d, s, skipRef);
    WrittenParts(names, d, s, skipRef);
  }

  lemma WrittenSame(names: Names, d: Dialect, s: Json, skipRef: bool)
    requires s.Obj?
    ensures MirrorsSame(names, d, s, Obj(Written(names, d, s, skipRef)))
  {
    hide Get, Written, Converted;
    WrittenMember(names, d, s, skipRef, KAllOf);
    WrittenMember(names, d, s, skipRef, KAnyOf);
    WrittenMember(names, d, s, skipRef, KOneOf);
    WrittenMember(names, d, s, skipRef, KNot);
    WrittenMember(names, d, s, skipRef, KIf);
    WrittenMember(names, d, s, skipRef, KThen);
    WrittenMember(names, d, s, skipRef, KElse);
  }

  lemma WrittenParts(names: Names, d: Dialect, s: Json, skipRef: bool)
    requires s.Obj?
    ensures MirrorsParts(names, d, s, Obj(Written(names, d, s, skipRef)))
  {
    hide Get, Written, Converted, SameCounts;
    WrittenCounts(names, d, s, skipRef);
    WrittenMember(names, d, s, skipRef, KPrefixItems);
    WrittenMember(names, d, s, skipRef, KContains);
    WrittenMember(names, d, s, skipRef, KPropertyNames);
    WrittenMember(names, d, s, skipRef, KPatternProperties);
    WrittenMember(names, d, s, skipRef, KItems);
    WrittenMember(names, d, s, skipRef, KProperties);
    WrittenMember(names, d, s, skipRef, KAdditionalProperties);
  }

  lemma WrittenCounts(names: Names, d: Dialect, s: Json, skipRef: bool)
    requires s.Obj?
    ensures SameCounts(s, Obj(Written(names, d, s, skipRef)))
  {
    hide Get, Written;
    assert !("x-" <= "minContains") && !("x-" <= "maxContains") by {
      assert "minContains"[0] == 'm' && "maxContains"[0] == 'm' && "x-"[0] == 'x';
    }
    WrittenNames(names, d, s, skipRef);
  }
}
