/** JSON values with ordered object keys, as the hub holds a parsed spec. */
module JsonValues {

  datatype Option<+T> = None | Some(value: T)

  /** An object's key: a schema keyword the code names, by its place in `KEYWORDS`, or any
      other text. `Text` is what is written in the document. */
  datatype Key = Keyword(id: nat) | Name(name: string) {
    function Text(): string {
      match this
      case Keyword(id) => if id < |KEYWORDS| then KEYWORDS[id] else ""
      case Name(name) => name
    }
  }

  const KEYWORDS: seq<string> :=
    [ "$ref", "type", "enum", "nullable", "required", "minimum", "maximum", "exclusiveMinimum",
      "exclusiveMaximum", "allOf", "anyOf", "oneOf", "prefixItems", "items",
      "additionalProperties", "not", "if", "then", "else", "contains", "propertyNames",
      "unevaluatedProperties", "unevaluatedItems", "additionalItems", "properties",
      "patternProperties", "dependentSchemas", "$defs", "discriminator", "xml", "externalDocs",
      "example", "examples", "$id", "$dynamicRef", "$recursiveRef" ]

  const KRef := Keyword(0)
  const KType := Keyword(1)
  const KEnum := Keyword(2)
  const KNullable := Keyword(3)
  const KRequired := Keyword(4)
  const KMinimum := Keyword(5)
  const KMaximum := Keyword(6)
  const KExclusiveMinimum := Keyword(7)
  const KExclusiveMaximum := Keyword(8)
  const KAllOf := Keyword(9)
  const KAnyOf := Keyword(10)
  const KOneOf := Keyword(11)
  const KPrefixItems := Keyword(12)
  const KItems := Keyword(13)
  const KAdditionalProperties := Keyword(14)
  const KNot := Keyword(15)
  const KIf := Keyword(16)
  const KThen := Keyword(17)
  const KElse := Keyword(18)
  const KContains := Keyword(19)
  const KPropertyNames := Keyword(20)
  const KUnevaluatedProperties := Keyword(21)
  const KUnevaluatedItems := Keyword(22)
  const KAdditionalItems := Keyword(23)
  const KProperties := Keyword(24)
  const KPatternProperties := Keyword(25)
  const KDependentSchemas := Keyword(26)
  const KDefs := Keyword(27)
  const KDiscriminator := Keyword(28)
  const KXml := Keyword(29)
  const KExternalDocs := Keyword(30)
  const KExample := Keyword(31)
  const KExamples := Keyword(32)
  const KId := Keyword(33)
  const KDynamicRef := Keyword(34)
  const KRecursiveRef := Keyword(35)

  datatype Json =
    | Null
    | Bool(b: bool)
    | Num(n: real)
    | Str(s: string)
    | Arr(items: seq<Json>)
    | Obj(fields: Fields)

  /** An object's entries in order. A lookup reads the first entry with the key. */
  type Fields = seq<(Key, Json)>

  function Get(fields: Fields, key: Key): (r: Option<Json>)
    ensures r.Some? ==> r.value < Obj(fields)
    ensures r.Some? ==> (key, r.value) in fields
    ensures r.None? ==> forall i :: 0 <= i < |fields| ==> fields[i].0 != key
  {
    if |fields| == 0 then None
    else if fields[0].0 == key then Some(fields[0].1)
    else
      var r := Get(fields[1..], key);
      assert r.Some? ==> (key, r.value) in fields[1..];
      assert forall i :: 1 <= i < |fields| ==> fields[i] == fields[1..][i - 1];
      r
  }

  function Member(value: Json, key: Key): (r: Option<Json>)
    ensures r.Some? ==> value.Obj? && r.value < value
  {
    if value.Obj? then Get(value.fields, key) else None
  }

  predicate Has(value: Json, key: Key) {
    Member(value, key).Some?
  }

  /** Every entry of `fields` sits inside `value`. */
  ghost predicate Within(value: Json, fields: Fields) {
    forall i :: 0 <= i < |fields| ==> fields[i].1 < value
  }

  function Entries(value: Json): (r: Fields)
    ensures Within(value, r)
  {
    if value.Obj? then
      assert forall i :: 0 <= i < |value.fields| ==> (value.fields[i].0, value.fields[i].1) in value.fields;
      value.fields
    else []
  }

  /** The elements under `key` when they are a list, and nothing otherwise. */
  function ListAt(value: Json, key: Key): (r: seq<Json>)
    ensures forall x :: x in r ==> x < value
  {
    var m := Member(value, key);
    if m.Some? && m.value.Arr? then m.value.items else []
  }

  /** The value under `key` as a list of at most one element. */
  function OneAt(value: Json, key: Key): (r: seq<Json>)
    ensures forall x :: x in r ==> x < value
  {
    var m := Member(value, key);
    if m.Some? then [m.value] else []
  }

  /** `fields` without `key`. */
  function Pop(fields: Fields, key: Key): (r: Fields)
    ensures forall k :: Get(r, k) == if k == key then None else Get(fields, k)
  {
    if |fields| == 0 then []
    else if fields[0].0 == key then Pop(fields[1..], key)
    else
      var rest := Pop(fields[1..], key);
      assert ([fields[0]] + rest)[1..] == rest;
      [fields[0]] + rest
  }

  /** `fields` with `key` set: in place when present, at the end when not. */
  function Put(fields: Fields, key: Key, value: Json): (r: Fields)
    ensures forall k :: Get(r, k) == if k == key then Some(value) else Get(fields, k)
  {
    if |fields| == 0 then
      assert [(key, value)][1..] == [];
      [(key, value)]
    else if fields[0].0 == key then
      assert ([(key, value)] + fields[1..])[1..] == fields[1..];
      [(key, value)] + fields[1..]
    else
      var rest := Put(fields[1..], key, value);
      assert ([fields[0]] + rest)[1..] == rest;
      [fields[0]] + rest
  }

  /** Equality of JSON values: objects are compared by key, whatever the order. */
  ghost predicate SameValue(x: Json, y: Json)
    decreases x
  {
    match (x, y)
    case (Arr(xs), Arr(ys)) =>
      |xs| == |ys| && forall i :: 0 <= i < |xs| ==> SameValue(xs[i], ys[i])
    case (Obj(fs), Obj(gs)) =>
      && (forall i :: 0 <= i < |gs| ==> Get(fs, gs[i].0).Some?)
      && (forall i :: 0 <= i < |fs| ==>
            Get(gs, fs[i].0).Some? && SameValue(fs[i].1, Get(gs, fs[i].0).value))
    case (Arr(_), _) => false
    case (Obj(_), _) => false
    case (_, _) => x == y
  }
}
