/** What it means for an instance to be valid under a schema, in the OpenAPI 3.0 dialect
    and in JSON Schema 2020-12. Neither the hub's converter nor its ref check appears
    here: this is the independent meaning both are measured against. */
module Schemas {
  import opened JsonValues

  /** `V30` is the OpenAPI 3.0 schema dialect. `V31` is JSON Schema 2020-12, which
      OpenAPI 3.1 and 3.2 use and which every converted schema is written in. */
  datatype Dialect = V30 | V31

  /** Where refs lead. `rank` is a witness that no chain of refs goes round without
      consuming part of the instance (see `WellRanked`). */
  datatype Scope = Scope(target: map<string, Json>, rank: map<string, nat>)

  /** A verdict on one assertion keyword that conversion copies as it stands. */
  type Assertions = (Key, Json, Json) -> bool

  // ------------------------------------------------------------ references

  /** A schema is a reference when its `$ref` is a string. */
  function RefOf(s: Json): (r: Option<string>)
    ensures r.Some? ==> s.Obj?
  {
    match Member(s, KRef)
    case Some(Str(r)) => Some(r)
    case _ => None
  }

  /** Subschemas applied to the same instance as `s`. */
  function SameInstance(s: Json): (r: seq<Json>)
    ensures forall i :: 0 <= i < |r| ==> r[i] < s
  {
    ListAt(s, KAllOf) + ListAt(s, KAnyOf) + ListAt(s, KOneOf) +
    OneAt(s, KNot) + OneAt(s, KIf) + OneAt(s, KThen) + OneAt(s, KElse)
  }

  function Max(x: nat, y: nat): nat {
    if x < y then y else x
  }

  /** One more than the highest rank among the refs that `s` applies to its own
      instance, directly or through the same-instance keywords. */
  function Rank(scope: Scope, s: Json): nat
    decreases s, 1
  {
    Max(RefRank(scope, RefOf(s)), MaxRank(scope, s, SameInstance(s)))
  }

  function RefRank(scope: Scope, ref: Option<string>): nat {
    if ref.Some? && ref.value in scope.rank then scope.rank[ref.value] + 1 else 0
  }

  function MaxRank(scope: Scope, s: Json, xs: seq<Json>): nat
    requires forall i :: 0 <= i < |xs| ==> xs[i] < s
    decreases s, 0, |xs|
  {
    if |xs| == 0 then 0 else Max(Rank(scope, xs[0]), MaxRank(scope, s, xs[1..]))
  }

  lemma {:induction false} MaxRankBounds(scope: Scope, s: Json, xs: seq<Json>, i: nat)
    requires forall j :: 0 <= j < |xs| ==> xs[j] < s
    requires i < |xs|
    ensures Rank(scope, xs[i]) <= MaxRank(scope, s, xs)
    decreases |xs|
  {
    if i > 0 {
      MaxRankBounds(scope, s, xs[1..], i - 1);
    }
  }

  ghost predicate WellRanked(scope: Scope) {
    && scope.rank.Keys == scope.target.Keys
    && forall r :: r in scope.target ==> Rank(scope, scope.target[r]) <= scope.rank[r]
  }

  /** Following a ref leads to a schema of lower rank. */
  lemma TargetBelow(scope: Scope, s: Json)
    requires WellRanked(scope) && RefOf(s).Some? && RefOf(s).value in scope.target
    ensures Rank(scope, scope.target[RefOf(s).value]) < Rank(scope, s)
  {
  }

  predicate ListKey(key: Key) {
    key in {KAllOf, KAnyOf, KOneOf}
  }

  predicate SubKey(key: Key) {
    key in {KNot, KIf, KThen, KElse}
  }

  lemma MemberBelow(scope: Scope, s: Json, x: Json)
    requires x in SameInstance(s)
    ensures x < s && Rank(scope, x) <= Rank(scope, s)
  {
    hide SameInstance;
    var i :| 0 <= i < |SameInstance(s)| && SameInstance(s)[i] == x;
    MaxRankBounds(scope, s, SameInstance(s), i);
  }

  /** A subschema for the same instance is smaller, and ranks no higher. */
  lemma SameInstanceBelow(scope: Scope, s: Json, key: Key)
    ensures ListKey(key) ==> forall i :: 0 <= i < |ListAt(s, key)| ==>
              ListAt(s, key)[i] < s && Rank(scope, ListAt(s, key)[i]) <= Rank(scope, s)
    ensures SubKey(key) && Has(s, key) ==>
              Member(s, key).value < s && Rank(scope, Member(s, key).value) <= Rank(scope, s)
  {
    hide ListAt, Rank;
    if ListKey(key) {
      forall i | 0 <= i < |ListAt(s, key)|
        ensures ListAt(s, key)[i] < s && Rank(scope, ListAt(s, key)[i]) <= Rank(scope, s)
      {
        assert ListAt(s, key)[i] in ListAt(s, key);
        MemberBelow(scope, s, ListAt(s, key)[i]);
      }
    } else if SubKey(key) && Has(s, key) {
      assert Member(s, key).value in OneAt(s, key);
      MemberBelow(scope, s, Member(s, key).value);
    }
  }

  // ------------------------------------------------------------ one instance, no subschemas

  predicate IsTrue(value: Option<Json>) {
    value == Some(Bool(true))
  }

  /** 3.0's `nullable` beside a type name. */
  predicate NullableType(d: Dialect, s: Json) {
    d.V30? && IsTrue(Member(s, KNullable)) && Member(s, KType).Some? && Member(s, KType).value.Str?
  }

  /** 3.0's `nullable` where there is no type to add null to. */
  predicate NullableUntyped(d: Dialect, s: Json) {
    d.V30? && IsTrue(Member(s, KNullable)) && Member(s, KType) in {None, Some(Null)}
  }

  predicate TypeMatches(name: string, v: Json) {
    match v
    case Null => name == "null"
    case Bool(_) => name == "boolean"
    case Num(n) => name == "number" || (name == "integer" && n.Floor as real == n)
    case Str(_) => name == "string"
    case Arr(_) => name == "array"
    case Obj(_) => name == "object"
  }

  ghost predicate TypeOk(d: Dialect, s: Json, v: Json) {
    match Member(s, KType)
    case Some(Str(name)) => TypeMatches(name, v) || (NullableType(d, s) && v.Null?)
    case Some(Arr(names)) =>
      exists i :: 0 <= i < |names| && names[i].Str? && TypeMatches(names[i].s, v)
    case _ => true
  }

  ghost predicate InEnum(values: seq<Json>, v: Json) {
    exists i :: 0 <= i < |values| && SameValue(values[i], v)
  }

  ghost predicate EnumOk(d: Dialect, s: Json, v: Json) {
    match Member(s, KEnum)
    case Some(Arr(values)) => InEnum(values, v) || (NullableType(d, s) && v.Null?)
    case _ => true
  }

  predicate AtLeast(bound: Option<Json>, strict: bool, n: real) {
    match bound
    case Some(Num(m)) => if strict then m < n else m <= n
    case _ => true
  }

  predicate AtMost(bound: Option<Json>, strict: bool, n: real) {
    match bound
    case Some(Num(m)) => if strict then n < m else n <= m
    case _ => true
  }

  /** A boolean exclusive bound qualifies `minimum` or `maximum` in 3.0 and means
      nothing in 2020-12, where an exclusive bound is a number of its own. */
  predicate BoundsOk(d: Dialect, s: Json, v: Json) {
    v.Num? ==>
      && AtLeast(Member(s, KMinimum), d.V30? && IsTrue(Member(s, KExclusiveMinimum)), v.n)
      && AtMost(Member(s, KMaximum), d.V30? && IsTrue(Member(s, KExclusiveMaximum)), v.n)
      && AtLeast(Member(s, KExclusiveMinimum), true, v.n)
      && AtMost(Member(s, KExclusiveMaximum), true, v.n)
  }

  predicate RequiredOk(s: Json, v: Json) {
    v.Obj? ==> HasAll(v, ListAt(s, KRequired))
  }

  predicate HasAll(v: Json, names: seq<Json>) {
    forall i :: 0 <= i < |names| ==> names[i].Str? ==> HasText(v, names[i].s)
  }

  /** `v` has a key written `text`. */
  predicate HasText(v: Json, text: string) {
    v.Obj? && exists i :: 0 <= i < |v.fields| && v.fields[i].0.Text() == text
  }

  /** Keywords with no constructor of their own: `minLength`, `pattern`, `format` and the
      like. Each is left to `a`, except the `x-` extensions, which assert nothing. */
  ghost predicate CopiedOk(a: Assertions, s: Json, v: Json) {
    forall name: string :: !("x-" <= name) && Has(s, Name(name)) ==>
      a(Name(name), Member(s, Name(name)).value, v)
  }

  ghost predicate LocalOk(a: Assertions, d: Dialect, s: Json, v: Json) {
    TypeOk(d, s, v) && EnumOk(d, s, v) && BoundsOk(d, s, v) && RequiredOk(s, v) && CopiedOk(a, s, v)
  }

  // ------------------------------------------------------------ validity

  /** Containers stand above the texts that name their fields. */
  function Level(v: Json): nat {
    if v.Obj? || v.Arr? then 1 else 0
  }

  /** The schemas an item is checked against: its own among the prefix, or the one for the rest. */
  function ItemSchemas(s: Json, i: nat): (r: seq<Json>)
    ensures forall x :: x in r ==> x < s
  {
    var prefix := ListAt(s, KPrefixItems);
    if i < |prefix| then [prefix[i]] else OneAt(s, KItems)
  }

  /** The schema of a property of its own, if there is one. */
  function PropertySchemas(s: Json, key: Key): (r: seq<Json>)
    ensures forall x :: x in r ==> x < s
  {
    match Member(s, KProperties)
    case Some(Obj(props)) => if Get(props, key).Some? then [Get(props, key).value] else []
    case _ => []
  }

  /** Whether a pattern matches a name is left to `a`, like the other assertions. */
  predicate Matches(a: Assertions, pattern: Key, key: Key) {
    a(KPatternProperties, Str(pattern.Text()), Str(key.Text()))
  }

  function Matched(a: Assertions, patterns: Fields, key: Key): (r: seq<Json>)
    ensures forall x :: x in r ==> exists i :: 0 <= i < |patterns| && patterns[i].1 == x
  {
    if |patterns| == 0 then []
    else
      var last := |patterns| - 1;
      Matched(a, patterns[..last], key) + if Matches(a, patterns[last].0, key) then [patterns[last].1] else []
  }

  function PatternsOf(s: Json): (r: Fields)
    ensures forall i :: 0 <= i < |r| ==> r[i].1 < s
  {
    match Member(s, KPatternProperties)
    case Some(patterns) => Entries(patterns)
    case None => []
  }

  /** The schemas a field is checked against: its own, those of every pattern that matches its
      name, and only without any of these the one for other fields. */
  function FieldSchemas(a: Assertions, s: Json, key: Key): (r: seq<Json>)
    ensures forall x :: x in r ==> x < s
  {
    var own := PropertySchemas(s, key) + Matched(a, PatternsOf(s), key);
    if own != [] then own else OneAt(s, KAdditionalProperties)
  }

  /** How many of the verdicts are good. */
  function Trues(verdicts: seq<bool>): nat {
    if |verdicts| == 0 then 0
    else Trues(verdicts[..|verdicts| - 1]) + if verdicts[|verdicts| - 1] then 1 else 0
  }

  /** Enough items match `contains`, and not too many. */
  predicate CountOk(s: Json, n: nat) {
    && (match Member(s, Name("minContains")) case Some(Num(m)) => n as real >= m case _ => n >= 1)
    && (match Member(s, Name("maxContains")) case Some(Num(m)) => n as real <= m case _ => true)
  }

  /** `v` is valid under `s`. The recursion is on the instance, then on how far refs can
      still be followed without consuming it, then on the schema itself. */
  ghost predicate Valid(a: Assertions, scope: Scope, d: Dialect, s: Json, v: Json)
    requires WellRanked(scope)
    decreases Level(v), v, Rank(scope, s), s, 3
  {
    match s
    case Bool(b) => b
    case Obj(_) =>
      (match RefOf(s)
       case Some(ref) =>
         && ref in scope.target
         && (TargetBelow(scope, s); Valid(a, scope, d, scope.target[ref], v))
         && (d.V31? ==> KeywordsOk(a, scope, d, s, v))
       case None => (NullableUntyped(d, s) && v.Null?) || KeywordsOk(a, scope, d, s, v))
    case _ => true
  }

  ghost predicate KeywordsOk(a: Assertions, scope: Scope, d: Dialect, s: Json, v: Json)
    requires WellRanked(scope)
    decreases Level(v), v, Rank(scope, s), s, 2
  {
    && LocalOk(a, d, s, v)
    && CombinersOk(a, scope, d, s, v)
    && ChildrenOk(a, scope, d, s, v)
  }

  /** The keywords that apply a subschema to the instance itself. */
  ghost predicate CombinersOk(a: Assertions, scope: Scope, d: Dialect, s: Json, v: Json)
    requires WellRanked(scope)
    decreases Level(v), v, Rank(scope, s), s, 1
  {
    && All(Verdicts(a, scope, d, s, KAllOf, v))
    && (IsList(s, KAnyOf) ==> Any(Verdicts(a, scope, d, s, KAnyOf, v)))
    && (IsList(s, KOneOf) ==> ExactlyOne(Verdicts(a, scope, d, s, KOneOf, v)))
    && (Has(s, KNot) ==> !SubValid(a, scope, d, s, KNot, v))
    && (Has(s, KIf) ==>
          if SubValid(a, scope, d, s, KIf, v)
          then (Has(s, KThen) ==> SubValid(a, scope, d, s, KThen, v))
          else (Has(s, KElse) ==> SubValid(a, scope, d, s, KElse, v)))
  }

  predicate IsList(s: Json, key: Key) {
    Has(s, key) && Member(s, key).value.Arr?
  }

  /** The verdict of each member of a list keyword. */
  ghost function Verdicts(a: Assertions, scope: Scope, d: Dialect, s: Json, key: Key, v: Json): (r: seq<bool>)
    requires WellRanked(scope) && ListKey(key)
    ensures |r| == |ListAt(s, key)|
    decreases Level(v), v, Rank(scope, s), s, 0
  {
    SameInstanceBelow(scope, s, key);
    var xs := ListAt(s, key);
    seq(|xs|, i requires 0 <= i < |xs| => Valid(a, scope, d, xs[i], v))
  }

  predicate All(verdicts: seq<bool>) {
    forall i :: 0 <= i < |verdicts| ==> verdicts[i]
  }

  predicate Any(verdicts: seq<bool>) {
    exists i :: 0 <= i < |verdicts| && verdicts[i]
  }

  predicate ExactlyOne(verdicts: seq<bool>) {
    exists i :: 0 <= i < |verdicts| && verdicts[i] && (forall j :: 0 <= j < |verdicts| && verdicts[j] ==> j == i)
  }

  ghost predicate SubValid(a: Assertions, scope: Scope, d: Dialect, s: Json, key: Key, v: Json)
    requires WellRanked(scope) && SubKey(key) && Has(s, key)
    decreases Level(v), v, Rank(scope, s), s, 0
  {
    SameInstanceBelow(scope, s, key);
    Valid(a, scope, d, Member(s, key).value, v)
  }

  /** The verdict of `contains` on each item. */
  ghost function ItemVerdicts(a: Assertions, scope: Scope, d: Dialect, s: Json, v: Json): (r: seq<bool>)
    requires WellRanked(scope) && v.Arr? && Has(s, KContains)
    ensures |r| == |v.items|
    decreases Level(v), v, Rank(scope, s), s, 0
  {
    seq(|v.items|, i requires 0 <= i < |v.items| => Valid(a, scope, d, Member(s, KContains).value, v.items[i]))
  }

  /** The keywords that apply a subschema to a part of the instance, or to the name of one. */
  ghost predicate ChildrenOk(a: Assertions, scope: Scope, d: Dialect, s: Json, v: Json)
    requires WellRanked(scope)
    decreases Level(v), v, Rank(scope, s), s, 1
  {
    match v
    case Arr(items) =>
      && (forall i, x :: 0 <= i < |items| && x in ItemSchemas(s, i) ==> Valid(a, scope, d, x, items[i]))
      && (Has(s, KContains) ==> CountOk(s, Trues(ItemVerdicts(a, scope, d, s, v))))
    case Obj(fields) =>
      && (forall i, x :: 0 <= i < |fields| && x in FieldSchemas(a, s, fields[i].0) ==>
            Valid(a, scope, d, x, fields[i].1))
      && (Has(s, KPropertyNames) ==>
            forall i :: 0 <= i < |fields| ==>
              Valid(a, scope, d, Member(s, KPropertyNames).value, Str(fields[i].0.Text())))
    case _ => true
  }
}
