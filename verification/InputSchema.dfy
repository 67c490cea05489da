/** A tool's argument schema, from a spec that may be hostile to a self-contained 2020-12
    schema: the ref check, the bundler and the meaning of schemas put together. */
module InputSchema {
  import opened JsonValues
  import opened Schemas
  import opened SchemaConvert
  import opened SchemaPreserved
  import opened RefGraph
  import opened RefCheck
  import opened CheckedScope
  import opened BundledScope
  import opened Bundling
  import opened SelfContained
  import opened LooseRefs

  /** The scopes a document and an output give are well founded, and the output stands alone:
      every bundled schema is found in it, and refs inside bundled schemas lead to bundled schemas. */
  ghost predicate Standing(unquote: Unquote, document: Json, e: map<Pointer, nat>, d: Dialect, names: Names,
                           output: Json) {
    && Resolvable(unquote, document)
    && var src := SourceScope(unquote, document, e);
    && WellRanked(src) && Injective(names) && Closed(names, d, src)
    && var out := BundleOf(names, d, src);
    && WellRanked(out)
    && (forall r :: r in out.target ==> Resolve(unquote, output, r) == Some(out.target[r]))
    && (forall r :: r in out.target ==> ConvRefs(V31, out.target[r]) <= out.target.Keys)
  }

  /** `c`, read as 2020-12 with refs resolved in the output, accepts exactly the instances that
      `s` accepts in the document, and no ref it holds leads out of the output. */
  ghost predicate MeansTheSame(unquote: Unquote, document: Json, e: map<Pointer, nat>, d: Dialect,
                               names: Names, output: Json, s: Json, c: Json)
  {
    && Standing(unquote, document, e, d, names, output)
    && var src := SourceScope(unquote, document, e);
    && var out := BundleOf(names, d, src);
    && (forall a: Assertions, v :: Valid(a, src, d, s, v) <==> Valid(a, out, V31, c, v))
    && ConvRefs(V31, c) <= out.target.Keys
  }

  /** The output, as one 2020-12 schema, accepts exactly the closed objects whose properties are
      valid in the document and of which none that is required is missing. */
  ghost predicate AcceptsClosed(unquote: Unquote, document: Json, e: map<Pointer, nat>, d: Dialect,
                                names: Names, output: Json, properties: Fields, required: seq<Json>)
  {
    && Standing(unquote, document, e, d, names, output)
    && var src := SourceScope(unquote, document, e);
    && forall a: Assertions, v ::
         Valid(a, BundleOf(names, d, src), V31, output, v) <==> ClosedObject(a, src, d, properties, required, v)
  }

  /** Every `$ref` anywhere in the output outside data, under whatever keyword, names one of the
      output's own definitions, or it was copied from where JSON Schema has no schema. */
  ghost predicate NoneLeft(unquote: Unquote, document: Json, names: Names, output: Json, properties: Fields,
                           required: seq<Json>)
  {
    AllRefs(output) <= Given(names) + ValueStrays(KProperties, Obj(properties)) +
                       BundledStrays(unquote, document, names) + AllRefs(Arr(required))
  }

  /** The root of a tool's argument schema. */
  function RootSchema(properties: Fields, required: seq<Json>): (r: Json)
    ensures r.Obj?
  {
    Obj([(KType, Str("object")), (KProperties, Obj(properties))] +
        (if required == [] then [] else [(KRequired, Arr(required))]) +
        [(KAdditionalProperties, Bool(false))])
  }

  lemma RootKeywords(properties: Fields, required: seq<Json>)
    ensures DefsIsKeyword(RootSchema(properties, required).fields)
  {
    assert KType.Text()[0] == 't' && KProperties.Text()[0] == 'p';
    assert KRequired.Text()[0] == 'r' && KAdditionalProperties.Text()[0] == 'a';
    assert "$defs"[0] == '$';
  }

  // ------------------------------------------------------------ what the root demands

  /** A closed object: nothing but these properties, each valid, and every required one there. */
  ghost predicate ClosedObject(a: Assertions, scope: Scope, d: Dialect, properties: Fields, required: seq<Json>,
                               v: Json)
    requires WellRanked(scope)
  {
    && v.Obj? && HasAll(v, required)
    && forall i :: 0 <= i < |v.fields| ==>
         var schema := Get(properties, v.fields[i].0);
         schema.Some? && Valid(a, scope, d, schema.value, v.fields[i].1)
  }

  predicate RootKey(key: Key) {
    key in {KType, KProperties, KRequired, KAdditionalProperties, KDefs}
  }

  lemma RootLookup(properties: Fields, required: seq<Json>, defs: Fields, key: Key)
    ensures var out := Output(RootSchema(properties, required), defs);
            && out.Obj?
            && (key == KType ==> Member(out, key) == Some(Str("object")))
            && (key == KProperties ==> Member(out, key) == Some(Obj(properties)))
            && (key == KRequired ==> Member(out, key) == if required == [] then None else Some(Arr(required)))
            && (key == KAdditionalProperties ==> Member(out, key) == Some(Bool(false)))
            && (!RootKey(key) ==> Member(out, key).None?)
  {
    hide Put, Get;
    var kind, props := (KType, Str("object")), (KProperties, Obj(properties));
    var needs, closed := (KRequired, Arr(required)), (KAdditionalProperties, Bool(false));
    NothingIn(key);
    Prefixed(closed, []);
    assert [closed] + [] == [closed];
    Prefixed(needs, [closed]);
    var rest := (if required == [] then [] else [needs]) + [closed];
    assert required == [] ==> rest == [closed];
    Prefixed(props, rest);
    Prefixed(kind, [props] + rest);
    assert RootSchema(properties, required).fields == [kind] + ([props] + rest);
  }

  lemma ObjectType(v: Json)
    ensures TypeMatches("object", v) <==> v.Obj?
  {
    assert "object"[0] == 'o' && "null"[0] == 'n' && "boolean"[0] == 'b' && "number"[0] == 'n';
    assert "integer"[0] == 'i' && "string"[0] == 's' && "array"[0] == 'a';
  }

  lemma RootLocals(a: Assertions, properties: Fields, required: seq<Json>, defs: Fields, v: Json)
    ensures var out := Output(RootSchema(properties, required), defs);
            LocalOk(a, V31, out, v) <==> v.Obj? && HasAll(v, required)
  {
    hide Get, Output, RootSchema, TypeMatches, HasText;
    var out := Output(RootSchema(properties, required), defs);
    forall key ensures !RootKey(key) ==> Member(out, key).None? {
      RootLookup(properties, required, defs, key);
    }
    RootLookup(properties, required, defs, KType);
    RootLookup(properties, required, defs, KRequired);
    ObjectType(v);
  }

  lemma RootCombines(a: Assertions, scope: Scope, properties: Fields, required: seq<Json>, defs: Fields, v: Json)
    requires WellRanked(scope)
    ensures CombinersOk(a, scope, V31, Output(RootSchema(properties, required), defs), v)
  {
    hide Get, Output, RootSchema, WellRanked, Rank, Valid;
    var out := Output(RootSchema(properties, required), defs);
    forall key ensures !RootKey(key) ==> Member(out, key).None? {
      RootLookup(properties, required, defs, key);
    }
  }

  lemma RootFields(a: Assertions, properties: Fields, required: seq<Json>, defs: Fields, key: Key)
    ensures FieldSchemas(a, Output(RootSchema(properties, required), defs), key) ==
            [if Get(properties, key).Some? then Get(properties, key).value else Bool(false)]
  {
    hide Get, Output, RootSchema;
    RootLookup(properties, required, defs, KProperties);
    RootLookup(properties, required, defs, KPatternProperties);
    RootLookup(properties, required, defs, KAdditionalProperties);
  }

  lemma NeverValid(a: Assertions, scope: Scope, v: Json)
    requires WellRanked(scope)
    ensures !Valid(a, scope, V31, Bool(false), v)
  {
  }

  lemma RootChildren(a: Assertions, scope: Scope, properties: Fields, required: seq<Json>, defs: Fields, v: Json)
    requires WellRanked(scope) && v.Obj?
    ensures ChildrenOk(a, scope, V31, Output(RootSchema(properties, required), defs), v) <==>
            forall i :: 0 <= i < |v.fields| ==>
              var schema := Get(properties, v.fields[i].0);
              schema.Some? && Valid(a, scope, V31, schema.value, v.fields[i].1)
  {
    hide Get, Output, RootSchema, WellRanked, Rank, Valid, FieldSchemas;
    var out := Output(RootSchema(properties, required), defs);
    RootLookup(properties, required, defs, KPropertyNames);
    forall i | 0 <= i < |v.fields|
      ensures var own := Get(properties, v.fields[i].0);
              FieldSchemas(a, out, v.fields[i].0) == [if own.Some? then own.value else Bool(false)]
      ensures !Valid(a, scope, V31, Bool(false), v.fields[i].1)
    {
      RootFields(a, properties, required, defs, v.fields[i].0);
      NeverValid(a, scope, v.fields[i].1);
    }
    ClosedFields(a, scope, out, properties, v);
  }

  /** With one schema to a field, each field is valid exactly when it is under that one. */
  lemma ClosedFields(a: Assertions, scope: Scope, out: Json, properties: Fields, v: Json)
    requires WellRanked(scope) && v.Obj?
    requires forall i :: 0 <= i < |v.fields| ==>
               var own := Get(properties, v.fields[i].0);
               FieldSchemas(a, out, v.fields[i].0) == [if own.Some? then own.value else Bool(false)]
    requires forall i :: 0 <= i < |v.fields| ==> !Valid(a, scope, V31, Bool(false), v.fields[i].1)
    ensures (forall i, x :: 0 <= i < |v.fields| && x in FieldSchemas(a, out, v.fields[i].0) ==>
               Valid(a, scope, V31, x, v.fields[i].1)) <==>
            (forall i :: 0 <= i < |v.fields| ==>
               var schema := Get(properties, v.fields[i].0);
               schema.Some? && Valid(a, scope, V31, schema.value, v.fields[i].1))
  {
    hide Get, WellRanked, Valid, FieldSchemas;
    forall i | 0 <= i < |v.fields|
      ensures (forall x :: x in FieldSchemas(a, out, v.fields[i].0) ==> Valid(a, scope, V31, x, v.fields[i].1)) <==>
              (var schema := Get(properties, v.fields[i].0);
               schema.Some? && Valid(a, scope, V31, schema.value, v.fields[i].1))
    {
      assert FieldSchemas(a, out, v.fields[i].0)[0] in FieldSchemas(a, out, v.fields[i].0);
    }
  }

  /** The finished root accepts exactly the closed objects of its properties. */
  lemma RootMeans(a: Assertions, scope: Scope, properties: Fields, required: seq<Json>, defs: Fields, v: Json)
    requires WellRanked(scope)
    ensures Valid(a, scope, V31, Output(RootSchema(properties, required), defs), v) <==>
            ClosedObject(a, scope, V31, properties, required, v)
  {
    hide Get, Output, RootSchema, WellRanked, Rank, LocalOk, CombinersOk, ChildrenOk, HasAll;
    RootLookup(properties, required, defs, KRef);
    RootLocals(a, properties, required, defs, v);
    RootCombines(a, scope, properties, required, defs, v);
    if v.Obj? {
      RootChildren(a, scope, properties, required, defs, v);
    }
  }

  // ------------------------------------------------------------ every ref of the output

  lemma RootLoose(properties: Fields, required: seq<Json>, allowed: set<string>)
    requires AllRefs(Obj(properties)) <= allowed && AllRefs(Arr(required)) <= allowed
    ensures LooseIn(RootSchema(properties, required).fields, allowed)
  {
    assert AllRefs(Str("object")) == {} && AllRefs(Bool(false)) == {};
    hide AllRefs, IsData;
  }

  lemma OutputLoose(unquote: Unquote, document: Json, d: Dialect, names: Names, defs: Fields, properties: Fields,
                    converted: Fields, required: seq<Json>)
    requires Consistent(unquote, document, d, names, [], defs, {})
    requires PropertiesConverted(names, d, properties, converted)
    ensures NoneLeft(unquote, document, names, Output(RootSchema(converted, required), defs), properties, required)
  {
    hide AllRefs, LooseIn, Consistent, PropertiesConverted, RootSchema, Put, Given, ValueStrays, BundledStrays, OwnRefs;
    var root, output := RootSchema(converted, required), Output(RootSchema(converted, required), defs);
    var allowed := Given(names) + ValueStrays(KProperties, Obj(properties)) +
                   BundledStrays(unquote, document, names) + AllRefs(Arr(required));
    PropertiesLoose(names, d, properties, converted);
    DefsLoose(unquote, document, d, names, defs);
    RootLoose(converted, required, allowed);
    if defs != [] {
      LoosePut(root.fields, KDefs, Obj(defs), allowed);
    }
    OutputHasNoRef(converted, required, defs);
    LooseObject(output.fields, allowed);
  }

  lemma OutputHasNoRef(properties: Fields, required: seq<Json>, defs: Fields)
    ensures var output := Output(RootSchema(properties, required), defs);
            output.Obj? && OwnRefs(Obj(output.fields)) == {}
  {
    hide RootSchema, Output;
    RootLookup(properties, required, defs, KRef);
  }

  // ------------------------------------------------------------ from the spec to the schema

  /** The conversion of every property, as far as names were given when each was converted. */
  ghost predicate AllConverted(names: Names, d: Dialect, properties: Fields, converted: Fields) {
    && |converted| <= |properties|
    && forall i :: 0 <= i < |converted| ==>
         && converted[i].0 == properties[i].0
         && ConvRefs(d, properties[i].1) <= names.Keys
         && converted[i].1 == Converted(names, d, properties[i].1)
  }

  lemma StillConverted(before: Names, after: Names, d: Dialect, properties: Fields, converted: Fields)
    requires AllConverted(before, d, properties, converted)
    requires before.Keys <= after.Keys && forall ref :: ref in before ==> after[ref] == before[ref]
    ensures AllConverted(after, d, properties, converted)
  {
    hide Converted, ConvRefs;
    forall i | 0 <= i < |converted|
      ensures converted[i].1 == Converted(after, d, properties[i].1)
    {
      ConvertedStable(before, after, d, properties[i].1);
    }
  }

  lemma {:induction false} SameKeys(properties: Fields, converted: Fields, key: Key)
    requires |converted| == |properties| && forall i :: 0 <= i < |properties| ==> converted[i].0 == properties[i].0
    ensures Get(properties, key).Some? <==> Get(converted, key).Some?
    ensures Get(properties, key).Some? ==>
              exists i :: 0 <= i < |properties| && Get(properties, key).value == properties[i].1 &&
                Get(converted, key).value == converted[i].1
  {
    if |properties| > 0 && properties[0].0 != key {
      SameKeys(properties[1..], converted[1..], key);
      if Get(properties, key).Some? {
        var i :| 0 <= i < |properties[1..]| && Get(properties[1..], key).value == properties[1..][i].1 &&
          Get(converted[1..], key).value == converted[1..][i].1;
        assert properties[1..][i] == properties[i + 1] && converted[1..][i] == converted[i + 1];
      }
    }
  }

  lemma SameClosed(a: Assertions, src: Scope, d: Dialect, out: Scope, properties: Fields, converted: Fields,
                   required: seq<Json>, v: Json)
    requires WellRanked(src) && WellRanked(out)
    requires |converted| == |properties| && forall i :: 0 <= i < |properties| ==> converted[i].0 == properties[i].0
    requires forall i, x :: 0 <= i < |properties| ==>
               (Valid(a, src, d, properties[i].1, x) <==> Valid(a, out, V31, converted[i].1, x))
    ensures ClosedObject(a, out, V31, converted, required, v) <==> ClosedObject(a, src, d, properties, required, v)
  {
    hide Get, Valid, WellRanked, HasAll;
    if v.Obj? {
      forall k | 0 <= k < |v.fields|
        ensures var p, c := Get(properties, v.fields[k].0), Get(converted, v.fields[k].0);
                && (p.Some? <==> c.Some?)
                && (p.Some? ==> (Valid(a, src, d, p.value, v.fields[k].1) <==>
                                 Valid(a, out, V31, c.value, v.fields[k].1)))
      {
        SameKeys(properties, converted, v.fields[k].0);
      }
    }
  }

  /** Property by property, and so for the root. */
  lemma RootMeansTheSame(unquote: Unquote, document: Json, e: map<Pointer, nat>, d: Dialect, names: Names,
                         defs: Fields, properties: Fields, converted: Fields, required: seq<Json>)
    requires Standing(unquote, document, e, d, names, Output(RootSchema(converted, required), defs))
    requires |converted| == |properties| && forall i :: 0 <= i < |properties| ==> converted[i].0 == properties[i].0
    requires forall i :: 0 <= i < |properties| ==>
               MeansTheSame(unquote, document, e, d, names, Output(RootSchema(converted, required), defs),
                            properties[i].1, converted[i].1)
    ensures AcceptsClosed(unquote, document, e, d, names, Output(RootSchema(converted, required), defs), properties,
                          required)
  {
    hide Valid, Output, RootSchema, BundleOf, SourceScope, WellRanked, Resolvable, Closed, Injective, ConvRefs,
      Resolve, ClosedObject;
    var src := SourceScope(unquote, document, e);
    var out := BundleOf(names, d, src);
    forall a: Assertions, v: Json
      ensures Valid(a, out, V31, Output(RootSchema(converted, required), defs), v) <==>
              ClosedObject(a, src, d, properties, required, v)
    {
      RootMeans(a, out, converted, required, defs, v);
      SameClosed(a, src, d, out, properties, converted, required, v);
    }
  }

  /** Builds the argument schema for these properties. There is one exactly when the document
      passes the ref check; then each property means in it what it meant in the spec, and the
      schema as a whole accepts exactly the closed objects of those properties. */
  method BuildInputSchema(unquote: Unquote, document: Json, d: Dialect, properties: Fields, required: seq<Json>)
    returns (r: Option<Json>, ghost converted: Fields, ghost names: Names, ghost e: map<Pointer, nat>)
    requires forall s: string :: '%' !in s ==> unquote(s) == s
    requires forall i, ref :: 0 <= i < |properties| && ref in ConvRefs(d, properties[i].1) ==> ref in Sites(document)
    ensures r.Some? <==> IsChecked(unquote, document)
    ensures r.Some? ==> IsExpansion(EdgesOf(unquote, document), e)
    ensures r.Some? ==>
              && |converted| == |properties|
              && (exists defs :: r.value == Output(RootSchema(converted, required), defs))
              && AcceptsClosed(unquote, document, e, d, names, r.value, properties, required)
              && NoneLeft(unquote, document, names, r.value, properties, required)
              && forall i :: 0 <= i < |properties| ==>
                   && converted[i].0 == properties[i].0
                   && MeansTheSame(unquote, document, e, d, names, r.value, properties[i].1, converted[i].1)
  {
    hide IsChecked, Sites, Converted, ConvRefs, RootSchema, Consistent, MeansTheSame, IsExpansion, AcceptsClosed,
      Standing, NoneLeft;
    converted, names, e := [], map[], map[];
    var verdict := CheckRefs(unquote, document);
    if verdict.Refused? {
      return None, converted, names, e;
    }
    e := verdict.expansion;
    CheckedIsResolvable(unquote, document);
    var bundler := new SchemaBundler(unquote, document, d);
    var out: Fields := [];
    for i := 0 to |properties|
      invariant bundler.Valid() && bundler.busy == {} && |out| == i
      invariant AllConverted(bundler.names, d, properties, out)
    {
      ghost var before := bundler.names;
      var c := bundler.Convert(properties[i].1);
      StillConverted(before, bundler.names, d, properties, out);
      out := out + [(properties[i].0, c)];
    }
    ghost var before := bundler.names;
    var root := RootSchema(out, required);
    var output := bundler.Finish(root);
    assert output == Output(root, bundler.defs);
    StillConverted(before, bundler.names, d, properties, out);
    RootKeywords(out, required);
    converted, names := out, bundler.names;
    forall i | 0 <= i < |properties|
      ensures MeansTheSame(unquote, document, e, d, names, output, properties[i].1, converted[i].1)
    {
      SamePerProperty(unquote, document, e, d, names, bundler.defs, root, properties[i].1);
    }
    OutputLoose(unquote, document, d, names, bundler.defs, properties, converted, required);
    NothingToConvert(d);
    SamePerProperty(unquote, document, e, d, names, bundler.defs, root, Null);
    StandsAlone(unquote, document, e, d, names, output, Null, Converted(names, d, Null));
    RootMeansTheSame(unquote, document, e, d, names, bundler.defs, properties, converted, required);
    return Some(output), converted, names, e;
  }

  lemma NothingToConvert(d: Dialect)
    ensures ConvRefs(d, Null) == {}
  {
  }

  lemma StandsAlone(unquote: Unquote, document: Json, e: map<Pointer, nat>, d: Dialect, names: Names, output: Json,
                    s: Json, c: Json)
    requires MeansTheSame(unquote, document, e, d, names, output, s, c)
    ensures Standing(unquote, document, e, d, names, output)
  {
  }

  lemma FromChecks(unquote: Unquote, document: Json, d: Dialect, names: Names, defs: Fields)
    requires IsChecked(unquote, document) && Consistent(unquote, document, d, names, [], defs, {})
    ensures Resolvable(unquote, document) && Injective(names)
  {
  }

  lemma CheckedIsResolvable(unquote: Unquote, document: Json)
    requires IsChecked(unquote, document)
    ensures Resolvable(unquote, document)
  {
  }

  lemma SamePerProperty(unquote: Unquote, document: Json, e: map<Pointer, nat>, d: Dialect,
                        names: Names, defs: Fields, root: Json, s: Json)
    requires forall s: string :: '%' !in s ==> unquote(s) == s
    requires IsChecked(unquote, document) && IsExpansion(EdgesOf(unquote, document), e)
    requires Consistent(unquote, document, d, names, [], defs, {})
    requires root.Obj? && DefsIsKeyword(root.fields)
    requires ConvRefs(d, s) <= names.Keys
    ensures MeansTheSame(unquote, document, e, d, names, Output(root, defs), s, Converted(names, d, s))
  {
    hide Valid, Converted, ConvRefs, Sites, Output, Rank, IsExpansion, Resolve, BundleOf, SourceScope, WellRanked,
      Consistent, IsChecked, Resolvable, Closed, Injective, EdgesOf, DefsIsKeyword;
    FromChecks(unquote, document, d, names, defs);
    var src := SourceScope(unquote, document, e);
    var any: Assertions := (k, x, y) => true;
    SameMeaning(any, unquote, document, e, d, names, defs, root, s, Null);
    forall a: Assertions, v: Json
      ensures Valid(a, src, d, s, v) <==> Valid(a, BundleOf(names, d, src), V31, Converted(names, d, s), v)
    {
      SameMeaning(a, unquote, document, e, d, names, defs, root, s, v);
    }
  }
}
