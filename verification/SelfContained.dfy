/** The finished tool schema stands alone: its refs all lead into its own `$defs`, and it
    accepts exactly the instances the document's schema accepts. */
module SelfContained {
  import opened JsonValues
  import opened Schemas
  import opened SchemaConvert
  import opened SchemaPreserved
  import opened RefGraph
  import opened RefCheck
  import opened CheckedScope
  import opened DefNames
  import opened BundledScope
  import opened Bundling

  // ------------------------------------------------------------ no ref is left behind

  /** What the given refs are rewritten to. */
  ghost function Rewritten(names: Names, refs: set<string>): set<string> {
    set ref | ref in refs && ref in names :: DefRef(names[ref])
  }

  /** The refs in schema positions of these fields are all among `allowed`. */
  ghost predicate RefsIn(fields: Fields, allowed: set<string>) {
    forall i :: 0 <= i < |fields| ==> ValueRefs(V31, fields[i].0, fields[i].1) <= allowed
  }

  lemma RefsInObject(fields: Fields, allowed: set<string>)
    requires RefsIn(fields, allowed)
    ensures FieldRefs(V31, Obj(fields)) <= allowed
  {
    hide ValueRefs;
  }

  lemma {:induction false} RefsInPop(fields: Fields, key: Key, allowed: set<string>)
    requires RefsIn(fields, allowed)
    ensures RefsIn(Pop(fields, key), allowed)
    decreases |fields|
  {
    hide ValueRefs;
    if |fields| > 0 {
      RefsInPop(fields[1..], key, allowed);
    }
  }

  lemma {:induction false} RefsInPut(fields: Fields, key: Key, value: Json, allowed: set<string>)
    requires RefsIn(fields, allowed) && ValueRefs(V31, key, value) <= allowed
    ensures RefsIn(Put(fields, key, value), allowed)
    decreases |fields|
  {
    hide ValueRefs;
    if |fields| > 0 {
      RefsInPut(fields[1..], key, value, allowed);
    }
  }

  lemma PlainHoldsNoRefs(key: Key, value: Json)
    requires Plain(key)
    ensures ValueRefs(V31, key, value) == {}
  {
  }

  lemma ExclusiveRefs(s: Json, out: Fields, exclusive: Key, bound: Key, allowed: set<string>)
    requires RefsIn(out, allowed) && Plain(exclusive)
    ensures RefsIn(Exclusive30(s, out, exclusive, bound), allowed)
  {
    hide ValueRefs, RefsIn, Pop, Put;
    match Member(s, exclusive)
    case Some(Bool(b)) =>
      RefsInPop(out, exclusive, allowed);
      if b && Has(s, bound) {
        var value := Member(s, bound).value;
        PlainHoldsNoRefs(exclusive, value);
        RefsInPut(Pop(out, exclusive), exclusive, value, allowed);
        RefsInPop(Put(Pop(out, exclusive), exclusive, value), bound, allowed);
      }
    case _ =>
  }

  /** The 3.0 rewriting puts no ref in a schema position. */
  lemma Dialect30Refs(s: Json, out: Fields, allowed: set<string>)
    requires RefsIn(out, allowed) && Get(out, KRef) == Member(s, KRef) && RefOf(s).None?
    ensures ConvRefs(V31, Dialect30(s, out)) <= allowed
  {
    hide ValueRefs, RefsIn, Exclusive30, Put, ConvRefs, Get;
    ExclusiveRefs(s, out, KExclusiveMinimum, KMinimum, allowed);
    ExclusiveRefs(s, Exclusive30(s, out, KExclusiveMinimum, KMinimum), KExclusiveMaximum, KMaximum, allowed);
    BoundedRef(s, out);
    NullableRefs(s, Bounds30(s, out), allowed);
  }

  lemma BoundedRef(s: Json, out: Fields)
    ensures Get(Bounds30(s, out), KRef) == Get(out, KRef)
  {
    hide Get, Exclusive30;
    ExclusiveLookup(s, out, KExclusiveMinimum, KMinimum);
    ExclusiveLookup(s, Exclusive30(s, out, KExclusiveMinimum, KMinimum), KExclusiveMaximum, KMaximum);
  }

  lemma NullableRefs(s: Json, out: Fields, allowed: set<string>)
    requires RefsIn(out, allowed) && RefOf(Obj(out)).None?
    ensures ConvRefs(V31, Nullable30(s, out)) <= allowed
  {
    hide ValueRefs, RefsIn, Put, Get, FieldRefs;
    RefsInObject(out, allowed);
    if IsTrue(Member(s, KNullable)) {
      match Get(out, KType)
      case Some(Str(kind)) =>
        var types := Arr([Str(kind), Str("null")]);
        PlainHoldsNoRefs(KType, types);
        RefsInPut(out, KType, types, allowed);
        var typed := Put(out, KType, types);
        RefsInObject(typed, allowed);
        match Get(typed, KEnum) {
          case Some(Arr(values)) =>
            PlainHoldsNoRefs(KEnum, Arr(values + [Null]));
            RefsInPut(typed, KEnum, Arr(values + [Null]), allowed);
            RefsInObject(Put(typed, KEnum, Arr(values + [Null])), allowed);
          case _ =>
        }
      case None => OrNullRefs(out, allowed);
      case Some(Null) => OrNullRefs(out, allowed);
      case _ =>
    }
  }

  lemma OrNullRefs(out: Fields, allowed: set<string>)
    requires FieldRefs(V31, Obj(out)) <= allowed && RefOf(Obj(out)).None?
    ensures ConvRefs(V31, OrNull(out)) <= allowed
  {
    var any := [Obj(out), NULL_SCHEMA];
    var f := (KAnyOf, Arr(any));
    Prefixed(f, []);
    assert [f] + [] == [f];
    NullSchemaRefs();
    assert forall i :: 0 <= i < |any| ==> ConvRefs(V31, any[i]) <= allowed;
    AnyOfRefs(any, allowed);
    RefsInObject([f], allowed);
  }

  lemma AnyOfRefs(any: seq<Json>, allowed: set<string>)
    requires forall i :: 0 <= i < |any| ==> ConvRefs(V31, any[i]) <= allowed
    ensures RefsIn([(KAnyOf, Arr(any))], allowed)
  {
    hide ConvRefs;
  }

  lemma NullSchemaRefs()
    ensures ConvRefs(V31, NULL_SCHEMA) == {}
  {
    var f := (KType, Str("null"));
    Prefixed(f, []);
    assert [f] + [] == [f];
    PlainHoldsNoRefs(KType, Str("null"));
    RefsInObject([f], {});
  }

  /** Every ref in a schema position of the output is the new form of one that was there. */
  lemma {:induction false} ConvertedRefs(names: Names, d: Dialect, s: Json)
    ensures ConvRefs(d, s) <= names.Keys ==>
              ConvRefs(V31, Converted(names, d, s)) <= Rewritten(names, ConvRefs(d, s))
    decreases s, 2
  {
    hide Get, Written, Dialect30, FieldRefs, RefsIn, LocalOk, Mirrors;
    if ConvRefs(d, s) <= names.Keys {
      if !s.Obj? {
        NoRefs(V31, s);
      } else if RefOf(s).Some? && d.V30? {
        var field := (KRef, Str(DefRef(NameOf(names, RefOf(s).value))));
        Prefixed(field, []);
        assert [field] + [] == [field];
        PlainHoldsNoRefs(KRef, field.1);
        OneField(field, {});
      } else {
        var allowed := Rewritten(names, ConvRefs(d, s));
        WrittenRefs(names, d, s, RefOf(s).Some?, allowed);
        var out := Written(names, d, s, RefOf(s).Some?);
        if d.V30? {
          PlainRef(names, d, s);
          Dialect30Refs(s, out, allowed);
        } else {
          Converted31((_, _, _) => true, names, s, Null);
          if RefOf(s).Some? {
            var field := (KRef, Str(DefRef(NameOf(names, RefOf(s).value))));
            PlainHoldsNoRefs(KRef, field.1);
            Prepend(field, out, allowed);
            RefsInObject([field] + out, allowed);
          } else {
            RefsInObject(out, allowed);
          }
        }
      }
    }
  }

  lemma OneField(field: (Key, Json), allowed: set<string>)
    requires ValueRefs(V31, field.0, field.1) <= allowed
    ensures FieldRefs(V31, Obj([field])) <= allowed
  {
    hide ValueRefs;
    RefsInObject([field], allowed);
  }

  lemma Prepend(field: (Key, Json), out: Fields, allowed: set<string>)
    requires ValueRefs(V31, field.0, field.1) <= allowed && RefsIn(out, allowed)
    ensures RefsIn([field] + out, allowed)
  {
    hide ValueRefs;
  }

  lemma {:induction false} WrittenRefs(names: Names, d: Dialect, s: Json, skipRef: bool, allowed: set<string>)
    requires s.Obj? && FieldRefs(d, s) <= names.Keys && Rewritten(names, FieldRefs(d, s)) <= allowed
    ensures RefsIn(Written(names, d, s, skipRef), allowed)
    decreases s, 1
  {
    hide Get, RefsIn, ConvertFields, Put, ValueRefs;
    var fields := Entries(s);
    assert forall i :: 0 <= i < |fields| && !Dropped(fields[i].0) ==>
        ValueRefs(d, fields[i].0, fields[i].1) <= FieldRefs(d, s);
    FieldsRefs(names, d, s, fields, skipRef, allowed);
    if Has(s, KExample) {
      var out := ConvertFields(names, d, s, fields, skipRef);
      var examples := Arr([Member(s, KExample).value]);
      PlainHoldsNoRefs(KExamples, examples);
      RefsInPut(out, KExamples, examples, allowed);
    }
  }

  lemma {:induction false} FieldsRefs(names: Names, d: Dialect, s: Json, fields: Fields, skipRef: bool,
                                      allowed: set<string>)
    requires Within(s, fields)
    requires forall i :: 0 <= i < |fields| && !Dropped(fields[i].0) ==>
               ValueRefs(d, fields[i].0, fields[i].1) <= names.Keys
               && Rewritten(names, ValueRefs(d, fields[i].0, fields[i].1)) <= allowed
    ensures RefsIn(ConvertFields(names, d, s, fields, skipRef), allowed)
    decreases s, 0, |fields|
  {
    hide ValueRefs, ConvertValue, Rewritten;
    if |fields| > 0 {
      FieldsRefs(names, d, s, fields[1..], skipRef, allowed);
      if !Dropped(fields[0].0) {
        ConvertedValueRefs(names, d, s, fields[0].0, fields[0].1);
      }
    }
  }

  lemma {:induction false} ConvertedValueRefs(names: Names, d: Dialect, s: Json, key: Key, value: Json)
    requires value < s && ValueRefs(d, key, value) <= names.Keys
    ensures ValueRefs(V31, key, ConvertValue(names, d, key, value)) <= Rewritten(names, ValueRefs(d, key, value))
    decreases s, 0, 0
  {
    hide ConvRefs, Converted;
    if key in ONE_SCHEMA {
      ConvertedRefs(names, d, value);
    } else if key in SCHEMA_MAPS && value.Obj? {
      var entries := Entries(value);
      var out := Obj(ConvertMap(names, d, value));
      forall i | 0 <= i < |entries|
        ensures ConvRefs(V31, Entries(out)[i].1) <= Rewritten(names, ValueRefs(d, key, value))
      {
        ConvertedRefs(names, d, entries[i].1);
      }
    } else if key in SCHEMA_LISTS && value.Arr? {
      forall i | 0 <= i < |value.items|
        ensures ConvRefs(V31, ConvertList(names, d, value.items)[i]) <= Rewritten(names, ValueRefs(d, key, value))
      {
        ConvertedRefs(names, d, value.items[i]);
      }
    }
  }

  // ------------------------------------------------------------ the output as a document

  /** What `Finish` returns for `root`. */
  function Output(root: Json, defs: Fields): Json
    requires root.Obj?
  {
    if defs == [] then root else Obj(Put(root.fields, KDefs, Obj(defs)))
  }

  /** Keywords are written as keywords: no other key of the root reads `$defs`. */
  ghost predicate DefsIsKeyword(fields: Fields) {
    forall i :: 0 <= i < |fields| && fields[i].0.Text() == "$defs" ==> fields[i].0 == KDefs
  }

  lemma {:induction false} DefsFound(fields: Fields, value: Json)
    requires DefsIsKeyword(fields)
    ensures GetText(Put(fields, KDefs, value), "$defs") == Some(value)
    decreases |fields|
  {
    assert KDefs.Text() == "$defs";
    if |fields| > 0 && fields[0].0 != KDefs {
      DefsFound(fields[1..], value);
      var rest := Put(fields[1..], KDefs, value);
      assert ([fields[0]] + rest)[1..] == rest;
    }
  }

  lemma {:induction false} NameFound(defs: Fields, name: string)
    requires AllNames(defs)
    ensures GetText(defs, name) == Get(defs, Name(name))
    decreases |defs|
  {
    if |defs| > 0 {
      NameFound(defs[1..], name);
    }
  }

  /** In the output, the ref given for a name resolves to the conversion of exactly the
      schema the original ref named. */
  lemma OutputResolves(unquote: Unquote, document: Json, d: Dialect, names: Names, defs: Fields, root: Json,
                       ref: string)
    requires forall s: string :: '%' !in s ==> unquote(s) == s
    requires Consistent(unquote, document, d, names, [], defs, {}) && ref in names
    requires root.Obj? && DefsIsKeyword(root.fields)
    ensures Leads(unquote, document, ref)
    ensures Resolve(unquote, Output(root, defs), DefRef(names[ref])) ==
            Some(Converted(names, d, Resolve(unquote, document, ref).value))
  {
    hide Get, Put, Converted, ConvRefs, DefRef, GetText, Sites;
    AllDone(unquote, document, d, names, defs);
    DefPointer(unquote, names[ref]);
    var out := Output(root, defs);
    NameFound(defs, names[ref]);
    assert defs != [] by { NothingIn(Name(names[ref])); }
    DefsFound(root.fields, Obj(defs));
    var parts := ["$defs", names[ref]];
    assert parts[1..] == [names[ref]] && parts[1..][1..] == [];
    var c := Converted(names, d, Resolve(unquote, document, ref).value);
    assert Step(out, parts[0]) == Some(Obj(defs));
    assert Step(Obj(defs), parts[1..][0]) == Some(c);
    assert Walk(c, []) == Some(c);
    assert Walk(Obj(defs), parts[1..]) == Some(c);
    assert Walk(out, parts) == Some(c);
  }

  lemma NothingIn(key: Key)
    ensures Get([], key).None?
  {
  }

  /** The main result. Take a document that passed the ref check, and a bundler that has
      converted `s` and finished. For every instance, `s` read in the document as its own
      dialect and its conversion read in the output as 2020-12 agree, and every ref the
      conversion uses resolves inside the output. */
  lemma SameMeaning(a: Assertions, unquote: Unquote, document: Json, e: map<Pointer, nat>, d: Dialect,
                    names: Names, defs: Fields, root: Json, s: Json, v: Json)
    requires forall s: string :: '%' !in s ==> unquote(s) == s
    requires IsChecked(unquote, document) && IsExpansion(EdgesOf(unquote, document), e)
    requires Consistent(unquote, document, d, names, [], defs, {})
    requires root.Obj? && DefsIsKeyword(root.fields)
    requires ConvRefs(d, s) <= names.Keys
    ensures var src := SourceScope(unquote, document, e);
            && WellRanked(src) && Closed(names, d, src)
            && var out := BundleOf(names, d, src);
            && WellRanked(out)
            && (Valid(a, src, d, s, v) <==> Valid(a, out, V31, Converted(names, d, s), v))
            && (forall r :: r in out.target ==>
                  Resolve(unquote, Output(root, defs), r) == Some(out.target[r]))
            && ConvRefs(V31, Converted(names, d, s)) <= out.target.Keys
            && (forall r :: r in out.target ==> ConvRefs(V31, out.target[r]) <= out.target.Keys)
  {
    hide Valid, Converted, ConvRefs, Sites, DefRef, Output, Rank, IsExpansion, IsSafeName;
    SourceWellRanked(unquote, document, e);
    var src := SourceScope(unquote, document, e);
    ClosedNames(unquote, document, e, d, names, defs);
    BundleWellRanked(names, d, src);
    var out := BundleOf(names, d, src);
    Preserved(a, names, d, src, out, s, v);
    BundleKeys(names, d, src);
    ConvertedRefs(names, d, s);
    BundleIsClosed(names, d, src);
    forall ref | ref in names
      ensures Resolve(unquote, Output(root, defs), DefRef(names[ref])) == Some(out.target[DefRef(names[ref])])
    {
      OutputResolves(unquote, document, d, names, defs, root, ref);
      BundleEntry(names, d, src, ref);
      SourceTarget(unquote, document, e, ref);
    }
  }

  /** Refs inside the bundled schemas lead to bundled schemas. */
  lemma BundleIsClosed(names: Names, d: Dialect, src: Scope)
    requires Injective(names) && Closed(names, d, src) && WellRanked(src)
    ensures var out := BundleOf(names, d, src);
            forall r :: r in out.target ==> ConvRefs(V31, out.target[r]) <= out.target.Keys
  {
    hide Converted, ConvRefs, DefRef, WellRanked, BundleOf;
    var out := BundleOf(names, d, src);
    BundleKeys(names, d, src);
    forall r | r in out.target
      ensures ConvRefs(V31, out.target[r]) <= out.target.Keys
    {
      var ref :| ref in names && DefRef(names[ref]) == r;
      BundleEntry(names, d, src, ref);
      ConvertedRefs(names, d, src.target[ref]);
    }
  }

  lemma SourceTarget(unquote: Unquote, document: Json, e: map<Pointer, nat>, ref: string)
    requires Resolvable(unquote, document) && ref in Sites(document) && Leads(unquote, document, ref)
    ensures ref in SourceScope(unquote, document, e).target
    ensures SourceScope(unquote, document, e).target[ref] == Resolve(unquote, document, ref).value
  {
    hide Sites;
  }

  lemma ClosedNames(unquote: Unquote, document: Json, e: map<Pointer, nat>, d: Dialect, names: Names, defs: Fields)
    requires Consistent(unquote, document, d, names, [], defs, {})
    ensures Closed(names, d, SourceScope(unquote, document, e))
  {
    hide Converted, ConvRefs, Sites, SourceScope;
    AllDone(unquote, document, d, names, defs);
    forall ref | ref in names
      ensures ref in SourceScope(unquote, document, e).target
      ensures ConvRefs(d, SourceScope(unquote, document, e).target[ref]) <= names.Keys
    {
      SourceTarget(unquote, document, e, ref);
    }
  }
}
