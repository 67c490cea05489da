/** `SchemaBundler`: converts schemas for one tool root and bundles what they reference. */
module Bundling {
  import opened JsonValues
  import opened Schemas
  import opened SchemaConvert
  import opened RefCheck
  import opened Traversal
  import opened CheckedScope
  import opened DefNames
  import opened BundledScope

  // ------------------------------------------------------------ names only grow

  ghost predicate Grown(before: Names, after: Names, added: set<string>) {
    && after.Keys == before.Keys + added
    && forall ref :: ref in before ==> after[ref] == before[ref]
  }

  /** Once its refs have names, what a schema converts to never changes. */
  lemma {:induction false} ConvertedStable(before: Names, after: Names, d: Dialect, s: Json)
    requires before.Keys <= after.Keys && forall ref :: ref in before ==> after[ref] == before[ref]
    requires ConvRefs(d, s) <= before.Keys
    ensures Converted(after, d, s) == Converted(before, d, s)
    decreases s, 2
  {
    hide Get, ConvertFields, Dialect30;
    if s.Obj? && (d.V31? || RefOf(s).None?) {
      FieldsStable(before, after, d, s, Entries(s), RefOf(s).Some?);
    }
  }

  lemma {:induction false} FieldsStable(before: Names, after: Names, d: Dialect, s: Json, fields: Fields, skipRef: bool)
    requires before.Keys <= after.Keys && forall ref :: ref in before ==> after[ref] == before[ref]
    requires Within(s, fields)
    requires forall i :: 0 <= i < |fields| && !Dropped(fields[i].0) ==>
               ValueRefs(d, fields[i].0, fields[i].1) <= before.Keys
    ensures ConvertFields(after, d, s, fields, skipRef) == ConvertFields(before, d, s, fields, skipRef)
    decreases s, 1, |fields|
  {
    hide ConvertValue, ValueRefs;
    if |fields| > 0 {
      if !Dropped(fields[0].0) {
        ValueStable(before, after, d, s, fields[0].0, fields[0].1);
      }
      FieldsStable(before, after, d, s, fields[1..], skipRef);
    }
  }

  lemma {:induction false} ValueStable(before: Names, after: Names, d: Dialect, s: Json, key: Key, value: Json)
    requires before.Keys <= after.Keys && forall ref :: ref in before ==> after[ref] == before[ref]
    requires value < s && ValueRefs(d, key, value) <= before.Keys
    ensures ConvertValue(after, d, key, value) == ConvertValue(before, d, key, value)
    decreases s, 0
  {
    hide Converted, ConvRefs;
    if key in ONE_SCHEMA {
      ConvertedStable(before, after, d, value);
    } else if key in SCHEMA_MAPS && value.Obj? {
      var entries := Entries(value);
      forall i | 0 <= i < |entries|
        ensures Converted(after, d, entries[i].1) == Converted(before, d, entries[i].1)
      {
        ConvertedStable(before, after, d, entries[i].1);
      }
      assert ConvertMap(after, d, value) == ConvertMap(before, d, value);
    } else if key in SCHEMA_LISTS && value.Arr? {
      forall i | 0 <= i < |value.items|
        ensures Converted(after, d, value.items[i]) == Converted(before, d, value.items[i])
      {
        ConvertedStable(before, after, d, value.items[i]);
      }
      assert ConvertList(after, d, value.items) == ConvertList(before, d, value.items);
    }
  }

  // ------------------------------------------------------------ what the worklist keeps

  /** The schema a named ref stands for has been converted and stored under that name. */
  ghost predicate IsDone(unquote: Unquote, document: Json, d: Dialect, names: Names, defs: Fields, ref: string) {
    && ref in names && Leads(unquote, document, ref)
    && ConvRefs(d, Resolve(unquote, document, ref).value) <= names.Keys
    && Get(defs, Name(names[ref])) == Some(Converted(names, d, Resolve(unquote, document, ref).value))
  }

  /** Names are distinct and safe, and every named ref is stored, on the list, or (`busy`)
      taken off it and being converted. */
  ghost predicate Consistent(unquote: Unquote, document: Json, d: Dialect, names: Names,
                             pending: seq<(string, string)>, defs: Fields, busy: set<string>) {
    && Resolvable(unquote, document)
    && Injective(names)
    && AllNames(defs) && DefsNamed(names, defs)
    && (forall ref :: ref in names ==> ref in Sites(document) && IsSafeName(names[ref]))
    && (forall i :: 0 <= i < |pending| ==> pending[i].1 in names && names[pending[i].1] == pending[i].0)
    && (forall ref :: ref in names ==>
          || (names[ref], ref) in pending
          || ref in busy
          || IsDone(unquote, document, d, names, defs, ref))
  }

  ghost predicate AllNames(defs: Fields) {
    forall i :: 0 <= i < |defs| ==> defs[i].0.Name?
  }

  ghost predicate NamesDef(names: Names, key: Key) {
    exists ref :: ref in names && key == Name(names[ref])
  }

  /** Every definition is there for some ref, and none twice. */
  ghost predicate DefsNamed(names: Names, defs: Fields) {
    && (forall i :: 0 <= i < |defs| ==> NamesDef(names, defs[i].0))
    && (forall i, j :: 0 <= i < j < |defs| ==> defs[i].0 != defs[j].0)
  }

  lemma DefsNamedMore(names: Names, after: Names, defs: Fields)
    requires DefsNamed(names, defs) && forall ref :: ref in names ==> ref in after && after[ref] == names[ref]
    ensures DefsNamed(after, defs)
  {
    forall i | 0 <= i < |defs|
      ensures NamesDef(after, defs[i].0)
    {
      assert NamesDef(names, defs[i].0);
      var ref :| ref in names && defs[i].0 == Name(names[ref]);
      assert after[ref] == names[ref];
    }
  }

  lemma {:induction false} PutEntries(defs: Fields, key: Key, value: Json)
    requires forall i, j :: 0 <= i < j < |defs| ==> defs[i].0 != defs[j].0
    ensures forall f :: f in Put(defs, key, value) ==> f.0 == key || f in defs
    ensures forall i, j :: 0 <= i < j < |Put(defs, key, value)| ==>
            Put(defs, key, value)[i].0 != Put(defs, key, value)[j].0
    decreases |defs|
  {
    hide Get;
    if |defs| > 0 && defs[0].0 != key {
      PutEntries(defs[1..], key, value);
      var rest := Put(defs[1..], key, value);
      assert forall j :: 0 <= j < |rest| ==> rest[j] in rest;
      assert forall f :: f in defs[1..] ==> f.0 != defs[0].0;
    }
  }

  lemma DefsNamedPut(names: Names, defs: Fields, ref: string, value: Json)
    requires DefsNamed(names, defs) && ref in names
    ensures DefsNamed(names, Put(defs, Name(names[ref]), value))
  {
    hide Put;
    PutEntries(defs, Name(names[ref]), value);
    var more := Put(defs, Name(names[ref]), value);
    forall i | 0 <= i < |more|
      ensures NamesDef(names, more[i].0)
    {
      assert more[i] in more;
      if more[i] in defs {
        var k :| 0 <= k < |defs| && defs[k] == more[i];
      } else {
        assert more[i].0 == Name(names[ref]);
      }
    }
  }

  lemma NameAdded(unquote: Unquote, document: Json, d: Dialect, names: Names,
                  pending: seq<(string, string)>, defs: Fields, busy: set<string>, ref: string, name: string)
    requires Consistent(unquote, document, d, names, pending, defs, busy)
    requires ref !in names && ref in Sites(document) && IsSafeName(name) && name !in names.Values
    ensures Consistent(unquote, document, d, names[ref := name], pending + [(name, ref)], defs, busy)
  {
    hide Get, Sites, Converted, ConvRefs, Resolve, AllNames, DefsNamed;
    var after, longer := names[ref := name], pending + [(name, ref)];
    DefsNamedMore(names, after, defs);
    forall r | r in names
      ensures (after[r], r) in longer || r in busy || IsDone(unquote, document, d, after, defs, r)
    {
      if (names[r], r) in pending {
        assert (after[r], r) in longer;
      } else if r !in busy {
        ConvertedStable(names, after, d, Resolve(unquote, document, r).value);
      }
    }
    assert longer[|pending|] == (name, ref);
  }

  lemma {:induction false} PutKeepsNames(defs: Fields, name: string, value: Json)
    requires AllNames(defs)
    ensures AllNames(Put(defs, Name(name), value))
    decreases |defs|
  {
    if |defs| > 0 {
      PutKeepsNames(defs[1..], name, value);
    }
  }

  lemma DefStored(unquote: Unquote, document: Json, d: Dialect, names: Names,
                  pending: seq<(string, string)>, defs: Fields, busy: set<string>, ref: string)
    requires Consistent(unquote, document, d, names, pending, defs, busy)
    requires ref in names && Leads(unquote, document, ref)
    requires ConvRefs(d, Resolve(unquote, document, ref).value) <= names.Keys
    ensures var c := Converted(names, d, Resolve(unquote, document, ref).value);
            Consistent(unquote, document, d, names, pending, Put(defs, Name(names[ref]), c), busy - {ref})
  {
    hide Get, Put, Sites, Converted, ConvRefs, Resolve, AllNames, IsSafeName, DefsNamed;
    var c := Converted(names, d, Resolve(unquote, document, ref).value);
    var stored := Put(defs, Name(names[ref]), c);
    PutKeepsNames(defs, names[ref], c);
    DefsNamedPut(names, defs, ref, c);
    forall r | r in names
      ensures (names[r], r) in pending || r in busy - {ref} || IsDone(unquote, document, d, names, stored, r)
    {
      assert Get(stored, Name(names[r])) == if r == ref then Some(c) else Get(defs, Name(names[r]));
    }
  }

  lemma PendingTaken(unquote: Unquote, document: Json, d: Dialect, names: Names,
                     pending: seq<(string, string)>, defs: Fields, busy: set<string>)
    requires Consistent(unquote, document, d, names, pending, defs, busy) && |pending| > 0
    ensures var (name, ref) := pending[|pending| - 1];
            && ref in names && names[ref] == name && ref in Sites(document) && Leads(unquote, document, ref)
            && Consistent(unquote, document, d, names, pending[..|pending| - 1], defs, busy + {ref})
  {
    hide Get, Converted, ConvRefs, Resolve, AllNames, IsSafeName, DefsNamed;
    var last := |pending| - 1;
    var ref := pending[last].1;
    assert pending == pending[..last] + [pending[last]];
    var i :| 0 <= i < |Sites(document)| && Sites(document)[i] == ref;
    assert Leads(unquote, document, Sites(document)[i]);
    forall r | r in names
      ensures (names[r], r) in pending[..last] || r in busy + {ref} || IsDone(unquote, document, d, names, defs, r)
    {
      if (names[r], r) in pending && r != ref {
        assert (names[r], r) != pending[last];
      }
    }
  }

  // ------------------------------------------------------------ prefixes of a conversion

  ghost function PrefixRefs(d: Dialect, fields: Fields, n: nat): set<string>
    requires n <= |fields|
  {
    set i, ref | 0 <= i < n && !Dropped(fields[i].0) && ref in ValueRefs(d, fields[i].0, fields[i].1) :: ref
  }

  /** What one keyword adds to the output. */
  function OneConverted(names: Names, d: Dialect, field: (Key, Json), skipRef: bool): Fields {
    if Dropped(field.0) || (skipRef && field.0 == KRef) then []
    else [(field.0, ConvertValue(names, d, field.0, field.1))]
  }

  lemma ConvertFieldsCons(names: Names, d: Dialect, s: Json, fields: Fields, skipRef: bool)
    requires Within(s, fields) && |fields| > 0
    ensures Within(s, fields[1..])
    ensures ConvertFields(names, d, s, fields, skipRef) ==
            OneConverted(names, d, fields[0], skipRef) + ConvertFields(names, d, s, fields[1..], skipRef)
  {
    hide ConvertValue, Dropped;
  }

  lemma {:induction false} ConvertFieldsAppend(names: Names, d: Dialect, s: Json, fields: Fields, last: (Key, Json),
                                               skipRef: bool)
    requires Within(s, fields + [last])
    ensures Within(s, fields)
    ensures ConvertFields(names, d, s, fields + [last], skipRef) ==
            ConvertFields(names, d, s, fields, skipRef) + OneConverted(names, d, last, skipRef)
    decreases |fields|
  {
    hide ConvertFields, OneConverted, Within;
    var all := fields + [last];
    WithinPrefix(s, fields, last);
    ConvertFieldsCons(names, d, s, all, skipRef);
    if |fields| == 0 {
      assert all[1..] == [] && fields == [];
      NoFields(names, d, s, skipRef);
    } else {
      assert all[1..] == fields[1..] + [last];
      ConvertFieldsCons(names, d, s, fields, skipRef);
      ConvertFieldsAppend(names, d, s, fields[1..], last, skipRef);
    }
  }

  lemma WithinPrefix(s: Json, fields: Fields, last: (Key, Json))
    requires Within(s, fields + [last])
    ensures Within(s, fields)
  {
    assert forall i :: 0 <= i < |fields| ==> (fields + [last])[i] == fields[i];
  }

  // ------------------------------------------------------------ the bundler

  class SchemaBundler {
    const unquote: Unquote
    const document: Json
    const dialect: Dialect
    var names: Names
    var pending: seq<(string, string)>
    var defs: Fields
    ghost var busy: set<string>

    ghost predicate Valid()
      reads this
    {
      Consistent(unquote, document, dialect, names, pending, defs, busy)
    }

    constructor (unquote: Unquote, document: Json, dialect: Dialect)
      requires Resolvable(unquote, document)
      ensures Valid() && this.unquote == unquote && this.document == document && this.dialect == dialect
      ensures names == map[] && pending == [] && defs == [] && busy == {}
    {
      this.unquote, this.document, this.dialect := unquote, document, dialect;
      names, pending, defs, busy := map[], [], [], {};
    }

    /** The name of a ref: the one it has, or a new one no other ref has. */
    method DefName(ref: string) returns (name: string)
      requires Valid() && ref in Sites(document)
      modifies this`names, this`pending
      ensures Valid()
      ensures Grown(old(names), names, {ref}) && name == names[ref]
      ensures ref in old(names) ==> pending == old(pending)
      ensures ref !in old(names) ==> name !in old(names).Values && pending == old(pending) + [(name, ref)]
    {
      hide Consistent, Sites, BaseName, Candidate;
      if ref in names {
        return names[ref];
      }
      var base := BaseName(ref);
      var n: nat := 1;
      name := Candidate(base, n);
      ghost var untried := names.Values;
      while name in names.Values
        invariant 1 <= n && name == Candidate(base, n)
        invariant untried <= names.Values
        invariant forall m :: n <= m && Candidate(base, m) in names.Values ==> Candidate(base, m) in untried
        decreases untried
      {
        untried := untried - {name};
        forall m | n + 1 <= m && Candidate(base, m) in names.Values
          ensures Candidate(base, m) in untried
        {
          CandidatesDiffer(base, n, m);
        }
        n := n + 1;
        name := Candidate(base, n);
      }
      NameAdded(unquote, document, dialect, names, pending, defs, busy, ref, name);
      names := names[ref := name];
      pending := pending + [(name, ref)];
    }

    /** The schema rewritten, with every ref in it named. */
    method Convert(s: Json) returns (r: Json)
      requires Valid() && forall ref :: ref in ConvRefs(dialect, s) ==> ref in Sites(document)
      modifies this`names, this`pending
      ensures Valid() && Grown(old(names), names, ConvRefs(dialect, s))
      ensures names.Keys == old(names.Keys) ==> pending == old(pending)
      ensures r == Converted(names, dialect, s)
      decreases s, 2
    {
      hide Consistent, Sites, Written, Dialect30, FieldRefs;
      if !s.Obj? {
        NoRefs(dialect, s);
        return s;
      }
      match RefOf(s) {
        case Some(ref) =>
          var name := DefName(ref);
          var field := (KRef, Str(DefRef(name)));
          if dialect.V30? {
            return Obj([field]);
          }
          ghost var before := names;
          var out := ConvertKeywords(s, true);
          assert names[ref] == before[ref];
          r := Obj([field] + out);
        case None =>
          var out := ConvertKeywords(s, false);
          r := if dialect.V30? then Dialect30(s, out) else Obj(out);
      }
    }

    method ConvertKeywords(s: Json, skipRef: bool) returns (out: Fields)
      requires Valid() && forall ref :: ref in FieldRefs(dialect, s) ==> ref in Sites(document)
      modifies this`names, this`pending
      ensures Valid() && Grown(old(names), names, FieldRefs(dialect, s))
      ensures names.Keys == old(names.Keys) ==> pending == old(pending)
      ensures out == Written(names, dialect, s, skipRef)
      decreases s, 1
    {
      hide Consistent, Sites, ConvertValue, ValueRefs, ConvertFields, Get, Put, PrefixRefs, FieldRefs;
      out := [];
      var fields := Entries(s);
      WholePrefix(dialect, s);
      assert fields[..0] == [] && ConvertFields(names, dialect, s, [], skipRef) == [] by {
        NoFields(names, dialect, s, skipRef);
      }
      for i := 0 to |fields|
        invariant Valid() && Grown(old(names), names, PrefixRefs(dialect, fields, i))
        invariant names.Keys == old(names.Keys) ==> pending == old(pending)
        invariant out == ConvertFields(names, dialect, s, fields[..i], skipRef)
      {
        var (key, value) := fields[i];
        ghost var before := names;
        assert fields[..i + 1] == fields[..i] + [fields[i]];
        MorePrefix(dialect, fields, i);
        RefsOfField(dialect, s, i);
        if !Dropped(key) {
          var converted := ConvertOne(s, key, value);
          PrefixNamed(before, dialect, fields, i);
          FieldsStable(before, names, dialect, s, fields[..i], skipRef);
          if !(skipRef && key == KRef) {
            out := out + [(key, converted)];
          }
        }
        ConvertFieldsAppend(names, dialect, s, fields[..i], fields[i], skipRef);
      }
      assert fields[..|fields|] == fields;
      if Has(s, KExample) && Get(out, KExamples).None? {
        out := Put(out, KExamples, Arr([Member(s, KExample).value]));
      }
    }

    method ConvertOne(ghost s: Json, key: Key, value: Json) returns (r: Json)
      requires Valid() && value < s
      requires forall ref :: ref in ValueRefs(dialect, key, value) ==> ref in Sites(document)
      modifies this`names, this`pending
      ensures Valid() && Grown(old(names), names, ValueRefs(dialect, key, value))
      ensures names.Keys == old(names.Keys) ==> pending == old(pending)
      ensures r == ConvertValue(names, dialect, key, value)
      decreases s, 0
    {
      hide Consistent, Sites, Converted, ConvRefs, ListPrefix;
      if key in ONE_SCHEMA {
        r := Convert(value);
      } else if key in SCHEMA_MAPS && value.Obj? {
        MapValueRefs(dialect, key, value);
        var values := Children(value);
        var out := ConvertAll(value, values);
        var fields := seq(|values|, i requires 0 <= i < |values| => (value.fields[i].0, out[i]));
        assert forall i :: 0 <= i < |values| ==> values[i] == Entries(value)[i].1;
        assert fields == ConvertMap(names, dialect, value);
        r := Obj(fields);
      } else if key in SCHEMA_LISTS && value.Arr? {
        ListValueRefs(dialect, key, value);
        var out := ConvertAll(value, value.items);
        assert out == ConvertList(names, dialect, value.items);
        r := Arr(out);
      } else {
        r := value;
      }
    }

    method ConvertAll(ghost s: Json, xs: seq<Json>) returns (out: seq<Json>)
      requires Valid() && forall i :: 0 <= i < |xs| ==> xs[i] < s
      requires forall ref :: ref in ListPrefix(dialect, xs, |xs|) ==> ref in Sites(document)
      modifies this`names, this`pending
      ensures Valid() && Grown(old(names), names, ListPrefix(dialect, xs, |xs|))
      ensures names.Keys == old(names.Keys) ==> pending == old(pending)
      ensures |out| == |xs| && forall i :: 0 <= i < |xs| ==> out[i] == Converted(names, dialect, xs[i])
      decreases s, 0
    {
      hide Consistent, Sites, Converted, ConvRefs, ListPrefix;
      out := [];
      ListPrefixBounds(dialect, xs, 0);
      for i := 0 to |xs|
        invariant Valid() && |out| == i
        invariant Grown(old(names), names, ListPrefix(dialect, xs, i))
        invariant names.Keys == old(names.Keys) ==> pending == old(pending)
        invariant forall j :: 0 <= j < i ==> out[j] == Converted(names, dialect, xs[j])
      {
        ghost var before := names;
        ListPrefixBounds(dialect, xs, i);
        ListPrefixBounds(dialect, xs, i + 1);
        ListPrefixBounds(dialect, xs, |xs|);
        var converted := Convert(xs[i]);
        forall j | 0 <= j < i
          ensures Converted(names, dialect, xs[j]) == Converted(before, dialect, xs[j])
        {
          ConvertedStable(before, names, dialect, xs[j]);
        }
        out := out + [converted];
      }
    }

    /** `root` with everything its parts refer to bundled under `$defs`. Converting one
        schema can name more refs; the list still empties, because a document holds
        finitely many. */
    method Finish(root: Json) returns (out: Json)
      requires Valid() && busy == {} && root.Obj?
      modifies this
      ensures Valid() && busy == {} && pending == []
      ensures old(names).Keys <= names.Keys && forall ref :: ref in old(names) ==> names[ref] == old(names)[ref]
      ensures forall ref :: ref in names ==> IsDone(unquote, document, dialect, names, defs, ref)
      ensures out == if defs == [] then root else Obj(Put(root.fields, KDefs, Obj(defs)))
    {
      hide Sites, Converted, ConvRefs, Get, Put, Resolve, Consistent, IsDone;
      ghost var all := set ref | ref in Sites(document);
      while |pending| > 0
        invariant Valid() && busy == {}
        invariant old(names).Keys <= names.Keys && forall ref :: ref in old(names) ==> names[ref] == old(names)[ref]
        decreases all - names.Keys, |pending|
      {
        var (name, ref) := pending[|pending| - 1];
        PendingTaken(unquote, document, dialect, names, pending, defs, busy);
        pending, busy := pending[..|pending| - 1], busy + {ref};
        var target := Resolve(unquote, document, ref).value;
        forall r | r in ConvRefs(dialect, target)
          ensures r in Sites(document)
        {
          ConvRefsAreSites(dialect, target, r);
          TargetSites(unquote, document, ref, r);
        }
        var converted := Convert(target);
        NamesAreSites(unquote, document, dialect, names, pending, defs, busy);
        DefStored(unquote, document, dialect, names, pending, defs, busy, ref);
        defs := Put(defs, Name(name), converted);
        busy := busy - {ref};
      }
      AllDone(unquote, document, dialect, names, defs);
      out := if |defs| > 0 then Obj(Put(root.fields, KDefs, Obj(defs))) else root;
    }
  }

  lemma NoRefs(d: Dialect, s: Json)
    requires !s.Obj?
    ensures ConvRefs(d, s) == {}
  {
  }

  lemma NamesAreSites(unquote: Unquote, document: Json, d: Dialect, names: Names,
                      pending: seq<(string, string)>, defs: Fields, busy: set<string>)
    requires Consistent(unquote, document, d, names, pending, defs, busy)
    ensures names.Keys <= set ref | ref in Sites(document)
  {
  }

  lemma AllDone(unquote: Unquote, document: Json, d: Dialect, names: Names, defs: Fields)
    requires Consistent(unquote, document, d, names, [], defs, {})
    ensures forall ref :: ref in names ==> IsDone(unquote, document, d, names, defs, ref)
  {
    hide IsDone;
  }

  /** The refs of the first `n` schemas of a list. */
  ghost function ListPrefix(d: Dialect, xs: seq<Json>, n: nat): set<string>
    requires n <= |xs|
  {
    set i, ref | 0 <= i < n && ref in ConvRefs(d, xs[i]) :: ref
  }

  lemma ListPrefixBounds(d: Dialect, xs: seq<Json>, n: nat)
    requires n <= |xs|
    ensures n == 0 ==> ListPrefix(d, xs, n) == {}
    ensures n > 0 ==> ListPrefix(d, xs, n) == ListPrefix(d, xs, n - 1) + ConvRefs(d, xs[n - 1])
    ensures forall i :: 0 <= i < n ==> ConvRefs(d, xs[i]) <= ListPrefix(d, xs, n)
  {
    hide ConvRefs;
  }

  lemma ListValueRefs(d: Dialect, key: Key, value: Json)
    requires key in SCHEMA_LISTS && value.Arr?
    ensures ValueRefs(d, key, value) == ListPrefix(d, value.items, |value.items|)
  {
    hide ConvRefs;
  }

  lemma MapValueRefs(d: Dialect, key: Key, value: Json)
    requires key in SCHEMA_MAPS && value.Obj?
    ensures ValueRefs(d, key, value) == ListPrefix(d, Children(value), |Children(value)|)
  {
    hide ConvRefs;
    var xs, fields := Children(value), Entries(value);
    assert forall i :: 0 <= i < |xs| ==> xs[i] == fields[i].1;
    forall ref | ref in ValueRefs(d, key, value)
      ensures ref in ListPrefix(d, xs, |xs|)
    {
      var i :| 0 <= i < |fields| && ref in ConvRefs(d, fields[i].1);
      assert ref in ConvRefs(d, xs[i]);
    }
    forall ref | ref in ListPrefix(d, xs, |xs|)
      ensures ref in ValueRefs(d, key, value)
    {
      var i :| 0 <= i < |xs| && ref in ConvRefs(d, xs[i]);
      assert ref in ConvRefs(d, fields[i].1);
    }
  }

  lemma NoFields(names: Names, d: Dialect, s: Json, skipRef: bool)
    ensures ConvertFields(names, d, s, [], skipRef) == []
  {
  }

  lemma WholePrefix(d: Dialect, s: Json)
    ensures PrefixRefs(d, Entries(s), 0) == {} && PrefixRefs(d, Entries(s), |Entries(s)|) == FieldRefs(d, s)
  {
    hide ValueRefs;
  }

  lemma RefsOfField(d: Dialect, s: Json, i: nat)
    requires i < |Entries(s)|
    ensures !Dropped(Entries(s)[i].0) ==> ValueRefs(d, Entries(s)[i].0, Entries(s)[i].1) <= FieldRefs(d, s)
  {
    hide ValueRefs;
  }

  lemma PrefixNamed(names: Names, d: Dialect, fields: Fields, n: nat)
    requires n <= |fields| && PrefixRefs(d, fields, n) <= names.Keys
    ensures forall i :: 0 <= i < n && !Dropped(fields[..n][i].0) ==>
              ValueRefs(d, fields[..n][i].0, fields[..n][i].1) <= names.Keys
  {
    hide ValueRefs, Dropped;
    forall i | 0 <= i < n && !Dropped(fields[i].0)
      ensures ValueRefs(d, fields[i].0, fields[i].1) <= PrefixRefs(d, fields, n)
    {
      forall ref | ref in ValueRefs(d, fields[i].0, fields[i].1)
        ensures ref in PrefixRefs(d, fields, n)
      {
      }
    }
    assert forall i :: 0 <= i < n ==> fields[..n][i] == fields[i];
  }

  lemma MorePrefix(d: Dialect, fields: Fields, i: nat)
    requires i < |fields|
    ensures PrefixRefs(d, fields, i + 1) ==
            PrefixRefs(d, fields, i) + (if Dropped(fields[i].0) then {} else ValueRefs(d, fields[i].0, fields[i].1))
  {
    hide ValueRefs;
  }
}
