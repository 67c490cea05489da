/** What every part of a document has in common with it, and that flattening a body only ever
    hands out parts of the document. */
module DocumentParts {
  import opened JsonValues
  import opened Schemas
  import opened SchemaConvert
  import opened Traversal
  import opened RefCheck
  import opened Pointers
  import opened DefNames
  import opened CheckedScope
  import opened ValidityFacts
  import opened Flattening
  import opened OperationArguments

  // ------------------------------------------------------------ texts as keys

  /** The key a text is: the keyword it spells, or else a name. */
  function KeyOf(text: string): (k: Key)
    ensures k.Text() == text
  {
    KeyFrom(text, 0)
  }

  function KeyFrom(text: string, i: nat): (k: Key)
    requires i <= |KEYWORDS|
    ensures k.Text() == text
    decreases |KEYWORDS| - i
  {
    if i == |KEYWORDS| then Name(text)
    else if KEYWORDS[i] == text then Keyword(i)
    else KeyFrom(text, i + 1)
  }

  /** The keys are those their texts are, and all different: what a parsed object holds. */
  ghost predicate IsDict(fields: Fields) {
    && (forall i :: 0 <= i < |fields| ==> fields[i].0 == KeyOf(fields[i].0.Text()))
    && (forall i, j :: 0 <= i < j < |fields| ==> fields[i].0 != fields[j].0)
  }

  lemma DictTexts(fields: Fields)
    requires IsDict(fields)
    ensures DistinctTexts(fields)
  {
    hide KeyOf;
  }

  /** Every object in `v` is a dictionary. */
  ghost predicate AllDicts(v: Json)
    decreases v
  {
    && (v.Obj? ==> IsDict(v.fields))
    && forall i :: 0 <= i < |Children(v)| ==> AllDicts(Children(v)[i])
  }

  // ------------------------------------------------------------ parts

  /** `v` stands somewhere in `document`. */
  ghost predicate IsPart(document: Json, v: Json)
    decreases document
  {
    v == document || exists i :: 0 <= i < |Children(document)| && IsPart(Children(document)[i], v)
  }

  lemma {:induction false} ChildIsPart(document: Json, v: Json, i: nat)
    requires IsPart(document, v) && i < |Children(v)|
    ensures IsPart(document, Children(v)[i])
    decreases document
  {
    if v != document {
      var k :| 0 <= k < |Children(document)| && IsPart(Children(document)[k], v);
      ChildIsPart(Children(document)[k], v, i);
    } else {
      assert IsPart(Children(document)[i], Children(v)[i]);
    }
  }

  lemma FieldIsPart(document: Json, v: Json, i: nat)
    requires IsPart(document, v) && v.Obj? && i < |v.fields|
    ensures IsPart(document, v.fields[i].1)
  {
    hide IsPart;
    assert Children(v)[i] == v.fields[i].1;
    ChildIsPart(document, v, i);
  }

  lemma MemberIsPart(document: Json, v: Json, key: Key)
    requires IsPart(document, v) && Has(v, key)
    ensures IsPart(document, Member(v, key).value)
  {
    hide IsPart;
    var x := Member(v, key).value;
    assert (key, x) in v.fields;
    var i :| 0 <= i < |v.fields| && v.fields[i] == (key, x);
    FieldIsPart(document, v, i);
  }

  lemma ListIsPart(document: Json, v: Json, key: Key, i: nat)
    requires IsPart(document, v) && i < |ListAt(v, key)|
    ensures IsPart(document, ListAt(v, key)[i])
  {
    hide IsPart;
    MemberIsPart(document, v, key);
    var list := Member(v, key).value;
    assert Children(list)[i] == list.items[i];
    ChildIsPart(document, list, i);
  }

  lemma {:induction false} WalkIsPart(document: Json, node: Json, parts: Pointer)
    requires IsPart(document, node) && Walk(node, parts).Some?
    ensures IsPart(document, Walk(node, parts).value)
    decreases |parts|
  {
    hide IsPart;
    if |parts| > 0 {
      var next := Step(node, parts[0]).value;
      match node {
        case Obj(fields) =>
          var i :| 0 <= i < |fields| && fields[i].1 == next;
          FieldIsPart(document, node, i);
        case Arr(items) =>
          assert Children(node)[Number(parts[0])] == next;
          ChildIsPart(document, node, Number(parts[0]));
        case _ =>
      }
      WalkIsPart(document, next, parts[1..]);
    }
  }

  lemma TargetIsPart(unquote: Unquote, document: Json, ref: string)
    requires Resolve(unquote, document, ref).Some?
    ensures IsPart(document, Resolve(unquote, document, ref).value)
  {
    WalkIsPart(document, document, PointerOf(unquote, ref).value);
  }

  /** A part holds no ref the document does not hold. */
  lemma {:induction false} PartSites(document: Json, v: Json, ref: string)
    requires IsPart(document, v) && ref in Sites(v)
    ensures ref in Sites(document)
    decreases document
  {
    hide Sites;
    if v != document {
      var i :| 0 <= i < |Children(document)| && IsPart(Children(document)[i], v);
      PartSites(Children(document)[i], v, ref);
      ChildSites(document, i, ref);
    }
  }

  ghost predicate FoundIn<T>(own: Json -> seq<T>, document: Json, v: Json, x: T) {
    IsPart(document, v) && x in own(v)
  }

  /** The walk gathers what its parts hold: all of it and nothing else. */
  lemma {:induction false} GatheredIff<T>(own: Json -> seq<T>, document: Json, x: T)
    requires Descends(Children)
    ensures x in Gather(Children, own, document) <==> exists v :: FoundIn(own, document, v, x)
    decreases document
  {
    hide Children, Descends;
    var kids := Children(document);
    forall i | 0 <= i < |kids|
      ensures x in Gather(Children, own, kids[i]) <==> exists v :: FoundIn(own, kids[i], v, x)
    {
      GatheredIff(own, kids[i], x);
    }
    if x in Gather(Children, own, document) {
      if x in own(document) {
        assert FoundIn(own, document, document, x);
      } else {
        GatherSource(Children, own, document, kids, x);
        var i :| 0 <= i < |kids| && x in Gather(Children, own, kids[i]);
        var v :| FoundIn(own, kids[i], v, x);
        assert FoundIn(own, document, v, x);
      }
    }
    if v :| FoundIn(own, document, v, x) {
      if v != document {
        var i :| 0 <= i < |kids| && IsPart(kids[i], v);
        assert FoundIn(own, kids[i], v, x);
        GatherChild(Children, own, document, i, x);
      }
    }
  }

  ghost predicate RefersAt(document: Json, v: Json, ref: string) {
    IsPart(document, v) && Has(v, KRef) && Member(v, KRef).value == Str(ref)
  }

  /** The refs the check reads are the texts at `$ref`, anywhere in the document. */
  lemma SitesIff(document: Json, ref: string)
    ensures ref in Sites(document) <==> exists v :: RefersAt(document, v, ref)
  {
    hide IsPart;
    ChildrenDescend();
    GatheredIff(OwnRef, document, ref);
    if ref in Sites(document) {
      var v :| FoundIn(OwnRef, document, v, ref);
      assert RefersAt(document, v, ref);
    }
    if v :| RefersAt(document, v, ref) {
      assert FoundIn(OwnRef, document, v, ref);
    }
  }

  /** A text at `$id`, `$dynamicRef` or `$recursiveRef`. */
  ghost predicate RebasesAt(document: Json, v: Json, key: Key) {
    && IsPart(document, v) && (key == KId || key == KDynamicRef || key == KRecursiveRef)
    && Has(v, key) && Member(v, key).value.Str?
  }

  /** The check refuses a document that re-bases refs anywhere, and for that reason no other. */
  lemma NeverRebasesIff(document: Json)
    ensures NeverRebases(document) <==> !exists v, key :: RebasesAt(document, v, key)
  {
    hide IsPart;
    ChildrenDescend();
    GatheredIff(OwnRebase, document, true);
    var found := Gather(Children, OwnRebase, document);
    GatheredIff(OwnRebase, document, false);
    if found != [] {
      assert found[0] in found;
      var v :| FoundIn(OwnRebase, document, v, found[0]);
      var key :| key in {KId, KDynamicRef, KRecursiveRef} && Has(v, key) && Member(v, key).value.Str?;
      assert RebasesAt(document, v, key);
    }
    if v, key :| RebasesAt(document, v, key) {
      assert FoundIn(OwnRebase, document, v, true);
    }
  }

  ghost predicate SameInstanceAt(s: Json, x: Json) {
    || x in ListAt(s, KAllOf) || x in ListAt(s, KAnyOf) || x in ListAt(s, KOneOf)
    || (exists key :: (key == KNot || key == KIf || key == KThen || key == KElse) && Has(s, key) &&
                      x == Member(s, key).value)
  }

  /** The refs that bear on one instance: a schema's own and those of the schemas it applies to
      that instance, which stand under seven keywords. */
  lemma SameRefsIff(s: Json, ref: string)
    ensures ref in SameRefs(s) <==>
            || (Has(s, KRef) && Member(s, KRef).value == Str(ref))
            || exists x :: SameInstanceAt(s, x) && ref in SameRefs(x)
  {
    ChildrenDescend();
    hide Gather, Descends;
    SameGathered(s, ref);
    var kids := SameInstance(s);
    SameKids(s);
    if ref in SameRefs(s) && ref !in OwnRef(s) {
      var i :| 0 <= i < |kids| && ref in Gather(SameInstance, OwnRef, kids[i]);
      assert SameInstanceAt(s, kids[i]) && ref in SameRefs(kids[i]);
    }
    if x :| SameInstanceAt(s, x) && ref in SameRefs(x) {
      var i :| 0 <= i < |kids| && kids[i] == x;
      assert ref in Gather(SameInstance, OwnRef, kids[i]);
    }
  }

  lemma SameGathered(s: Json, ref: string)
    requires Descends(SameInstance)
    ensures ref in Gather(SameInstance, OwnRef, s) <==>
            || ref in OwnRef(s)
            || exists i :: 0 <= i < |SameInstance(s)| && ref in Gather(SameInstance, OwnRef, SameInstance(s)[i])
  {
    var kids := SameInstance(s);
    if ref in Gather(SameInstance, OwnRef, s) && ref !in OwnRef(s) {
      GatherSource(SameInstance, OwnRef, s, kids, ref);
    }
    if i :| 0 <= i < |kids| && ref in Gather(SameInstance, OwnRef, kids[i]) {
      GatherChild(SameInstance, OwnRef, s, i, ref);
    }
  }

  lemma SameKids(s: Json)
    ensures forall x :: x in SameInstance(s) <==> SameInstanceAt(s, x)
  {
    forall x
      ensures x in SameInstance(s) <==> SameInstanceAt(s, x)
    {
      assert x in OneAt(s, KNot) <==> Has(s, KNot) && x == Member(s, KNot).value;
      assert x in OneAt(s, KIf) <==> Has(s, KIf) && x == Member(s, KIf).value;
      assert x in OneAt(s, KThen) <==> Has(s, KThen) && x == Member(s, KThen).value;
      assert x in OneAt(s, KElse) <==> Has(s, KElse) && x == Member(s, KElse).value;
    }
  }

  // ------------------------------------------------------------ what pointers reach

  /** In a dictionary, the text of a key reaches its value. */
  lemma {:induction false} KeyReaches(fields: Fields, i: nat)
    requires DistinctTexts(fields) && i < |fields|
    ensures GetText(fields, fields[i].0.Text()) == Some(fields[i].1)
    decreases |fields|
  {
    if i > 0 {
      var rest := fields[1..];
      assert fields[0].0.Text() != fields[i].0.Text();
      assert forall k :: 0 <= k < |rest| ==> rest[k] == fields[k + 1];
      KeyReaches(rest, i - 1);
    }
  }

  /** The pointer part that reaches a child. */
  ghost predicate Reaches(v: Json, part: string, child: Json) {
    match v
    case Obj(fields) => exists i :: 0 <= i < |fields| && fields[i] == (KeyOf(part), child)
    case Arr(items) => exists i :: 0 <= i < |items| && part == Decimal(i) && items[i] == child
    case _ => false
  }

  /** A step goes to the value under that key, or to the item with that number. */
  lemma StepReaches(v: Json, part: string, child: Json)
    requires v.Obj? ==> IsDict(v.fields)
    requires Reaches(v, part, child)
    ensures Step(v, part) == Some(child)
  {
    hide KeyOf, Decimal, IsDict, DistinctTexts;
    match v
    case Obj(fields) =>
      var i :| 0 <= i < |fields| && fields[i] == (KeyOf(part), child);
      DictTexts(fields);
      KeyReaches(fields, i);
    case Arr(items) =>
      var i :| 0 <= i < |items| && part == Decimal(i) && items[i] == child;
    case _ =>
  }

  /** Every value in a document has a pointer that leads to it. With `WalkIsPart`: pointers lead
      to the parts of the document, to every one and to nothing else. */
  lemma {:induction false} EveryPartHasPointer(document: Json, v: Json) returns (parts: Pointer)
    requires AllDicts(document) && IsPart(document, v)
    ensures Walk(document, parts) == Some(v)
    decreases document
  {
    hide KeyOf, Step, IsDict;
    if v == document {
      parts := [];
    } else {
      var kids := Children(document);
      var i :| 0 <= i < |kids| && IsPart(kids[i], v);
      var part := if document.Obj? then document.fields[i].0.Text() else Decimal(i);
      ChildReached(document, i, part);
      StepReaches(document, part, kids[i]);
      var rest := EveryPartHasPointer(kids[i], v);
      parts := [part] + rest;
      assert parts[1..] == rest;
    }
  }

  /** So every part below the top can be referred to, by `#` and its pointer written out; what
      does not begin with `#/` refers to nothing. */
  lemma EveryPartHasRef(unquote: Unquote, document: Json, v: Json) returns (parts: Pointer)
    requires AllDicts(document) && IsPart(document, v) && v != document
    ensures unquote(EncodePointer(parts)) == EncodePointer(parts) ==>
              Resolve(unquote, document, "#" + EncodePointer(parts)) == Some(v)
    ensures forall ref: string :: |ref| < 2 || ref[0] != '#' || ref[1] != '/' ==>
              Resolve(unquote, document, ref) == None
  {
    hide AllDicts, IsPart, Walk, EncodePart, DecodePointer;
    parts := EveryPartHasPointer(document, v);
    assert parts != [] by { WalkNowhere(document); }
    DecodeEncode(parts);
    var ref := "#" + EncodePointer(parts);
    assert ref[1..] == EncodePointer(parts);
    assert ref[..2] == "#/" by { assert EncodePointer(parts)[0] == '/'; }
  }

  lemma WalkNowhere(document: Json)
    ensures Walk(document, []) == Some(document)
  {
  }

  lemma ChildReached(v: Json, i: nat, part: string)
    requires i < |Children(v)| && (v.Obj? ==> IsDict(v.fields))
    requires part == if v.Obj? then v.fields[i].0.Text() else Decimal(i)
    ensures Reaches(v, part, Children(v)[i])
  {
    hide KeyOf, Decimal;
    match v
    case Obj(fields) => assert fields[i].0 == KeyOf(fields[i].0.Text());
    case Arr(items) => assert items[i] == Children(v)[i];
  }

  /** The objects in a part of a document of dictionaries are dictionaries. */
  lemma {:induction false} PartDicts(document: Json, v: Json)
    requires IsPart(document, v) && AllDicts(document)
    ensures AllDicts(v)
    decreases document
  {
    hide IsDict;
    if v != document {
      var i :| 0 <= i < |Children(document)| && IsPart(Children(document)[i], v);
      PartDicts(Children(document)[i], v);
    }
  }

  // ------------------------------------------------------------ flattening hands out parts

  /** A dictionary of parts of the document. */
  ghost predicate PartsDict(document: Json, fields: Fields) {
    IsDict(fields) && forall i :: 0 <= i < |fields| ==> IsPart(document, fields[i].1)
  }

  ghost predicate TargetsAreParts(document: Json, scope: Scope) {
    forall ref :: ref in scope.target ==> IsPart(document, scope.target[ref])
  }

  lemma {:induction false} DereferencedIsPart(document: Json, scope: Scope, s: Json)
    requires WellRanked(scope) && TargetsAreParts(document, scope) && IsPart(document, s)
    ensures IsPart(document, Dereferenced(scope, s))
    decreases Rank(scope, s)
  {
    hide IsPart, WellRanked, Rank;
    if RefOf(s).Some? && RefOf(s).value in scope.target {
      TargetBelow(scope, s);
      DereferencedIsPart(document, scope, scope.target[RefOf(s).value]);
    }
  }

  lemma {:induction false} ReplaceKeys(base: Fields, more: Fields)
    ensures |Replace(base, more)| == |base|
    ensures forall i :: 0 <= i < |base| ==>
              var r := Replace(base, more)[i];
              r.0 == base[i].0 && (r == base[i] || r in more)
  {
    hide Get;
    if |base| > 0 {
      ReplaceKeys(base[1..], more);
      var (k, x) := base[0];
      if Get(more, k).Some? {
        assert (k, Get(more, k).value) in more;
      }
    }
  }

  lemma {:induction false} AddedKeys(base: Fields, more: Fields)
    requires forall i, j :: 0 <= i < j < |more| ==> more[i].0 != more[j].0
    ensures forall f :: f in Added(base, more) ==> f in more && Get(base, f.0).None?
    ensures forall i, j :: 0 <= i < j < |Added(base, more)| ==> Added(base, more)[i].0 != Added(base, more)[j].0
  {
    hide Get;
    if |more| > 0 {
      var rest := Added(base, more[1..]);
      AddedKeys(base, more[1..]);
      forall j | 0 <= j < |rest|
        ensures rest[j].0 != more[0].0
      {
        assert rest[j] in more[1..];
        var k :| 0 <= k < |more[1..]| && more[1..][k] == rest[j];
        assert more[k + 1] == rest[j];
      }
    }
  }

  ghost predicate DistinctKeys(fields: Fields) {
    forall i, j :: 0 <= i < j < |fields| ==> fields[i].0 != fields[j].0
  }

  lemma KeysApart(base: Fields, kept: Fields, added: Fields)
    requires DistinctKeys(base) && DistinctKeys(added)
    requires |kept| == |base| && forall i :: 0 <= i < |base| ==> kept[i].0 == base[i].0
    requires forall i :: 0 <= i < |added| ==> Get(base, added[i].0).None?
    ensures DistinctKeys(kept + added)
  {
    hide Get;
    var all := kept + added;
    forall i, j | 0 <= i < j < |all|
      ensures all[i].0 != all[j].0
    {
      if j < |kept| {
        assert base[i].0 != base[j].0;
      } else if i < |kept| {
        assert all[j] == added[j - |kept|] && base[i].0 != all[j].0;
      } else {
        assert all[i] == added[i - |kept|] && all[j] == added[j - |kept|];
      }
    }
  }

  /** An entry that one of two dictionaries of parts holds. */
  ghost predicate PartEntry(document: Json, field: (Key, Json)) {
    field.0 == KeyOf(field.0.Text()) && IsPart(document, field.1)
  }

  lemma EntriesAreParts(document: Json, fields: Fields)
    requires PartsDict(document, fields)
    ensures DistinctKeys(fields) && forall f :: f in fields ==> PartEntry(document, f)
  {
    hide IsPart, KeyOf;
  }

  lemma PartsMakeDict(document: Json, fields: Fields)
    requires DistinctKeys(fields) && forall i :: 0 <= i < |fields| ==> PartEntry(document, fields[i])
    ensures PartsDict(document, fields)
  {
    hide IsPart, KeyOf;
  }

  lemma UpdateParts(document: Json, base: Fields, more: Fields)
    requires PartsDict(document, base) && PartsDict(document, more)
    ensures PartsDict(document, Update(base, more))
  {
    hide PartsDict, PartEntry, Get, Replace, Added, DistinctKeys;
    EntriesAreParts(document, base);
    EntriesAreParts(document, more);
    ReplaceKeys(base, more);
    AddedApart(base, more);
    var kept, added := Replace(base, more), Added(base, more);
    KeysApart(base, kept, added);
    forall i | 0 <= i < |kept + added|
      ensures PartEntry(document, (kept + added)[i])
    {
      if i < |kept| {
        assert kept[i] == base[i] || kept[i] in more;
        assert base[i] in base;
      } else {
        assert added[i - |kept|] in added;
      }
    }
    PartsMakeDict(document, kept + added);
  }

  lemma AddedApart(base: Fields, more: Fields)
    requires DistinctKeys(more)
    ensures DistinctKeys(Added(base, more))
    ensures forall f :: f in Added(base, more) ==> f in more
    ensures forall i :: 0 <= i < |Added(base, more)| ==> Get(base, Added(base, more)[i].0).None?
  {
    hide Get, Added;
    AddedKeys(base, more);
    forall i | 0 <= i < |Added(base, more)|
      ensures Get(base, Added(base, more)[i].0).None?
    {
      assert Added(base, more)[i] in Added(base, more);
    }
  }

  lemma NoParts(document: Json)
    ensures PartsDict(document, [])
  {
  }

  lemma OwnProperties(document: Json, s: Json)
    requires IsPart(document, s) && AllDicts(document)
    ensures PartsDict(document, PropertiesOf(s))
  {
    hide IsPart, IsDict;
    NoParts(document);
    if Has(s, KProperties) && Member(s, KProperties).value.Obj? {
      var props := Member(s, KProperties).value;
      MemberIsPart(document, s, KProperties);
      PartDicts(document, props);
      forall i | 0 <= i < |props.fields|
        ensures IsPart(document, props.fields[i].1)
      {
        FieldIsPart(document, props, i);
      }
    }
  }

  /** The flattened properties of a schema of the document are a dictionary of its parts. */
  lemma {:induction false} FlattenedParts(document: Json, scope: Scope, s: Json, depth: nat)
    requires WellRanked(scope) && TargetsAreParts(document, scope) && AllDicts(document)
    requires IsPart(document, s) && ObjectFields(scope, s, depth).Some?
    ensures PartsDict(document, ObjectFields(scope, s, depth).value.properties)
    decreases MAX_ALL_OF_DEPTH + 1 - depth, 1
  {
    hide IsPart, WellRanked, AllDicts, PartsDict, GoesWhole, Update, Union, PropertiesOf, TargetsAreParts;
    var resolved := Dereferenced(scope, s);
    DereferencedIsPart(document, scope, s);
    OwnProperties(document, resolved);
    var members := ListAt(resolved, KAllOf);
    forall i | 0 <= i < |members|
      ensures IsPart(document, members[i])
    {
      ListIsPart(document, resolved, KAllOf, i);
    }
    MembersParts(document, scope, members, depth);
    UpdateParts(document, AllOfFields(scope, members, depth).value.properties, PropertiesOf(resolved));
  }

  lemma {:induction false} MembersParts(document: Json, scope: Scope, members: seq<Json>, depth: nat)
    requires WellRanked(scope) && TargetsAreParts(document, scope) && AllDicts(document)
    requires depth <= MAX_ALL_OF_DEPTH && AllOfFields(scope, members, depth).Some?
    requires forall i :: 0 <= i < |members| ==> IsPart(document, members[i])
    ensures PartsDict(document, AllOfFields(scope, members, depth).value.properties)
    decreases MAX_ALL_OF_DEPTH + 1 - depth, 0, |members|
  {
    hide IsPart, WellRanked, AllDicts, PartsDict, Update, Union, ObjectFields, TargetsAreParts;
    NoParts(document);
    if |members| > 0 {
      var last := |members| - 1;
      MembersParts(document, scope, members[..last], depth);
      FlattenedParts(document, scope, members[last], depth + 1);
      UpdateParts(document, AllOfFields(scope, members[..last], depth).value.properties,
                  ObjectFields(scope, members[last], depth + 1).value.properties);
    }
  }

  lemma SourceTargetsAreParts(unquote: Unquote, document: Json, e: map<Pointer, nat>)
    requires Resolvable(unquote, document)
    ensures TargetsAreParts(document, SourceScope(unquote, document, e))
  {
    hide IsPart, Sites, Resolve;
    var scope := SourceScope(unquote, document, e);
    forall ref | ref in scope.target
      ensures IsPart(document, scope.target[ref])
    {
      TargetIsPart(unquote, document, ref);
    }
  }

  /** Conversion of a part meets only refs of the document. */
  lemma PartConvRefs(d: Dialect, document: Json, v: Json, ref: string)
    requires IsPart(document, v) && ref in ConvRefs(d, v)
    ensures ref in Sites(document)
  {
    hide Sites, IsPart, ConvRefs;
    ConvRefsAreSites(d, v, ref);
    PartSites(document, v, ref);
  }
}
