/** Every operation of a document: `_operations`, reading each one, and making its tool. */
module SpecOperations {
  import opened JsonValues
  import opened Schemas
  import opened SchemaConvert
  import opened RefGraph
  import opened RefCheck
  import opened CheckedScope
  import opened ValidityFacts
  import opened OperationArguments
  import opened ArgumentCollector
  import opened DocumentParts
  import opened InputSchema
  import opened ServedTool
  import Mapping
  import Revisions

  /** How texts are read: media types and header names, capitals, and blanks at the ends. */
  datatype TextReading = TextReading(rules: TextRules, upper: string -> string, strip: string -> string)

  /** One operation as it stands in a document. `standard` tells that its method is one the hub
      calls; `item` is the path item it belongs to. */
  datatype Entry = Entry(key: Mapping.OperationKey, item: Json, operation: Json, standard: bool)

  function At(v: Json, text: string): (r: Option<Json>)
    ensures r.Some? ==> v.Obj? && Has(v, KeyOf(text)) && r == Member(v, KeyOf(text))
  {
    Member(v, KeyOf(text))
  }

  predicate HoldsObject(v: Json, text: string) {
    At(v, text).Some? && At(v, text).value.Obj?
  }

  // ------------------------------------------------------------ the listing

  /** The methods the hub calls, as a path item writes them and as a key does. */
  const METHODS: seq<(string, string)> :=
    [ ("get", "GET"), ("put", "PUT"), ("post", "POST"), ("delete", "DELETE"), ("options", "OPTIONS"),
      ("head", "HEAD"), ("patch", "PATCH"), ("trace", "TRACE") ]

  lemma VerbsDiffer(i: nat, j: nat)
    requires i < j < |METHODS|
    ensures METHODS[i].1 != METHODS[j].1
  {
    assert "GET"[0] == 'G' && "PUT"[0] == 'P' && "PUT"[1] == 'U' && "POST"[0] == 'P' && "POST"[1] == 'O';
    assert "DELETE"[0] == 'D' && "OPTIONS"[0] == 'O' && "HEAD"[0] == 'H';
    assert "PATCH"[0] == 'P' && "PATCH"[1] == 'A' && "TRACE"[0] == 'T';
  }

  /** The operation under one standard method, if there is one. */
  function StandardEntry(path: string, item: Json, i: nat): (r: seq<Entry>)
    requires i < |METHODS|
    ensures forall x :: x in r ==> x.standard && x.item == item && x.key == Mapping.OperationKey(METHODS[i].1, path)
    ensures forall x :: x in r ==> At(item, METHODS[i].0) == Some(x.operation)
    ensures |r| <= 1
  {
    var (method', verb) := METHODS[i];
    if HoldsObject(item, method')
    then [Entry(Mapping.OperationKey(verb, path), item, At(item, method').value, true)]
    else []
  }

  /** The operations under the first `n` standard methods. */
  function StandardEntries(path: string, item: Json, n: nat): (r: seq<Entry>)
    requires n <= |METHODS|
    ensures forall x :: x in r ==> exists i :: 0 <= i < n && x in StandardEntry(path, item, i)
  {
    hide StandardEntry;
    if n == 0 then [] else StandardEntries(path, item, n - 1) + StandardEntry(path, item, n - 1)
  }

  /** Custom methods: listed, but never called. */
  function CustomEntries(upper: string -> string, path: string, item: Json, custom: Fields): (r: seq<Entry>)
    ensures forall x :: x in r ==> !x.standard && x.item == item && x.key.path == path
    ensures forall x :: x in r ==> exists i :: 0 <= i < |custom| && custom[i].1 == x.operation
  {
    if |custom| == 0 then []
    else
      var last := |custom| - 1;
      CustomEntries(upper, path, item, custom[..last]) +
      if custom[last].1.Obj?
      then [Entry(Mapping.OperationKey(upper(custom[last].0.Text()), path), item, custom[last].1, false)]
      else []
  }

  /** OpenAPI 3.2's `query` operation, likewise. */
  function QueryEntries(path: string, item: Json): (r: seq<Entry>)
    ensures forall x :: x in r ==> !x.standard && x.item == item && x.key.path == path
    ensures forall x :: x in r ==> At(item, "query") == Some(x.operation)
  {
    if HoldsObject(item, "query")
    then [Entry(Mapping.OperationKey("QUERY", path), item, At(item, "query").value, false)]
    else []
  }

  function CustomOf(item: Json): Fields {
    if HoldsObject(item, "additionalOperations") then At(item, "additionalOperations").value.fields else []
  }

  function ItemEntries(upper: string -> string, path: string, item: Json): (r: seq<Entry>)
    ensures forall x :: x in r ==> x.item == item && x.key.path == path
  {
    hide StandardEntry;
    StandardEntries(path, item, |METHODS|) + QueryEntries(path, item) + CustomEntries(upper, path, item, CustomOf(item))
  }

  /** A path item, or what it refers to. */
  function ItemOf(unquote: Unquote, document: Json, item: Json): Option<Json> {
    if RefOf(item).Some? then Resolve(unquote, document, RefOf(item).value) else Some(item)
  }

  function PathEntries(unquote: Unquote, upper: string -> string, document: Json, paths: Fields): seq<Entry> {
    if |paths| == 0 then []
    else
      var (path, item) := paths[|paths| - 1];
      PathEntries(unquote, upper, document, paths[..|paths| - 1]) +
      if "x-" <= path.Text() || !item.Obj? || ItemOf(unquote, document, item).None? then []
      else ItemEntries(upper, path.Text(), ItemOf(unquote, document, item).value)
  }

  /** Every operation a document lists, in order. */
  function Listing(unquote: Unquote, upper: string -> string, document: Json): seq<Entry> {
    PathEntries(unquote, upper, document,
                if HoldsObject(document, "paths") then At(document, "paths").value.fields else [])
  }

  // ------------------------------------------------------------ only custom methods repeat a key

  ghost predicate RepeatsAreCustom(es: seq<Entry>) {
    forall i, j :: 0 <= i < j < |es| && es[i].key == es[j].key ==> !es[j].standard
  }

  lemma RepeatsAppend(xs: seq<Entry>, ys: seq<Entry>)
    requires RepeatsAreCustom(xs) && RepeatsAreCustom(ys)
    requires forall x, y :: x in xs && y in ys && y.standard ==> x.key != y.key
    ensures RepeatsAreCustom(xs + ys)
  {
    var all := xs + ys;
    forall i, j | 0 <= i < j < |all| && all[i].key == all[j].key
      ensures !all[j].standard
    {
      if i < |xs| <= j {
        assert all[i] in xs && all[j] == ys[j - |xs|] && all[j] in ys;
      } else if |xs| <= i {
        assert all[i] == ys[i - |xs|] && all[j] == ys[j - |xs|];
      }
    }
  }

  lemma {:induction false} StandardNeverRepeat(path: string, item: Json, n: nat)
    requires n <= |METHODS|
    ensures RepeatsAreCustom(StandardEntries(path, item, n))
  {
    hide At, METHODS, StandardEntry;
    if n > 0 {
      StandardNeverRepeat(path, item, n - 1);
      var before, last := StandardEntries(path, item, n - 1), StandardEntry(path, item, n - 1);
      forall x, y | x in before && y in last
        ensures x.key != y.key
      {
        var i :| 0 <= i < n - 1 && x in StandardEntry(path, item, i);
        VerbsDiffer(i, n - 1);
      }
      RepeatsAppend(before, last);
    }
  }

  lemma ItemRepeats(upper: string -> string, path: string, item: Json)
    ensures RepeatsAreCustom(ItemEntries(upper, path, item))
  {
    hide StandardEntries, StandardEntry, QueryEntries, CustomEntries, CustomOf;
    var standard := StandardEntries(path, item, |METHODS|);
    var query, custom := QueryEntries(path, item), CustomEntries(upper, path, item, CustomOf(item));
    StandardNeverRepeat(path, item, |METHODS|);
    assert forall j :: 0 <= j < |query| ==> query[j] in query;
    assert forall j :: 0 <= j < |custom| ==> custom[j] in custom;
    RepeatsAppend(standard, query);
    RepeatsAppend(standard + query, custom);
  }

  ghost predicate PathsIn(es: seq<Entry>, paths: Fields) {
    forall x :: x in es ==> exists i :: 0 <= i < |paths| && paths[i].0.Text() == x.key.path
  }

  lemma {:induction false} PathRepeats(unquote: Unquote, upper: string -> string, document: Json, paths: Fields)
    requires DistinctTexts(paths)
    ensures RepeatsAreCustom(PathEntries(unquote, upper, document, paths))
    ensures PathsIn(PathEntries(unquote, upper, document, paths), paths)
    decreases |paths|
  {
    hide ItemEntries, ItemOf;
    if |paths| > 0 {
      var last := |paths| - 1;
      var (path, item) := paths[last];
      PathRepeats(unquote, upper, document, paths[..last]);
      var before, all := PathEntries(unquote, upper, document, paths[..last]),
        PathEntries(unquote, upper, document, paths);
      var own := all[|before|..];
      assert all == before + own;
      if ItemOf(unquote, document, item).Some? {
        ItemRepeats(upper, path.Text(), ItemOf(unquote, document, item).value);
      }
      assert forall y :: y in own ==> y.key.path == path.Text();
      PathsApart(before, own, paths);
      RepeatsAppend(before, own);
    }
  }

  lemma PathsApart(before: seq<Entry>, own: seq<Entry>, paths: Fields)
    requires |paths| > 0 && DistinctTexts(paths) && PathsIn(before, paths[..|paths| - 1])
    requires forall y :: y in own ==> y.key.path == paths[|paths| - 1].0.Text()
    ensures forall x, y :: x in before && y in own ==> x.key != y.key
    ensures PathsIn(before + own, paths)
  {
    var last := |paths| - 1;
    forall x | x in before
      ensures exists i :: 0 <= i < last && paths[i].0.Text() == x.key.path
    {
      var i :| 0 <= i < |paths[..last]| && paths[..last][i].0.Text() == x.key.path;
      assert paths[i] == paths[..last][i];
    }
    forall x | x in before + own
      ensures exists i :: 0 <= i < |paths| && paths[i].0.Text() == x.key.path
    {
      if x in own {
        assert paths[last].0.Text() == x.key.path;
      }
    }
  }

  /** In a document of dictionaries, only a custom method can list a key again. */
  lemma ListingRepeats(unquote: Unquote, upper: string -> string, document: Json)
    requires AllDicts(document)
    ensures RepeatsAreCustom(Listing(unquote, upper, document))
  {
    hide PathEntries, IsDict, KeyOf;
    var paths := if HoldsObject(document, "paths") then At(document, "paths").value.fields else [];
    if HoldsObject(document, "paths") {
      var holder := At(document, "paths").value;
      DocumentItself(document);
      MemberIsPart(document, document, KeyOf("paths"));
      PartDicts(document, holder);
      DictTexts(holder.fields);
    }
    PathRepeats(unquote, upper, document, paths);
  }

  lemma DocumentItself(document: Json)
    ensures IsPart(document, document)
  {
  }

  // ------------------------------------------------------------ reading one operation

  function TextAt(v: Json, text: string): string {
    match At(v, text)
    case Some(Str(s)) => s
    case _ => ""
  }

  function ItemsAt(v: Json, text: string): (r: seq<Json>)
    ensures r == ListAt(v, KeyOf(text))
  {
    ListAt(v, KeyOf(text))
  }

  function FieldsAt(v: Json, text: string): Fields {
    match At(v, text)
    case Some(Obj(fields)) => fields
    case _ => []
  }

  function LocationOf(text: string): Location {
    if text == "path" then InPath
    else if text == "query" then InQuery
    else if text == "header" then InHeader
    else if text == "cookie" then InCookie
    else Elsewhere(text)
  }

  function StyleAt(v: Json): Option<Style> {
    match At(v, "style")
    case Some(Str(s)) => Some(if s == "form" then Form else if s == "simple" then Simple else OtherStyle(s))
    case _ => None
  }

  function ExplodeAt(v: Json): Option<bool> {
    match At(v, "explode")
    case Some(Bool(b)) => Some(b)
    case _ => None
  }

  /** A parameter object, or what it refers to. */
  function ReadParam(scope: Scope, p: Json): Param
    requires WellRanked(scope)
  {
    var v := Dereferenced(scope, p);
    Param(TextAt(v, "name"), LocationOf(TextAt(v, "in")), StyleAt(v), ExplodeAt(v), IsTrue(At(v, "required")),
          At(v, "content").Some?, At(v, "schema"))
  }

  function ReadParams(scope: Scope, ps: seq<Json>): (r: seq<Param>)
    requires WellRanked(scope)
    ensures |r| == |ps| && forall i :: 0 <= i < |ps| ==> r[i] == ReadParam(scope, ps[i])
  {
    seq(|ps|, i requires 0 <= i < |ps| => ReadParam(scope, ps[i]))
  }

  function MediaTypes(content: Fields): (r: seq<(string, Option<Json>)>)
    ensures |r| == |content| &&
            forall i :: 0 <= i < |r| ==> r[i] == (content[i].0.Text(), At(content[i].1, "schema"))
  {
    seq(|content|, i requires 0 <= i < |content| => (content[i].0.Text(), At(content[i].1, "schema")))
  }

  function ReadBody(scope: Scope, operation: Json): Option<RequestBody>
    requires WellRanked(scope)
  {
    match At(operation, "requestBody")
    case None => None
    case Some(body) =>
      var v := Dereferenced(scope, body);
      Some(RequestBody(MediaTypes(FieldsAt(v, "content")), IsTrue(At(v, "required"))))
  }

  /** The parameters of the path item and of the operation, and the operation's body. */
  function ReadOperation(scope: Scope, entry: Entry): Operation
    requires WellRanked(scope)
  {
    Operation(entry.key.path, ReadParams(scope, ItemsAt(entry.item, "parameters")),
              ReadParams(scope, ItemsAt(entry.operation, "parameters")), ReadBody(scope, entry.operation))
  }

  /** A media type whose items come one after another. */
  predicate Streams(content: Fields) {
    exists i :: 0 <= i < |content| && At(content[i].1, "itemSchema").Some?
  }

  /** The request body or a response streams. */
  predicate OperationStreams(scope: Scope, operation: Json)
    requires WellRanked(scope)
  {
    || (At(operation, "requestBody").Some? &&
        Streams(FieldsAt(Dereferenced(scope, At(operation, "requestBody").value), "content")))
    || (var responses := FieldsAt(operation, "responses");
        exists i :: 0 <= i < |responses| && Streams(FieldsAt(Dereferenced(scope, responses[i].1), "content")))
  }

  /** Reasons that come with the operation itself. */
  predicate MarkedUnsupported(operation: Json) {
    ItemsAt(operation, "x-mcp-hub-unsupported") != []
  }

  /** An operation can become a tool: its method is called, nothing streams, and its parameters
      and body are supported. */
  ghost predicate EntrySupported(scope: Scope, text: TextRules, entry: Entry)
    requires WellRanked(scope)
  {
    && entry.standard && entry.key.verb != "TRACE"
    && !MarkedUnsupported(entry.operation) && !OperationStreams(scope, entry.operation)
    && Supported(scope, text, ReadOperation(scope, entry))
  }

  /** The summary and the description, blanks at their ends dropped, or the key. */
  function DescribedAs(strip: string -> string, entry: Entry): string {
    var summary, description := strip(TextAt(entry.operation, "summary")),
      strip(TextAt(entry.operation, "description"));
    if summary != "" && description != "" then summary + "\n\n" + description
    else if summary != "" then summary
    else if description != "" then description
    else entry.key.verb + " " + entry.key.path
  }

  function IdOf(operation: Json): Option<string> {
    match At(operation, "operationId")
    case Some(Str(s)) => Some(s)
    case _ => None
  }

  // ------------------------------------------------------------ what is read stands in the document

  lemma AtIsPart(document: Json, v: Json, text: string)
    requires IsPart(document, v) && At(v, text).Some?
    ensures IsPart(document, At(v, text).value)
  {
    hide IsPart, KeyOf;
    MemberIsPart(document, v, KeyOf(text));
  }

  lemma FieldsAreParts(document: Json, v: Json, text: string)
    requires IsPart(document, v)
    ensures forall i :: 0 <= i < |FieldsAt(v, text)| ==> IsPart(document, FieldsAt(v, text)[i].1)
  {
    hide IsPart, At;
    if HoldsObject(v, text) {
      AtIsPart(document, v, text);
      forall i | 0 <= i < |FieldsAt(v, text)|
        ensures IsPart(document, FieldsAt(v, text)[i].1)
      {
        FieldIsPart(document, At(v, text).value, i);
      }
    }
  }

  lemma ParamsStandIn(document: Json, scope: Scope, v: Json, p: Param)
    requires WellRanked(scope) && TargetsAreParts(document, scope) && IsPart(document, v)
    requires p in ReadParams(scope, ItemsAt(v, "parameters")) && p.schema.Some?
    ensures IsPart(document, p.schema.value)
  {
    hide IsPart, At, KeyOf, TargetsAreParts, WellRanked, Dereferenced, ListAt;
    var ps := ItemsAt(v, "parameters");
    var i :| 0 <= i < |ps| && ReadParams(scope, ps)[i] == p;
    ListIsPart(document, v, KeyOf("parameters"), i);
    DereferencedIsPart(document, scope, ps[i]);
    AtIsPart(document, Dereferenced(scope, ps[i]), "schema");
  }

  lemma BodyStandsIn(document: Json, scope: Scope, operation: Json, m: (string, Option<Json>))
    requires WellRanked(scope) && TargetsAreParts(document, scope) && IsPart(document, operation)
    requires ReadBody(scope, operation).Some? && m in ReadBody(scope, operation).value.content && m.1.Some?
    ensures IsPart(document, m.1.value)
  {
    hide IsPart, At, TargetsAreParts, WellRanked, Dereferenced, FieldsAt;
    AtIsPart(document, operation, "requestBody");
    var v := Dereferenced(scope, At(operation, "requestBody").value);
    DereferencedIsPart(document, scope, At(operation, "requestBody").value);
    var content := FieldsAt(v, "content");
    FieldsAreParts(document, v, "content");
    var i :| 0 <= i < |content| && MediaTypes(content)[i] == m;
    AtIsPart(document, content[i].1, "schema");
  }

  /** Every schema of an operation that was read stands in the document. */
  lemma ReadStandsIn(document: Json, scope: Scope, entry: Entry)
    requires WellRanked(scope) && TargetsAreParts(document, scope)
    requires IsPart(document, entry.item) && IsPart(document, entry.operation)
    ensures StandsIn(document, ReadOperation(scope, entry))
  {
    hide IsPart, TargetsAreParts, WellRanked, ReadParams, ReadBody, ItemsAt;
    var op := ReadOperation(scope, entry);
    forall p | (p in op.pathLevel || p in op.own) && p.schema.Some?
      ensures IsPart(document, p.schema.value)
    {
      ParamsStandIn(document, scope, if p in op.pathLevel then entry.item else entry.operation, p);
    }
    if op.body.Some? {
      forall m | m in op.body.value.content && m.1.Some?
        ensures IsPart(document, m.1.value)
      {
        BodyStandsIn(document, scope, entry.operation, m);
      }
    }
  }

  ghost predicate EntryStandsIn(document: Json, entry: Entry) {
    IsPart(document, entry.item) && IsPart(document, entry.operation)
  }

  lemma ItemEntriesStandIn(document: Json, upper: string -> string, path: string, item: Json)
    requires IsPart(document, item)
    ensures forall x :: x in ItemEntries(upper, path, item) ==> EntryStandsIn(document, x)
  {
    hide IsPart, At, StandardEntries, StandardEntry, QueryEntries, CustomEntries, METHODS;
    forall x | x in ItemEntries(upper, path, item)
      ensures EntryStandsIn(document, x)
    {
      if x in StandardEntries(path, item, |METHODS|) {
        var i :| 0 <= i < |METHODS| && x in StandardEntry(path, item, i);
        AtIsPart(document, item, METHODS[i].0);
      } else if x in QueryEntries(path, item) {
        AtIsPart(document, item, "query");
      } else {
        var custom := CustomOf(item);
        var i :| 0 <= i < |custom| && custom[i].1 == x.operation;
        AtIsPart(document, item, "additionalOperations");
        FieldIsPart(document, At(item, "additionalOperations").value, i);
      }
    }
  }

  lemma {:induction false} EntriesStandIn(unquote: Unquote, upper: string -> string, document: Json, paths: Fields)
    requires forall i :: 0 <= i < |paths| ==> IsPart(document, paths[i].1)
    ensures forall x :: x in PathEntries(unquote, upper, document, paths) ==> EntryStandsIn(document, x)
    decreases |paths|
  {
    hide IsPart, ItemEntries, Resolve, EntryStandsIn;
    if |paths| > 0 {
      var (path, item) := paths[|paths| - 1];
      EntriesStandIn(unquote, upper, document, paths[..|paths| - 1]);
      if RefOf(item).Some? && Resolve(unquote, document, RefOf(item).value).Some? {
        TargetIsPart(unquote, document, RefOf(item).value);
      }
      if ItemOf(unquote, document, item).Some? {
        ItemEntriesStandIn(document, upper, path.Text(), ItemOf(unquote, document, item).value);
      }
    }
  }

  lemma ListingStandsIn(unquote: Unquote, upper: string -> string, document: Json)
    ensures forall x :: x in Listing(unquote, upper, document) ==> EntryStandsIn(document, x)
  {
    hide PathEntries, IsPart, EntryStandsIn, At;
    DocumentItself(document);
    var paths := if HoldsObject(document, "paths") then At(document, "paths").value.fields else [];
    if HoldsObject(document, "paths") {
      AtIsPart(document, document, "paths");
      forall i | 0 <= i < |paths|
        ensures IsPart(document, paths[i].1)
      {
        FieldIsPart(document, At(document, "paths").value, i);
      }
    }
    EntriesStandIn(unquote, upper, document, paths);
  }

  // ------------------------------------------------------------ a tool for each

  /** `op` is what selecting and naming tools sees of an entry, and `tool` the tool it becomes. */
  ghost predicate Maps(unquote: Unquote, reading: TextReading, document: Json, e: map<Pointer, nat>, d: Dialect,
                       entry: Entry, op: Mapping.Operation, tool: Option<(Plan, Json)>)
    requires Resolvable(unquote, document) && WellRanked(SourceScope(unquote, document, e))
  {
    var scope := SourceScope(unquote, document, e);
    && op.key == entry.key && op.operationId == IdOf(entry.operation)
    && op.text == DescribedAs(reading.strip, entry)
    && (op.supported <==> EntrySupported(scope, reading.rules, entry))
    && (op.supported <==> tool.Some?)
    && (tool.Some? ==>
          && (op.needsArguments <==> tool.value.0.required != [])
          && exists names, parameters ::
               Serves(unquote, document, e, d, names, reading.rules, ReadOperation(scope, entry),
                      tool.value.0, parameters, tool.value.1))
  }

  /** An entry as it is listed, with or without a tool. */
  function Described(reading: TextReading, entry: Entry, supported: bool, needsArguments: bool): Mapping.Operation {
    Mapping.Operation(entry.key, IdOf(entry.operation), DescribedAs(reading.strip, entry), supported, needsArguments)
  }

  lemma NotMapped(unquote: Unquote, reading: TextReading, document: Json, e: map<Pointer, nat>, d: Dialect,
                  entry: Entry)
    requires Resolvable(unquote, document) && WellRanked(SourceScope(unquote, document, e))
    requires !EntrySupported(SourceScope(unquote, document, e), reading.rules, entry)
    ensures Maps(unquote, reading, document, e, d, entry, Described(reading, entry, false, false), None)
  {
    hide Resolvable, WellRanked, SourceScope, EntrySupported, DescribedAs;
  }

  lemma Mapped(unquote: Unquote, reading: TextReading, document: Json, e: map<Pointer, nat>, d: Dialect, entry: Entry,
               tool: (Plan, Json), names: Names, parameters: Plan)
    requires Resolvable(unquote, document) && WellRanked(SourceScope(unquote, document, e))
    requires EntrySupported(SourceScope(unquote, document, e), reading.rules, entry)
    requires Serves(unquote, document, e, d, names, reading.rules,
                    ReadOperation(SourceScope(unquote, document, e), entry), tool.0, parameters, tool.1)
    ensures Maps(unquote, reading, document, e, d, entry, Described(reading, entry, true, tool.0.required != []),
                 Some(tool))
  {
    hide Resolvable, WellRanked, SourceScope, EntrySupported, DescribedAs, Serves, ReadOperation;
  }

  /** Makes the tool of one entry, if it can have one. */
  method MapEntry(unquote: Unquote, reading: TextReading, document: Json, scope: Scope, ghost e: map<Pointer, nat>,
                  d: Dialect, entry: Entry)
    returns (op: Mapping.Operation, tool: Option<(Plan, Json)>)
    requires forall s: string :: '%' !in s ==> unquote(s) == s
    requires AllDicts(document) && EntryStandsIn(document, entry)
    requires IsChecked(unquote, document) && IsExpansion(EdgesOf(unquote, document), e)
    requires scope == SourceScope(unquote, document, e) && WellRanked(scope)
    ensures Maps(unquote, reading, document, e, d, entry, op, tool)
  {
    hide IsChecked, IsExpansion, AllDicts, IsPart, WellRanked, SourceScope, Resolvable, Supported, StandsIn, Serves,
      ReadOperation, OperationStreams, WellFormed, VariablesDeclared, TargetsAreParts, Maps, Described,
        MarkedUnsupported;
    CheckedIsResolvable(unquote, document);
    op, tool := Described(reading, entry, false, false), None;
    if !entry.standard || entry.key.verb == "TRACE" || MarkedUnsupported(entry.operation) ||
       OperationStreams(scope, entry.operation) {
      NotMapped(unquote, reading, document, e, d, entry);
      return;
    }
    SourceTargetsAreParts(unquote, document, e);
    ReadStandsIn(document, scope, entry);
    var served, expansion, names, parameters :=
      ServeOperation(unquote, reading.rules, document, d, ReadOperation(scope, entry));
    ExpansionUnique(EdgesOf(unquote, document), e, expansion);
    if served.None? {
      NotMapped(unquote, reading, document, e, d, entry);
      return;
    }
    Mapped(unquote, reading, document, e, d, entry, served.value, names, parameters);
    op, tool := Described(reading, entry, true, served.value.0.required != []), served;
  }

  /** Everything a document lists, mapped: a document is mapped exactly when it passes the ref
      check, an operation is supported exactly when it has a tool, and only operations without
      one repeat a key. */
  method MapDocument(unquote: Unquote, reading: TextReading, document: Json, d: Dialect)
    returns (r: Option<(seq<Mapping.Operation>, seq<Option<(Plan, Json)>>)>, ghost e: map<Pointer, nat>)
    requires forall s: string :: '%' !in s ==> unquote(s) == s
    requires AllDicts(document)
    ensures r.Some? <==> IsChecked(unquote, document)
    ensures r.Some? ==> IsExpansion(EdgesOf(unquote, document), e)
    ensures r.Some? ==> WellRanked(SourceScope(unquote, document, e))
    ensures r.Some? ==>
              var entries, (ops, tools) := Listing(unquote, reading.upper, document), r.value;
              && |ops| == |tools| == |entries|
              && forall i :: 0 <= i < |entries| ==>
                   Maps(unquote, reading, document, e, d, entries[i], ops[i], tools[i])
    ensures r.Some? ==> forall sha :: Revisions.WellListed(Revisions.Snapshot(sha, r.value.0))
  {
    hide IsChecked, IsExpansion, AllDicts, WellRanked, SourceScope, Resolvable, Maps, Listing, Sites, ScopeOf,
      EntryStandsIn, RepeatsAreCustom, Revisions.WellListed;
    e := map[];
    var verdict := CheckRefs(unquote, document);
    if verdict.Refused? {
      return None, e;
    }
    e := verdict.expansion;
    CheckedIsResolvable(unquote, document);
    SourceWellRanked(unquote, document, e);
    var sites := CollectRefSites(document);
    CheckedCollects(unquote, document);
    var scope := ScopeOf(unquote, document, sites.value, verdict.expansion);
    var entries := Listing(unquote, reading.upper, document);
    ListingStandsIn(unquote, reading.upper, document);
    var ops: seq<Mapping.Operation>, tools: seq<Option<(Plan, Json)>> := [], [];
    for i := 0 to |entries|
      invariant |ops| == |tools| == i
      invariant forall k :: 0 <= k < i ==> Maps(unquote, reading, document, e, d, entries[k], ops[k], tools[k])
    {
      var op, tool := MapEntry(unquote, reading, document, scope, e, d, entries[i]);
      ops, tools := ops + [op], tools + [tool];
    }
    ListingRepeats(unquote, reading.upper, document);
    forall sha
      ensures Revisions.WellListed(Revisions.Snapshot(sha, ops))
    {
      MappedWellListed(unquote, reading, document, e, d, entries, ops, tools, sha);
    }
    return Some((ops, tools)), e;
  }

  /** What the lifecycle takes for granted of a spec holds of every mapped one. */
  lemma MappedWellListed(unquote: Unquote, reading: TextReading, document: Json, e: map<Pointer, nat>, d: Dialect,
                         entries: seq<Entry>, ops: seq<Mapping.Operation>, tools: seq<Option<(Plan, Json)>>,
                         sha: string)
    requires Resolvable(unquote, document) && WellRanked(SourceScope(unquote, document, e))
    requires |ops| == |tools| == |entries| && RepeatsAreCustom(entries)
    requires forall i :: 0 <= i < |entries| ==> Maps(unquote, reading, document, e, d, entries[i], ops[i], tools[i])
    ensures Revisions.WellListed(Revisions.Snapshot(sha, ops))
  {
    hide Resolvable, WellRanked, SourceScope, Supported, Serves, ReadOperation, OperationStreams, DescribedAs;
    assert forall i :: 0 <= i < |entries| ==>
           ops[i].key == entries[i].key && (ops[i].supported ==> entries[i].standard);
  }
}
