/** What a mapped document says, keyword by keyword: each listed operation, each parameter and
    each body is compared with the text of the document itself. */
module SpecReading {
  import opened JsonValues
  import opened Schemas
  import opened RefGraph
  import opened RefCheck
  import opened CheckedScope
  import opened ValidityFacts
  import opened OperationArguments
  import opened ArgumentCollector
  import opened DocumentParts
  import opened ServedTool
  import opened SpecOperations
  import opened SchemaConvert
  import Flattening
  import Mapping

  // ------------------------------------------------------------ the listing is complete

  /** The method names of a path item, and the capitals an operation key has. */
  predicate IsMethod(name: string, verb: string) {
    || (name == "get" && verb == "GET") || (name == "put" && verb == "PUT")
    || (name == "post" && verb == "POST") || (name == "delete" && verb == "DELETE")
    || (name == "options" && verb == "OPTIONS") || (name == "head" && verb == "HEAD")
    || (name == "patch" && verb == "PATCH") || (name == "trace" && verb == "TRACE")
  }

  lemma MethodListed(name: string, verb: string)
    requires IsMethod(name, verb)
    ensures exists i :: 0 <= i < |METHODS| && METHODS[i] == (name, verb)
  {
    assert METHODS[0] == ("get", "GET") && METHODS[1] == ("put", "PUT") && METHODS[2] == ("post", "POST");
    assert METHODS[3] == ("delete", "DELETE") && METHODS[4] == ("options", "OPTIONS");
    assert METHODS[5] == ("head", "HEAD") && METHODS[6] == ("patch", "PATCH") && METHODS[7] == ("trace", "TRACE");
  }

  lemma ListedIsMethod(i: nat)
    requires i < |METHODS|
    ensures IsMethod(METHODS[i].0, METHODS[i].1)
  {
  }

  lemma {:induction false} StandardListed(path: string, item: Json, n: nat, i: nat)
    requires i < n <= |METHODS|
    ensures forall x :: x in StandardEntry(path, item, i) ==> x in StandardEntries(path, item, n)
    decreases n
  {
    hide StandardEntry, METHODS;
    if i < n - 1 {
      StandardListed(path, item, n - 1, i);
    }
  }

  /** A path item's own entry for a method. */
  lemma ItemLists(upper: string -> string, path: string, item: Json, name: string, verb: string)
    requires IsMethod(name, verb) && HoldsObject(item, name)
    ensures Entry(Mapping.OperationKey(verb, path), item, At(item, name).value, true) in ItemEntries(upper, path, item)
  {
    hide IsMethod, At, StandardEntries, QueryEntries, CustomEntries, METHODS;
    MethodListed(name, verb);
    var i :| 0 <= i < |METHODS| && METHODS[i] == (name, verb);
    StandardListed(path, item, |METHODS|, i);
    assert StandardEntry(path, item, i) == [Entry(Mapping.OperationKey(verb, path), item, At(item, name).value, true)];
    assert StandardEntry(path, item, i)[0] in StandardEntry(path, item, i);
  }

  lemma {:induction false} PathListed(unquote: Unquote, upper: string -> string, document: Json, paths: Fields, k: nat,
                                      x: Entry)
    requires k < |paths| && !("x-" <= paths[k].0.Text()) && paths[k].1.Obj?
    requires ItemOf(unquote, document, paths[k].1).Some?
    requires x in ItemEntries(upper, paths[k].0.Text(), ItemOf(unquote, document, paths[k].1).value)
    ensures x in PathEntries(unquote, upper, document, paths)
    decreases |paths|
  {
    hide ItemEntries, ItemOf;
    if k < |paths| - 1 {
      PathListed(unquote, upper, document, paths[..|paths| - 1], k, x);
    }
  }

  /** The paths of a document. */
  function PathsOf(document: Json): Fields {
    if HoldsObject(document, "paths") then At(document, "paths").value.fields else []
  }

  /** Every path that is no extension, and every of the eight methods its item, or the one it
      refers to, holds an object for, is listed with just that operation. */
  lemma ListingComplete(unquote: Unquote, upper: string -> string, document: Json, k: nat, name: string, verb: string)
    requires k < |PathsOf(document)| && IsMethod(name, verb)
    requires !("x-" <= PathsOf(document)[k].0.Text()) && PathsOf(document)[k].1.Obj?
    requires ItemOf(unquote, document, PathsOf(document)[k].1).Some?
    requires HoldsObject(ItemOf(unquote, document, PathsOf(document)[k].1).value, name)
    ensures var (path, item) := (PathsOf(document)[k].0.Text(),
                                 ItemOf(unquote, document, PathsOf(document)[k].1).value);
            Entry(Mapping.OperationKey(verb, path), item, At(item, name).value, true)
            in Listing(unquote, upper, document)
  {
    hide IsMethod, At, ItemEntries, ItemOf, PathEntries;
    var path, item := PathsOf(document)[k].0.Text(), ItemOf(unquote, document, PathsOf(document)[k].1).value;
    ItemLists(upper, path, item, name, verb);
    PathListed(unquote, upper, document, PathsOf(document), k,
               Entry(Mapping.OperationKey(verb, path), item, At(item, name).value, true));
  }

  /** An entry the hub calls stands under one of the eight methods, in an item of its path. */
  ghost predicate ComesFromPath(unquote: Unquote, document: Json, x: Entry, k: nat, name: string)
    requires k < |PathsOf(document)|
  {
    && x.key.path == PathsOf(document)[k].0.Text() && !("x-" <= x.key.path)
    && ItemOf(unquote, document, PathsOf(document)[k].1) == Some(x.item)
    && IsMethod(name, x.key.verb) && At(x.item, name) == Some(x.operation)
  }

  lemma {:induction false} PathSource(unquote: Unquote, upper: string -> string, document: Json, paths: Fields,
                                      x: Entry)
    requires x in PathEntries(unquote, upper, document, paths)
    ensures exists k ::
              && 0 <= k < |paths| && !("x-" <= paths[k].0.Text()) && ItemOf(unquote, document, paths[k].1).Some?
              && x in ItemEntries(upper, paths[k].0.Text(), ItemOf(unquote, document, paths[k].1).value)
    decreases |paths|
  {
    hide ItemEntries, ItemOf;
    if |paths| > 0 {
      var last := |paths| - 1;
      if x in PathEntries(unquote, upper, document, paths[..last]) {
        PathSource(unquote, upper, document, paths[..last], x);
        var k :| 0 <= k < |paths[..last]| && !("x-" <= paths[..last][k].0.Text()) &&
          ItemOf(unquote, document, paths[..last][k].1).Some? &&
          x in ItemEntries(upper, paths[..last][k].0.Text(), ItemOf(unquote, document, paths[..last][k].1).value);
        assert paths[k] == paths[..last][k];
      } else {
        assert x in ItemEntries(upper, paths[last].0.Text(), ItemOf(unquote, document, paths[last].1).value);
      }
    }
  }

  lemma ListingSound(unquote: Unquote, upper: string -> string, document: Json, x: Entry)
    requires x in Listing(unquote, upper, document) && x.standard
    ensures exists k: nat, name ::
              k < |PathsOf(document)| && ComesFromPath(unquote, document, x, k, name)
  {
    hide IsMethod, At, ItemOf, PathEntries, StandardEntries, QueryEntries, CustomEntries, METHODS, StandardEntry;
    var paths := PathsOf(document);
    PathSource(unquote, upper, document, paths, x);
    var k :| 0 <= k < |paths| && !("x-" <= paths[k].0.Text()) && ItemOf(unquote, document, paths[k].1).Some? &&
      x in ItemEntries(upper, paths[k].0.Text(), ItemOf(unquote, document, paths[k].1).value);
    var path, item := paths[k].0.Text(), ItemOf(unquote, document, paths[k].1).value;
    assert x in StandardEntries(path, item, |METHODS|);
    var i :| 0 <= i < |METHODS| && x in StandardEntry(path, item, i);
    ListedIsMethod(i);
    assert ComesFromPath(unquote, document, x, k, METHODS[i].0);
  }

  // ------------------------------------------------------------ parameters

  /** The i-th parameter object of an operation, its path item's first, refs followed. */
  function RawParams(entry: Entry): seq<Json> {
    ListAt(entry.item, KeyOf("parameters")) + ListAt(entry.operation, KeyOf("parameters"))
  }

  function RawParam(scope: Scope, entry: Entry, i: nat): Json
    requires WellRanked(scope) && i < |RawParams(entry)|
  {
    Dereferenced(scope, RawParams(entry)[i])
  }

  predicate SameNameAndPlace(v: Json, w: Json) {
    TextAt(v, "name") == TextAt(w, "name") && TextAt(v, "in") == TextAt(w, "in")
  }

  /** No later parameter object has its name and place. */
  ghost predicate IsLast(scope: Scope, entry: Entry, i: nat)
    requires WellRanked(scope) && i < |RawParams(entry)|
  {
    forall j :: i < j < |RawParams(entry)| ==> !SameNameAndPlace(RawParam(scope, entry, j), RawParam(scope, entry, i))
  }

  /** Headers that come from the hub itself, whatever a spec declares. */
  predicate HubsName(lowered: string) {
    || lowered in {"authorization", "proxy-authorization", "cookie", "host", "content-length", "content-type"}
    || lowered in {"transfer-encoding", "connection", "keep-alive", "te", "trailer", "upgrade", "proxy-connection"}
    || lowered in {"forwarded", "x-original-url", "x-rewrite-url", "x-http-method-override", "x-http-method"}
    || lowered in {"x-method-override", "x-real-ip", "via", "origin"}
    || "x-forwarded-" <= lowered
  }

  /** `q` is what the parameter object `v` says: its name, its place, how lists are written, and
      whether it must be there. */
  ghost predicate SaysSo(v: Json, q: ParameterPlan, plan: Plan) {
    var place := TextAt(v, "in");
    && q.name == TextAt(v, "name") && q.argument == q.name
    && (q.location == InQuery <==> place == "query")
    && (q.location == InPath <==> place == "path")
    && (q.location == InHeader <==> place == "header")
    && q.explode == (if At(v, "explode") == Some(Bool(true)) then true
                     else if At(v, "explode") == Some(Bool(false)) then false
                     else place == "query")
    && (q.name in plan.required <==> place == "path" || At(v, "required") == Some(Bool(true)))
    && At(v, "schema").Some? && At(v, "content").None?
    && q.name in plan.properties && plan.properties[q.name] == At(v, "schema").value
    && (At(v, "style").Some? && At(v, "style").value.Str? ==>
          At(v, "style").value.s == if place == "query" then "form" else "simple")
  }

  /** A parameter object that becomes an argument. */
  predicate IsSent(rules: TextRules, v: Json) {
    var place := TextAt(v, "in");
    place == "query" || place == "path" || (place == "header" && !HubsName(rules.lower(TextAt(v, "name"))))
  }

  /** A plan holds what the parameter objects say: each that is last under its name and place is
      in it, unless it is a cookie or one of the hub's own headers, and nothing else is. */
  ghost predicate ParametersRead(scope: Scope, rules: TextRules, entry: Entry, plan: Plan)
    requires WellRanked(scope)
  {
    && (forall i :: 0 <= i < |RawParams(entry)| && IsLast(scope, entry, i) ==>
          IsSent(rules, RawParam(scope, entry, i)) ==>
            exists q :: q in plan.parameters && SaysSo(RawParam(scope, entry, i), q, plan))
    && (forall q :: q in plan.parameters ==>
          exists i :: 0 <= i < |RawParams(entry)| && IsLast(scope, entry, i) &&
            IsSent(rules, RawParam(scope, entry, i)) && SaysSo(RawParam(scope, entry, i), q, plan))
  }

  lemma PlacesTold(text: string)
    ensures LocationOf(text) == InQuery <==> text == "query"
    ensures LocationOf(text) == InPath <==> text == "path"
    ensures LocationOf(text) == InHeader <==> text == "header"
    ensures LocationOf(text) == InCookie <==> text == "cookie"
  {
    assert "path"[0] == 'p' && "query"[0] == 'q' && "header"[0] == 'h' && "cookie"[0] == 'c';
  }

  lemma PlacesApart(x: string, y: string)
    ensures LocationOf(x) == LocationOf(y) <==> x == y
  {
    PlacesTold(x);
    PlacesTold(y);
  }

  lemma HubsNames(rules: TextRules, p: Param)
    ensures HubsOwn(rules, p) <==> p.location.InHeader? && HubsName(rules.lower(p.name))
  {
  }

  /** A parameter object becomes an argument, unless it is refused, exactly when it is sent. */
  lemma SentIff(scope: Scope, rules: TextRules, p: Json)
    requires WellRanked(scope) && !Own(scope, rules, ReadParam(scope, p)).Refuse?
    ensures Own(scope, rules, ReadParam(scope, p)).Accept? <==> IsSent(rules, Dereferenced(scope, p))
  {
    hide ParameterProblem, HubsOwn, HubsName, LocationOf, At, Dereferenced, WellRanked;
    var read := ReadParam(scope, p);
    PlacesTold(TextAt(Dereferenced(scope, p), "in"));
    HubsNames(rules, read);
  }

  lemma AcceptedSaysSo(scope: Scope, rules: TextRules, p: Json, plan: Plan)
    requires WellRanked(scope) && Own(scope, rules, ReadParam(scope, p)).Accept?
    requires Keeps(scope, rules, ReadParam(scope, p), plan)
    ensures Own(scope, rules, ReadParam(scope, p)).plan in plan.parameters
    ensures SaysSo(Dereferenced(scope, p), Own(scope, rules, ReadParam(scope, p)).plan, plan)
  {
    hide HubsOwn, LocationOf, At, Dereferenced, WellRanked, IsObjectSchema, IsArraySchema;
    var v := Dereferenced(scope, p);
    PlacesTold(TextAt(v, "in"));
    StylesTold(v);
    assert "form"[0] == 'f' && "simple"[0] == 's';
  }

  lemma StylesTold(v: Json)
    ensures At(v, "style").Some? && At(v, "style").value.Str? ==>
              && StyleAt(v).Some?
              && (StyleAt(v).value == Form <==> At(v, "style").value.s == "form")
              && (StyleAt(v).value == Simple <==> At(v, "style").value.s == "simple")
    ensures !(At(v, "style").Some? && At(v, "style").value.Str?) ==> StyleAt(v).None?
  {
    assert "form"[0] == 'f' && "simple"[0] == 's';
  }

  /** The parameters that were read, and the objects they were read from. */
  lemma ReadAt(scope: Scope, entry: Entry, i: nat)
    requires WellRanked(scope) && i < |RawParams(entry)|
    ensures var op := ReadOperation(scope, entry);
            && |op.pathLevel + op.own| == |RawParams(entry)|
            && (op.pathLevel + op.own)[i] == ReadParam(scope, RawParams(entry)[i])
  {
    hide WellRanked, ReadParam;
  }

  lemma LastIff(scope: Scope, entry: Entry, i: nat)
    requires WellRanked(scope) && i < |RawParams(entry)|
    ensures var op := ReadOperation(scope, entry);
            var ps := op.pathLevel + op.own;
            |ps| == |RawParams(entry)| &&
            (IsLast(scope, entry, i) <==> forall j :: i < j < |ps| ==> !SameSlot(ps[j], ps[i]))
  {
    hide WellRanked, LocationOf, At, ReadOperation, Dereferenced;
    ReadAt(scope, entry, i);
    forall j | i < j < |RawParams(entry)|
      ensures var op := ReadOperation(scope, entry);
              var ps := op.pathLevel + op.own;
              |ps| == |RawParams(entry)| &&
              (SameSlot(ps[j], ps[i]) <==> SameNameAndPlace(RawParam(scope, entry, j), RawParam(scope, entry, i)))
    {
      ReadAt(scope, entry, j);
      PlacesApart(TextAt(RawParam(scope, entry, j), "in"), TextAt(RawParam(scope, entry, i), "in"));
    }
  }

  lemma HeldParameters(scope: Scope, rules: TextRules, entry: Entry, plan: Plan)
    requires WellRanked(scope)
    requires var op := ReadOperation(scope, entry);
             var merged := MergeAll(op.pathLevel + op.own);
             ParametersSupported(scope, rules, merged) && Holds(scope, rules, merged, plan)
    ensures ParametersRead(scope, rules, entry, plan)
  {
    hide WellRanked, ReadOperation, MergeAll, Keeps, SaysSo, IsSent, Own, IsLast, ReadParam;
    var op := ReadOperation(scope, entry);
    var ps := op.pathLevel + op.own;
    var merged := MergeAll(ps);
    LastDeclaredWins(ps);
    forall i | 0 <= i < |RawParams(entry)| && IsLast(scope, entry, i) && IsSent(rules, RawParam(scope, entry, i))
      ensures exists q :: q in plan.parameters && SaysSo(RawParam(scope, entry, i), q, plan)
    {
      var p := ReadParam(scope, RawParams(entry)[i]);
      ReadAt(scope, entry, i);
      LastIff(scope, entry, i);
      assert LastOfSlot(ps, p);
      var k :| 0 <= k < |merged| && merged[k] == p;
      SentIff(scope, rules, RawParams(entry)[i]);
      AcceptedSaysSo(scope, rules, RawParams(entry)[i], plan);
    }
    forall q | q in plan.parameters
      ensures exists i :: 0 <= i < |RawParams(entry)| && IsLast(scope, entry, i) &&
                IsSent(rules, RawParam(scope, entry, i)) && SaysSo(RawParam(scope, entry, i), q, plan)
    {
      assert ComesFrom(scope, rules, merged, q);
      var k :| 0 <= k < |merged| && Own(scope, rules, merged[k]).Accept? && Own(scope, rules, merged[k]).plan == q;
      assert merged[k] in merged && LastOfSlot(ps, merged[k]);
      var i :| 0 <= i < |ps| && ps[i] == merged[k] && forall j :: i < j < |ps| ==> !SameSlot(ps[j], merged[k]);
      SameCount(scope, entry);
      ReadAt(scope, entry, i);
      LastIff(scope, entry, i);
      SentIff(scope, rules, RawParams(entry)[i]);
      AcceptedSaysSo(scope, rules, RawParams(entry)[i], plan);
    }
  }

  lemma SameCount(scope: Scope, entry: Entry)
    requires WellRanked(scope)
    ensures var op := ReadOperation(scope, entry); |op.pathLevel + op.own| == |RawParams(entry)|
  {
    hide WellRanked, ReadParam;
  }

  // ------------------------------------------------------------ the body

  /** The schema of one of the media types a body object offers. */
  function MediaSchema(content: Fields, i: nat): Option<Json>
    requires i < |content|
  {
    At(content[i].1, "schema")
  }

  /** The media type chosen: the first that is JSON, or, when none is, the first form. */
  ghost predicate IsChosen(rules: TextRules, content: Fields, i: nat) {
    && i < |content|
    && if rules.isJson(content[i].0.Text()) then forall j :: 0 <= j < i ==> !rules.isJson(content[j].0.Text())
       else
         && content[i].0.Text() == "application/x-www-form-urlencoded"
         && (forall j :: 0 <= j < |content| ==> !rules.isJson(content[j].0.Text()))
         && (forall j :: 0 <= j < i ==> content[j].0.Text() != "application/x-www-form-urlencoded")
  }

  /** A plan has a body exactly when the operation has one, required when it says so, under the
      media type chosen. A body passed whole has that media type's schema; a merged one has the
      properties it flattens to, each under its own schema. */
  ghost predicate BodyRead(scope: Scope, rules: TextRules, entry: Entry, plan: Plan)
    requires WellRanked(scope)
  {
    match At(entry.operation, "requestBody")
    case None => plan.body.None?
    case Some(raw) =>
      var v := Dereferenced(scope, raw);
      && plan.body.Some?
      && (plan.body.value.required <==> At(v, "required") == Some(Bool(true)))
      && exists i :: 0 <= i < |FieldsAt(v, "content")| && BodyFrom(scope, rules, FieldsAt(v, "content"), i, plan)
  }

  ghost predicate BodyFrom(scope: Scope, rules: TextRules, content: Fields, i: nat, plan: Plan)
    requires WellRanked(scope)
  {
    && IsChosen(rules, content, i) && plan.body.Some?
    && var body := plan.body.value;
    && body.media == content[i].0.Text() && MediaSchema(content, i).Some?
    && match body.mode
       case Whole =>
         && |body.fields| == 1 && body.fields[0].0 in plan.properties
         && plan.properties[body.fields[0].0] == MediaSchema(content, i).value
         && body.fields[0].0 in {"body", "body_body"}
       case Merged =>
         var flat := Flattening.ObjectFields(scope, MediaSchema(content, i).value, 0);
         && flat.Some? && |body.fields| == |flat.value.properties|
         && forall k :: 0 <= k < |body.fields| ==>
              && body.fields[k].1 == flat.value.properties[k].0
              && body.fields[k].0 in {body.fields[k].1.Text(), "body_" + body.fields[k].1.Text()}
              && body.fields[k].0 in plan.properties
              && plan.properties[body.fields[k].0] == flat.value.properties[k].1
  }

  lemma {:induction false} FirstJsonAt(rules: TextRules, content: Fields)
    ensures var first := FirstJson(rules, MediaTypes(content));
            && (first.None? ==> forall j :: 0 <= j < |content| ==> !rules.isJson(content[j].0.Text()))
            && (first.Some? ==> exists i ::
                  && 0 <= i < |content| && first.value == MediaTypes(content)[i]
                  && rules.isJson(content[i].0.Text())
                  && forall j :: 0 <= j < i ==> !rules.isJson(content[j].0.Text()))
    decreases |content|
  {
    hide At;
    if |content| > 0 {
      var rest := content[1..];
      assert MediaTypes(content)[1..] == MediaTypes(rest);
      FirstJsonAt(rules, rest);
      assert forall j :: 1 <= j < |content| ==> content[j] == rest[j - 1];
      if !rules.isJson(content[0].0.Text()) && FirstJson(rules, MediaTypes(rest)).Some? {
        var i :| 0 <= i < |rest| && FirstJson(rules, MediaTypes(rest)).value == MediaTypes(rest)[i] &&
          rules.isJson(rest[i].0.Text()) && forall j :: 0 <= j < i ==> !rules.isJson(rest[j].0.Text());
        assert MediaTypes(content)[i + 1] == MediaTypes(rest)[i] && content[i + 1] == rest[i];
      }
    }
  }

  lemma {:induction false} FormAt(content: Fields)
    ensures var first := FormOf(MediaTypes(content));
            first.Some? ==> exists i ::
              && 0 <= i < |content| && first.value == MediaTypes(content)[i]
              && content[i].0.Text() == "application/x-www-form-urlencoded"
              && forall j :: 0 <= j < i ==> content[j].0.Text() != "application/x-www-form-urlencoded"
    decreases |content|
  {
    hide At;
    if |content| > 0 {
      var rest := content[1..];
      assert MediaTypes(content)[1..] == MediaTypes(rest);
      FormAt(rest);
      assert forall j :: 1 <= j < |content| ==> content[j] == rest[j - 1];
      if content[0].0.Text() != FORM_MEDIA && FormOf(MediaTypes(rest)).Some? {
        var i :| 0 <= i < |rest| && FormOf(MediaTypes(rest)).value == MediaTypes(rest)[i] &&
          rest[i].0.Text() == "application/x-www-form-urlencoded" &&
          forall j :: 0 <= j < i ==> rest[j].0.Text() != "application/x-www-form-urlencoded";
        assert MediaTypes(content)[i + 1] == MediaTypes(rest)[i] && content[i + 1] == rest[i];
      }
    }
  }

  lemma ChosenAt(rules: TextRules, content: Fields)
    ensures var media := MediaOf(rules, MediaTypes(content));
            media.Some? ==>
              exists i :: 0 <= i < |content| && IsChosen(rules, content, i) && media.value == MediaTypes(content)[i]
  {
    hide At, FirstJson, FormOf;
    FirstJsonAt(rules, content);
    FormAt(content);
  }

  lemma BodyAdded(scope: Scope, rules: TextRules, entry: Entry, before: Plan, plan: Plan)
    requires WellRanked(scope) && ReadBody(scope, entry.operation).Some?
    requires AddsBody(scope, rules, before, plan, ReadBody(scope, entry.operation).value)
    ensures BodyRead(scope, rules, entry, plan)
  {
    hide WellRanked, Flattening.ObjectFields, At, FieldsAt, IsChosen, Dereferenced;
    var v := Dereferenced(scope, At(entry.operation, "requestBody").value);
    var content := FieldsAt(v, "content");
    ChosenAt(rules, content);
    var i :| 0 <= i < |content| && IsChosen(rules, content, i) &&
      MediaOf(rules, MediaTypes(content)).value == MediaTypes(content)[i];
    var schema := MediaSchema(content, i).value;
    match Flattening.ObjectFields(scope, schema, 0) {
      case None => WholeFrom(before, plan, schema, content[i].0.Text(), plan.body.value.required);
      case Some(flat) => MergedFrom(before, plan, flat, content[i].0.Text(), plan.body.value.required);
    }
    assert BodyFrom(scope, rules, content, i, plan);
  }

  lemma WholeFrom(before: Plan, plan: Plan, schema: Json, media: string, required: bool)
    requires AddsWhole(before, plan, schema, media, required)
    ensures plan.body.Some? && plan.body.value.mode == Whole && plan.body.value.media == media
    ensures var fields := plan.body.value.fields;
            |fields| == 1 && fields[0].0 in plan.properties && plan.properties[fields[0].0] == schema
    ensures plan.body.value.fields[0].0 in {"body", "body_body"}
  {
    assert "body_" + "body" == "body_body";
  }

  lemma MergedFrom(before: Plan, plan: Plan, flat: Flattening.Flat, media: string, required: bool)
    requires AddsMerged(before, plan, flat, media, required)
    ensures plan.body.Some? && plan.body.value.mode == Merged && plan.body.value.media == media
    ensures var fields := plan.body.value.fields;
            && |fields| == |flat.properties|
            && forall k :: 0 <= k < |fields| ==>
                 && fields[k].1 == flat.properties[k].0
                 && fields[k].0 in {fields[k].1.Text(), "body_" + fields[k].1.Text()}
                 && fields[k].0 in plan.properties
                 && plan.properties[fields[k].0] == flat.properties[k].1
  {
    hide Renamed, KeyTexts, ArgumentsOf, Args;
    var fields := plan.body.value.fields;
    forall k | 0 <= k < |fields|
      ensures fields[k].0 in plan.properties
    {
      assert Args(fields)[k] == fields[k].0;
    }
  }

  // ------------------------------------------------------------ parameters beside a body

  /** A body brings arguments of its own and leaves those of the parameters alone. */
  ghost predicate Beside(before: Plan, plan: Plan) {
    && plan.parameters == before.parameters
    && forall x :: x in before.properties ==>
         && x in plan.properties && plan.properties[x] == before.properties[x]
         && (x in plan.required <==> x in before.required)
  }

  lemma BodyBeside(scope: Scope, rules: TextRules, before: Plan, plan: Plan, body: RequestBody)
    requires WellRanked(scope) && AddsBody(scope, rules, before, plan, body)
    ensures Beside(before, plan)
  {
    hide WellRanked, Flattening.ObjectFields, MediaOf, Renamed, KeyTexts, ArgumentsOf, Args;
    var schema := MediaOf(rules, body.content).value.1.value;
    match Flattening.ObjectFields(scope, schema, 0) {
      case None =>
      case Some(flat) =>
        var fields := plan.body.value.fields;
        RequiredArguments(fields, flat.required);
        forall x | x in Args(fields)
          ensures x !in before.properties
        {
          var k :| 0 <= k < |Args(fields)| && Args(fields)[k] == x;
        }
    }
  }

  lemma SaysSoBeside(v: Json, q: ParameterPlan, before: Plan, plan: Plan)
    requires SaysSo(v, q, before) && Beside(before, plan)
    ensures SaysSo(v, q, plan)
  {
    hide At;
  }

  lemma ReadBeside(scope: Scope, rules: TextRules, entry: Entry, before: Plan, plan: Plan)
    requires WellRanked(scope) && ParametersRead(scope, rules, entry, before) && Beside(before, plan)
    ensures ParametersRead(scope, rules, entry, plan)
  {
    hide WellRanked, SaysSo, IsSent, IsLast, RawParam;
    forall i, q | 0 <= i < |RawParams(entry)| && SaysSo(RawParam(scope, entry, i), q, before)
      ensures SaysSo(RawParam(scope, entry, i), q, plan)
    {
      SaysSoBeside(RawParam(scope, entry, i), q, before, plan);
    }
  }

  // ------------------------------------------------------------ a whole operation

  /** Nothing in the operation streams. */
  ghost predicate NeverStreams(scope: Scope, operation: Json)
    requires WellRanked(scope)
  {
    && (At(operation, "requestBody").Some? ==>
          var content := FieldsAt(Dereferenced(scope, At(operation, "requestBody").value), "content");
          forall i :: 0 <= i < |content| ==> At(content[i].1, "itemSchema").None?)
    && (var responses := FieldsAt(operation, "responses");
        forall r :: 0 <= r < |responses| ==>
          var content := FieldsAt(Dereferenced(scope, responses[r].1), "content");
          forall i :: 0 <= i < |content| ==> At(content[i].1, "itemSchema").None?)
  }

  /** What an operation calls itself. */
  ghost predicate SaysName(strip: string -> string, entry: Entry, op: Mapping.Operation) {
    var summary := strip(TextAt(entry.operation, "summary"));
    var description := strip(TextAt(entry.operation, "description"));
    && op.key == entry.key
    && (match At(entry.operation, "operationId")
        case Some(Str(s)) => op.operationId == Some(s)
        case _ => op.operationId == None)
    && (summary != "" && description != "" ==> op.text == summary + "\n\n" + description)
    && (summary != "" && description == "" ==> op.text == summary)
    && (summary == "" && description != "" ==> op.text == description)
    && (summary == "" && description == "" ==> op.text == entry.key.verb + " " + entry.key.path)
  }

  /** A mapped operation with a tool is what the document says: it names itself, nothing streams,
      its parameters and its body are the document's, and it is no TRACE. */
  lemma MappedReads(unquote: Unquote, reading: TextReading, document: Json, e: map<Pointer, nat>, d: Dialect,
                    entry: Entry, op: Mapping.Operation, tool: Option<(Plan, Json)>)
    requires Resolvable(unquote, document) && WellRanked(SourceScope(unquote, document, e))
    requires Maps(unquote, reading, document, e, d, entry, op, tool)
    ensures SaysName(reading.strip, entry, op)
    ensures tool.Some? ==>
              var scope := SourceScope(unquote, document, e);
              && entry.standard && entry.key.verb != "TRACE" && NeverStreams(scope, entry.operation)
              && ListAt(entry.operation, KeyOf("x-mcp-hub-unsupported")) == []
              && ParametersRead(scope, reading.rules, entry, tool.value.0)
              && BodyRead(scope, reading.rules, entry, tool.value.0)
  {
    hide Resolvable, WellRanked, SourceScope, Serves, Supported, ReadOperation, ParametersRead, BodyRead,
      OperationStreams, NeverStreams, At, TextAt;
    if tool.Some? {
      var scope := SourceScope(unquote, document, e);
      StreamsNot(scope, entry.operation);
      var names, parameters :|
        Serves(unquote, document, e, d, names, reading.rules, ReadOperation(scope, entry),
               tool.value.0, parameters, tool.value.1);
      ServesPlans(unquote, document, e, d, names, reading.rules, ReadOperation(scope, entry), tool.value.0, parameters,
                  tool.value.1);
      PlanReads(scope, reading.rules, entry, tool.value.0, parameters);
    }
  }

  lemma StreamsNot(scope: Scope, operation: Json)
    requires WellRanked(scope) && !OperationStreams(scope, operation)
    ensures NeverStreams(scope, operation)
  {
    hide WellRanked, At, FieldsAt, Dereferenced;
  }

  lemma ServesPlans(unquote: Unquote, document: Json, e: map<Pointer, nat>, d: Dialect, names: Names, rules: TextRules,
                    op: Operation, plan: Plan, parameters: Plan, schema: Json)
    requires Serves(unquote, document, e, d, names, rules, op, plan, parameters, schema)
    requires Resolvable(unquote, document) && WellRanked(SourceScope(unquote, document, e))
    ensures Plans(SourceScope(unquote, document, e), rules, op, plan, parameters)
  {
    hide Plans, SourceScope, WellRanked, Resolvable;
  }

  lemma PlanReads(scope: Scope, rules: TextRules, entry: Entry, plan: Plan, parameters: Plan)
    requires WellRanked(scope) && Supported(scope, rules, ReadOperation(scope, entry))
    requires Plans(scope, rules, ReadOperation(scope, entry), plan, parameters)
    ensures ParametersRead(scope, rules, entry, plan) && BodyRead(scope, rules, entry, plan)
  {
    hide WellRanked, ParametersRead, Holds, ParametersSupported, MergeAll, WellFormed, AddsBody, BodyRead, ReadParams,
      Beside;
    var op := ReadOperation(scope, entry);
    assert op.body == ReadBody(scope, entry.operation);
    HeldParameters(scope, rules, entry, parameters);
    if op.body.Some? {
      BodyAdded(scope, rules, entry, parameters, plan);
      BodyBeside(scope, rules, parameters, plan, op.body.value);
      ReadBeside(scope, rules, entry, parameters, plan);
    } else {
      NoBodyRead(scope, rules, entry, plan);
    }
  }

  lemma NoBodyRead(scope: Scope, rules: TextRules, entry: Entry, plan: Plan)
    requires WellRanked(scope) && ReadBody(scope, entry.operation).None? && plan.body.None?
    ensures BodyRead(scope, rules, entry, plan)
  {
  }
}
