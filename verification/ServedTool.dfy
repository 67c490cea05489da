/** One operation from the spec to a tool and from a call to a request: the ref check, the plan,
    the argument schema and the request builder put together. */
module ServedTool {
  import opened JsonValues
  import opened Schemas
  import opened SchemaConvert
  import opened RefGraph
  import opened RefCheck
  import opened CheckedScope
  import opened BundledScope
  import opened Flattening
  import opened PathBuilding
  import opened OperationArguments
  import opened ArgumentCollector
  import opened RequestBuilder
  import opened RequestRoundTrip
  import opened RequestReading
  import opened DocumentParts
  import opened InputSchema

  // ------------------------------------------------------------ dictionaries as JSON objects

  /** The entries of `m` in this order, as an object's fields. */
  function AsFields(order: seq<string>, m: map<string, Json>): (r: Fields)
    requires forall i :: 0 <= i < |order| ==> order[i] in m
    ensures |r| == |order| && forall i :: 0 <= i < |r| ==> r[i] == (KeyOf(order[i]), m[order[i]])
  {
    seq(|order|, i requires 0 <= i < |order| => (KeyOf(order[i]), m[order[i]]))
  }

  ghost predicate Lists(order: seq<string>, m: map<string, Json>) {
    Distinct(order) && forall x :: x in order <==> x in m
  }

  lemma {:induction false} FieldOf(order: seq<string>, m: map<string, Json>, x: string)
    requires forall i :: 0 <= i < |order| ==> order[i] in m
    ensures Get(AsFields(order, m), KeyOf(x)) == if x in order then Some(m[x]) else None
  {
    hide KeyOf, AsFields;
    if |order| > 0 {
      assert order == [order[0]] + order[1..];
      assert AsFields(order, m)[1..] == AsFields(order[1..], m);
      FieldOf(order[1..], m, x);
      assert KeyOf(x).Text() == x && KeyOf(order[0]).Text() == order[0];
    }
  }

  function Strings(names: seq<string>): (r: seq<Json>)
    ensures |r| == |names| && forall i :: 0 <= i < |r| ==> r[i] == Str(names[i])
  {
    seq(|names|, i requires 0 <= i < |names| => Str(names[i]))
  }

  /** A plan's properties in the order they were added: parameters, then the body's. */
  function PropertyList(plan: Plan): Fields
    requires WellFormed(plan)
  {
    assert forall i :: 0 <= i < |AllNames(plan)| ==> AllNames(plan)[i] in AllNames(plan);
    AsFields(AllNames(plan), plan.properties)
  }

  lemma PropertyOf(plan: Plan, x: string)
    requires WellFormed(plan)
    ensures Get(PropertyList(plan), KeyOf(x)) == if x in plan.properties then Some(plan.properties[x]) else None
  {
    hide Get, KeyOf, AsFields, AllNames;
    assert forall i :: 0 <= i < |AllNames(plan)| ==> AllNames(plan)[i] in AllNames(plan);
    FieldOf(AllNames(plan), plan.properties, x);
  }

  lemma TextPresent(order: seq<string>, m: map<string, Json>, x: string)
    requires Lists(order, m)
    ensures HasText(Obj(AsFields(order, m)), x) <==> x in m
  {
    hide KeyOf, AsFields;
    var fields := AsFields(order, m);
    if x in m {
      var i :| 0 <= i < |order| && order[i] == x;
      assert fields[i].0.Text() == x;
    }
  }

  /** The closed object a plan's schema demands is what `Accepts` says of the arguments. */
  lemma ClosedIsAccepts(a: Assertions, scope: Scope, d: Dialect, plan: Plan, arguments: ToolArguments,
                        order: seq<string>)
    requires WellRanked(scope) && WellFormed(plan) && Lists(order, arguments)
    ensures ClosedObject(a, scope, d, PropertyList(plan), Strings(plan.required), Obj(AsFields(order, arguments))) <==>
            Accepts(a, scope, d, plan, arguments)
  {
    hide Get, KeyOf, AsFields, WellRanked, WellFormed, Valid, PropertyList, HasText, Strings;
    var v := Obj(AsFields(order, arguments));
    forall x ensures HasText(v, x) <==> x in arguments {
      TextPresent(order, arguments, x);
    }
    forall i | 0 <= i < |order|
      ensures Get(PropertyList(plan), v.fields[i].0) ==
              if order[i] in plan.properties then Some(plan.properties[order[i]]) else None
    {
      PropertyOf(plan, order[i]);
    }
    RequiredThere(v, plan.required);
    FieldsThere(a, scope, d, plan, arguments, order);
  }

  lemma RequiredThere(v: Json, names: seq<string>)
    ensures HasAll(v, Strings(names)) <==> forall x :: x in names ==> HasText(v, x)
  {
    hide HasText, Strings;
    forall i | 0 <= i < |names|
      ensures Strings(names)[i] == Str(names[i]) && names[i] in names
    {
    }
  }

  lemma FieldsThere(a: Assertions, scope: Scope, d: Dialect, plan: Plan, arguments: ToolArguments, order: seq<string>)
    requires WellRanked(scope) && Lists(order, arguments)
    ensures (forall i :: 0 <= i < |order| ==>
               order[i] in plan.properties && Valid(a, scope, d, plan.properties[order[i]], arguments[order[i]])) <==>
            (forall x :: x in arguments ==>
               x in plan.properties && Valid(a, scope, d, plan.properties[x], arguments[x]))
  {
    hide WellRanked, Valid;
    forall x | x in arguments
      ensures exists i :: 0 <= i < |order| && order[i] == x
    {
    }
  }

  // ------------------------------------------------------------ what the API takes, the tool takes

  /** The body is one the operation takes: none only where none is required, and otherwise valid
      under the operation's own schema; a flattened one uses the flattened properties. */
  ghost predicate BodyGiven(a: Assertions, scope: Scope, d: Dialect, text: TextRules, op: Operation, plan: Plan,
                            body: Option<Json>)
    requires WellRanked(scope)
  {
    match op.body
    case None => body.None?
    case Some(requestBody) =>
      match MediaOf(text, requestBody.content)
      case Some((_, Some(schema))) =>
        (match body
         case None => !requestBody.required
         case Some(v) =>
           && Valid(a, scope, d, schema, v)
           && (plan.body.Some? && plan.body.value.mode.Merged? ==>
               v.Obj? && UsesOnly(v.fields, plan.body.value.fields)))
      case _ => false
  }

  lemma ParametersAccepted(a: Assertions, scope: Scope, d: Dialect, plan: Plan, given: Given)
    requires WellRanked(scope) && WellFormed(plan) && plan.body.None? && GivenFits(a, scope, d, plan, given)
    ensures Accepts(a, scope, d, plan, Pack(plan, given, None))
  {
    hide WellFormed, WellRanked, Valid, GivenFits, FindParam, FindField, SlotOf;
    var arguments := Pack(plan, given, None);
    forall x | x in arguments
      ensures x in plan.properties && Valid(a, scope, d, plan.properties[x], arguments[x])
    {
      ParameterNamed(plan, x);
      var i :| 0 <= i < |plan.parameters| && plan.parameters[i].argument == x;
      ParameterAccepted(a, scope, d, plan, plan, given, None, i);
    }
    RequiredGiven(a, scope, d, plan, plan, given, None);
  }

  lemma PackedAccepted(a: Assertions, scope: Scope, d: Dialect, text: TextRules, op: Operation, plan: Plan,
                       parameters: Plan, given: Given, body: Option<Json>)
    requires WellRanked(scope) && Plans(scope, text, op, plan, parameters)
    requires op.body.Some? ==> BodyIsDict(scope, text, op.body.value)
    requires GivenFits(a, scope, d, parameters, given) && BodyGiven(a, scope, d, text, op, plan, body)
    ensures Accepts(a, scope, d, plan, Pack(plan, given, body))
  {
    hide WellRanked, WellFormed, Holds, VariablesDeclared, Pieces, Valid, GivenFits, Pack, Accepts, ObjectFields,
      MediaOf, Renamed, DistinctTexts, UsesOnly, AddsFields;
    match op.body
    case None => ParametersAccepted(a, scope, d, plan, given);
    case Some(requestBody) =>
      var (media, declared) := MediaOf(text, requestBody.content).value;
      var schema := declared.value;
      match ObjectFields(scope, schema, 0)
      case None => WholeAccepted(a, scope, d, schema, parameters, plan, media, requestBody.required, given, body);
      case Some(flat) =>
        MergedShape(parameters, plan, flat, media, requestBody.required);
        match body {
          case None => BodylessAccepted(a, scope, d, flat, parameters, plan, media, given);
          case Some(v) =>
            MergedAccepted(a, scope, d, schema, parameters, plan, media, requestBody.required, given, v.fields);
        }
  }

  lemma MergedShape(before: Plan, plan: Plan, flat: Flat, media: string, required: bool)
    requires AddsMerged(before, plan, flat, media, required)
    ensures plan.body.Some? && plan.body.value.mode.Merged?
  {
  }

  /** A tool for an operation: its plan, and an argument schema that accepts exactly the closed
      objects of the plan's properties as the document means them. */
  ghost predicate Serves(unquote: Unquote, document: Json, e: map<Pointer, nat>, d: Dialect, names: Names,
                         text: TextRules, op: Operation, plan: Plan, parameters: Plan, schema: Json)
  {
    && WellFormed(plan)
    && AcceptsClosed(unquote, document, e, d, names, schema, PropertyList(plan), Strings(plan.required))
    && NoneLeft(unquote, document, names, schema, PropertyList(plan), Strings(plan.required))
    && var src := SourceScope(unquote, document, e);
    && Plans(src, text, op, plan, parameters)
    && (op.body.Some? ==> BodyIsDict(src, text, op.body.value))
  }

  /** What a caller wants to send is what the API takes. */
  ghost predicate ApiTakes(a: Assertions, scope: Scope, d: Dialect, text: TextRules, op: Operation, plan: Plan,
                           parameters: Plan, given: Given, body: Option<Json>)
    requires WellRanked(scope)
  {
    GivenFits(a, scope, d, parameters, given) && BodyGiven(a, scope, d, text, op, plan, body)
  }

  /** The tool's schema, read in its own bundle, takes an object. */
  ghost predicate ToolTakes(a: Assertions, unquote: Unquote, document: Json, e: map<Pointer, nat>, d: Dialect,
                            names: Names, schema: Json, v: Json)
    requires Standing(unquote, document, e, d, names, schema)
  {
    Valid(a, BundleOf(names, d, SourceScope(unquote, document, e)), V31, schema, v)
  }

  lemma ClosedIsTaken(a: Assertions, unquote: Unquote, document: Json, e: map<Pointer, nat>, d: Dialect, names: Names,
                      schema: Json, properties: Fields, required: seq<Json>, v: Json)
    requires AcceptsClosed(unquote, document, e, d, names, schema, properties, required)
    ensures ToolTakes(a, unquote, document, e, d, names, schema, v) <==>
            ClosedObject(a, SourceScope(unquote, document, e), d, properties, required, v)
  {
    hide Valid, ClosedObject, BundleOf, SourceScope, Resolvable, Closed, Injective, ConvRefs, Resolve, WellRanked;
  }

  /** Whatever the API takes for an operation, the served tool takes: parameters that fit and a
      body valid in the spec, packed into an object in any order, are valid under the tool's own
      2020-12 schema. */
  lemma ToolTakesWhatApiTakes(a: Assertions, unquote: Unquote, document: Json, e: map<Pointer, nat>, d: Dialect,
                              names: Names, text: TextRules, op: Operation, plan: Plan, parameters: Plan, schema: Json,
                              given: Given, body: Option<Json>, order: seq<string>)
    requires Serves(unquote, document, e, d, names, text, op, plan, parameters, schema)
    requires ApiTakes(a, SourceScope(unquote, document, e), d, text, op, plan, parameters, given, body)
    requires Lists(order, Pack(plan, given, body))
    ensures ToolTakes(a, unquote, document, e, d, names, schema, Obj(AsFields(order, Pack(plan, given, body))))
  {
    hide WellFormed, WellRanked, PropertyList, Strings, Plans, BodyIsDict, GivenFits, BodyGiven, Pack,
      SourceScope, AsFields, ClosedObject, Accepts, Resolvable, Closed, Injective, ConvRefs, Resolve, ToolTakes,
        BundleOf;
    var src := SourceScope(unquote, document, e);
    var arguments := Pack(plan, given, body);
    PackedAccepted(a, src, d, text, op, plan, parameters, given, body);
    ClosedIsAccepts(a, src, d, plan, arguments, order);
    ClosedIsTaken(a, unquote, document, e, d, names, schema, PropertyList(plan), Strings(plan.required),
                  Obj(AsFields(order, arguments)));
  }

  // ------------------------------------------------------------ an operation of the document

  /** Every schema of the operation stands in the document. */
  ghost predicate StandsIn(document: Json, op: Operation) {
    && (forall p :: p in op.pathLevel || p in op.own ==> p.schema.Some? ==> IsPart(document, p.schema.value))
    && (op.body.Some? ==> forall m :: m in op.body.value.content ==> m.1.Some? ==> IsPart(document, m.1.value))
  }

  lemma {:induction false} FirstJsonIsOne(text: TextRules, content: seq<(string, Option<Json>)>)
    ensures FirstJson(text, content).Some? ==> FirstJson(text, content).value in content
  {
    if |content| > 0 {
      FirstJsonIsOne(text, content[1..]);
    }
  }

  lemma {:induction false} FormIsOne(content: seq<(string, Option<Json>)>)
    ensures FormOf(content).Some? ==> FormOf(content).value in content
  {
    if |content| > 0 {
      FormIsOne(content[1..]);
    }
  }

  lemma MediaIsOne(text: TextRules, content: seq<(string, Option<Json>)>)
    ensures MediaOf(text, content).Some? ==> MediaOf(text, content).value in content
  {
    hide FirstJson, FormOf;
    FirstJsonIsOne(text, content);
    FormIsOne(content);
  }

  /** The schema of the body as it will be sent. */
  function BodySchema(text: TextRules, body: RequestBody): Option<Json> {
    var media := MediaOf(text, body.content);
    if media.Some? then media.value.1 else None
  }

  lemma BodySchemaIsPart(document: Json, text: TextRules, op: Operation)
    requires StandsIn(document, op) && op.body.Some? && BodySchema(text, op.body.value).Some?
    ensures IsPart(document, BodySchema(text, op.body.value).value)
  {
    hide IsPart, MediaOf;
    MediaIsOne(text, op.body.value.content);
  }

  /** The flattened body of an operation of the document is a dictionary of its parts. */
  lemma BodyParts(document: Json, scope: Scope, text: TextRules, op: Operation)
    requires WellRanked(scope) && TargetsAreParts(document, scope) && AllDicts(document) && StandsIn(document, op) &&
             op.body.Some?
    ensures BodyIsDict(scope, text, op.body.value)
    ensures var schema := BodySchema(text, op.body.value);
            schema.Some? && ObjectFields(scope, schema.value, 0).Some? ==>
              PartsDict(document, ObjectFields(scope, schema.value, 0).value.properties)
  {
    hide WellRanked, TargetsAreParts, AllDicts, IsPart, ObjectFields, MediaOf, DistinctTexts, IsDict, StandsIn;
    var schema := BodySchema(text, op.body.value);
    if schema.Some? && ObjectFields(scope, schema.value, 0).Some? {
      BodySchemaIsPart(document, text, op);
      FlattenedParts(document, scope, schema.value, 0);
      DictTexts(ObjectFields(scope, schema.value, 0).value.properties);
    }
  }

  lemma MergedIsDeclared(ps: seq<Param>, p: Param)
    requires p in MergeAll(ps)
    ensures p in ps
  {
    hide MergeAll;
    LastDeclaredWins(ps);
    assert LastOfSlot(ps, p);
  }

  /** Each parameter's schema in the plan is the one the document declares. */
  lemma ParameterParts(document: Json, scope: Scope, text: TextRules, op: Operation, parameters: Plan, x: string)
    requires WellRanked(scope) && StandsIn(document, op)
    requires WellFormed(parameters) && parameters.body.None? && x in parameters.properties
    requires Holds(scope, text, MergeAll(op.pathLevel + op.own), parameters)
    ensures IsPart(document, parameters.properties[x])
  {
    hide WellRanked, WellFormed, IsPart, MergeAll, FateOf;
    var ps := MergeAll(op.pathLevel + op.own);
    ParameterNamed(parameters, x);
    var k :| 0 <= k < |parameters.parameters| && parameters.parameters[k].argument == x;
    assert ComesFrom(scope, text, ps, parameters.parameters[k]);
    var i :| 0 <= i < |ps| && Own(scope, text, ps[i]).Accept? &&
      Own(scope, text, ps[i]).plan == parameters.parameters[k];
    assert Keeps(scope, text, ps[i], parameters);
    assert ps[i] in ps;
    MergedIsDeclared(op.pathLevel + op.own, ps[i]);
    assert ps[i].name == x && ps[i].schema == Some(parameters.properties[x]);
  }

  /** Every property of an operation's plan stands in the document. */
  lemma PlanParts(document: Json, scope: Scope, text: TextRules, op: Operation, plan: Plan, parameters: Plan, x: string)
    requires WellRanked(scope) && TargetsAreParts(document, scope) && AllDicts(document) && StandsIn(document, op)
    requires Plans(scope, text, op, plan, parameters) && x in plan.properties
    ensures IsPart(document, plan.properties[x])
  {
    hide WellRanked, TargetsAreParts, AllDicts, IsPart, ObjectFields, MediaOf, WellFormed, Holds, VariablesDeclared,
      Pieces, IsDict, Renamed, Args, BodyIsDict, StandsIn;
    if x in parameters.properties {
      ParameterParts(document, scope, text, op, parameters, x);
    }
    if op.body.Some? {
      BodyParts(document, scope, text, op);
      BodySchemaIsPart(document, text, op);
      var schema := BodySchema(text, op.body.value).value;
      if ObjectFields(scope, schema, 0).Some? && x !in parameters.properties {
        var fields := plan.body.value.fields;
        var i :| 0 <= i < |Args(fields)| && Args(fields)[i] == x;
      }
    }
  }

  // ------------------------------------------------------------ serving it

  /** The refs of a document with what they lead to, from the sites the check collected. */
  function ScopeOf(unquote: Unquote, document: Json, sites: seq<string>, e: map<Pointer, nat>): (r: Scope)
    requires Resolvable(unquote, document)
    ensures sites == Sites(document) ==> r == SourceScope(unquote, document, e)
  {
    hide Sites, Resolve, PointerOr;
    Scope(map ref | ref in sites && Resolve(unquote, document, ref).Some? :: Resolve(unquote, document, ref).value,
          map ref | ref in sites && Resolve(unquote, document, ref).Some? :: RefGraph.Count(e, PointerOr(unquote, ref)))
  }

  /** Makes a tool of an operation of the document: exactly when the document passes the ref check
      and the operation is supported, and then the tool serves the operation. */
  method ServeOperation(unquote: Unquote, text: TextRules, document: Json, d: Dialect, op: Operation)
    returns (r: Option<(Plan, Json)>, ghost e: map<Pointer, nat>, ghost names: Names, ghost parameters: Plan)
    requires forall s: string :: '%' !in s ==> unquote(s) == s
    requires AllDicts(document) && StandsIn(document, op)
    ensures r.Some? ==>
              IsChecked(unquote, document) && WellFormed(r.value.0) &&
              VariablesDeclared(Pieces(op.path, 0), r.value.0.parameters)
    ensures IsChecked(unquote, document) ==> IsExpansion(EdgesOf(unquote, document), e)
    ensures r.Some? <==>
              IsChecked(unquote, document) && WellRanked(SourceScope(unquote, document, e)) &&
              Supported(SourceScope(unquote, document, e), text, op)
    ensures r.Some? ==> Serves(unquote, document, e, d, names, text, op, r.value.0, parameters, r.value.1)
  {
    hide IsChecked, IsExpansion, Sites, WellRanked, AllDicts, StandsIn, SourceScope, Supported, Plans, WellFormed,
      ConvRefs, AcceptsClosed, PropertyList, Strings, BodyIsDict, Resolvable, TargetsAreParts, MeansTheSame, ScopeOf,
      VariablesDeclared, Pieces;
    e, names, parameters := map[], map[], Plan([], None, map[], []);
    var verdict := CheckRefs(unquote, document);
    if verdict.Refused? {
      return None, e, names, parameters;
    }
    e := verdict.expansion;
    CheckedIsResolvable(unquote, document);
    SourceWellRanked(unquote, document, e);
    SourceTargetsAreParts(unquote, document, e);
    var sites := CollectRefSites(document);
    CheckedCollects(unquote, document);
    var scope := ScopeOf(unquote, document, sites.value, verdict.expansion);
    if op.body.Some? {
      BodyParts(document, scope, text, op);
    }
    var plan, unsupported, dropped, before := OperationPlan(scope, text, op);
    parameters := before;
    if unsupported != [] {
      return None, e, names, parameters;
    }
    var properties := PropertyList(plan);
    PlansDeclare(scope, text, op, plan, parameters);
    PropertiesHoldSites(document, scope, text, d, op, plan, parameters);
    var schema, converted, given, expansion :=
      BuildInputSchema(unquote, document, d, properties, Strings(plan.required));
    names := given;
    ExpansionUnique(EdgesOf(unquote, document), e, expansion);
    return Some((plan, schema.value)), e, names, parameters;
  }

  lemma PlansDeclare(scope: Scope, text: TextRules, op: Operation, plan: Plan, parameters: Plan)
    requires WellRanked(scope) && Plans(scope, text, op, plan, parameters)
    ensures VariablesDeclared(Pieces(op.path, 0), plan.parameters)
  {
  }

  lemma CheckedCollects(unquote: Unquote, document: Json)
    requires IsChecked(unquote, document)
    ensures NeverRebases(document)
  {
  }

  lemma PropertiesHoldSites(document: Json, scope: Scope, text: TextRules, d: Dialect, op: Operation, plan: Plan,
                            parameters: Plan)
    requires WellRanked(scope) && TargetsAreParts(document, scope) && AllDicts(document) && StandsIn(document, op)
    requires Plans(scope, text, op, plan, parameters) && WellFormed(plan)
    ensures forall i, ref :: 0 <= i < |PropertyList(plan)| && ref in ConvRefs(d, PropertyList(plan)[i].1) ==>
            ref in Sites(document)
  {
    hide WellRanked, TargetsAreParts, AllDicts, StandsIn, Plans, ConvRefs, Sites, IsPart, KeyOf, AllNames;
    var properties := PropertyList(plan);
    forall i, ref | 0 <= i < |properties| && ref in ConvRefs(d, properties[i].1)
      ensures ref in Sites(document)
    {
      var x := AllNames(plan)[i];
      assert x in AllNames(plan);
      PlanParts(document, scope, text, op, plan, parameters, x);
      PartConvRefs(d, document, plan.properties[x], ref);
    }
  }

  // ------------------------------------------------------------ calling it

  /** The body that is sent is the one that was meant: as it is when whole, key by key when
      merged. Without one, an empty object is sent where a merged body is required. */
  ghost predicate BodySent(dump: Json -> string, plan: Option<BodyPlan>, body: Option<Json>, content: Option<Content>,
                           contentType: Option<string>)
  {
    match plan
    case None => content.None? && contentType.None?
    case Some(BodyPlan(media, Whole, _, _)) =>
      if body.None? then content.None? && contentType.None?
      else PayloadSent(dump, media, body.value, content, contentType)
    case Some(BodyPlan(media, Merged, fields, required)) =>
      if body.None? then
        (if required then PayloadSent(dump, media, Obj([]), content, contentType)
         else content.None? && contentType.None?)
      else body.value.Obj? && UsesOnly(body.value.fields, fields) ==>
        if body.value.fields == [] && !required then content.None? && contentType.None?
        else exists sent ::
          SameFields(sent, body.value.fields) && DistinctTexts(sent) &&
          PayloadSent(dump, media, Obj(sent), content, contentType)
  }

  /** What goes out stands for the payload, under its own media type. */
  ghost predicate PayloadSent(dump: Json -> string, media: string, payload: Json, content: Option<Content>,
                              contentType: Option<string>)
  {
    content.Some? && ContentReads(dump, media, payload, content.value) && contentType == Some(media)
  }

  /** A request made of what was given: refused only for a control character in a header or an
      empty path value, and otherwise each value in its own place and the body as meant. */
  ghost predicate Sends(dump: Json -> string, template: string, plan: Plan, given: Given, body: Option<Json>,
                        r: Built) {
    var pieces := Pieces(template, 0);
    var placed: Source := p => SlotValue(given, p);
    && (r.ControlCharacters? <==>
        exists i :: 0 <= i < |plan.parameters| && HeaderRefused(dump, plan.parameters[i], placed))
    && !r.NoSuchVariable?
    && (!r.ControlCharacters? ==>
          (r.Request? <==> forall i :: 0 <= i < |pieces| && pieces[i].Variable? ==> PlaceFilled(given, pieces[i].name)))
    && (r.Request? ==>
          && r.query == QueryOf(dump, plan.parameters, placed)
          && r.headers == HeadersOf(dump, plan.parameters, placed)
          && Path(r.path) == PathOf(dump, pieces, PathValues(plan.parameters, placed))
          && Readable(dump, plan, placed, r.query, r.headers)
          && (forall h :: h in r.headers ==> CleanText(h.1))
          && BodySent(dump, plan.body, body, r.content, r.contentType))
  }

  lemma {:induction false} NeverUndeclared(dump: Json -> string, pieces: seq<Piece>, values: Values)
    requires forall i :: 0 <= i < |pieces| && pieces[i].Variable? ==> pieces[i].name in values
    ensures !PathOf(dump, pieces, values).Undeclared?
  {
    hide Region;
    if |pieces| > 0 {
      NeverUndeclared(dump, pieces[1..], values);
    }
  }

  lemma DeclaredValues(pieces: seq<Piece>, plan: Plan, given: Given)
    requires WellFormed(plan) && VariablesDeclared(pieces, plan.parameters)
    ensures forall i :: 0 <= i < |pieces| && pieces[i].Variable? ==>
              pieces[i].name in PathValues(plan.parameters, p => SlotValue(given, p))
  {
    hide WellFormed, PathValues, Declares;
    forall i | 0 <= i < |pieces| && pieces[i].Variable?
      ensures pieces[i].name in PathValues(plan.parameters, p => SlotValue(given, p))
    {
      VariableGiven(plan, given, p => SlotValue(given, p), pieces[i].name);
    }
  }

  lemma BodyIsSent(dump: Json -> string, plan: Plan, given: Given, body: Option<Json>, content: Option<Content>,
                   contentType: Option<string>)
    requires WellFormed(plan)
    requires match PayloadOf(plan.body, Pack(plan, given, body))
             case None => content.None? && contentType.None?
             case Some(payload) =>
               && plan.body.Some?
               && content == Some(ContentOf(dump, plan.body.value.media, payload))
               && contentType == Some(plan.body.value.media)
    ensures BodySent(dump, plan.body, body, content, contentType)
  {
    hide WellFormed, Pack, ContentOf, ContentReads, SameFields, UsesOnly, PayloadFields, DistinctTexts;
    var found := PayloadOf(plan.body, Pack(plan, given, body));
    if found.Some? {
      ContentOfReads(dump, plan.body.value.media, found.value);
    }
    if plan.body.None? {
      NoPlanNoPayload(Pack(plan, given, body));
    } else if plan.body.value.mode.Whole? {
      WholeBodyRecovered(plan, given, body);
    } else if body.None? {
      NoBodyMerged(plan, given);
    } else if body.value.Obj? && UsesOnly(body.value.fields, plan.body.value.fields) {
      MergedBodyRecovered(plan, given, body.value.fields);
      FieldsDistinct(plan);
      PayloadDistinct(plan.body.value.fields, Pack(plan, given, body));
      assert body == Some(Obj(body.value.fields));
      var payload := PayloadOf(plan.body, Pack(plan, given, body));
      if payload.Some? {
        assert payload.value == Obj(payload.value.fields);
      }
    }
  }

  lemma FieldsDistinct(plan: Plan)
    requires WellFormed(plan) && plan.body.Some?
    ensures var fields := plan.body.value.fields;
            forall i, j :: 0 <= i < j < |fields| ==> fields[i].1.Text() != fields[j].1.Text()
  {
  }

  lemma {:induction false} HeadersClean(dump: Json -> string, ps: seq<ParameterPlan>, value: Source)
    requires forall i :: 0 <= i < |ps| ==> !HeaderRefused(dump, ps[i], value)
    ensures forall h :: h in HeadersOf(dump, ps, value) ==> CleanText(h.1)
    decreases |ps|
  {
    hide Joined, HasControl, CleanText;
    if |ps| > 0 {
      HeadersClean(dump, ps[..|ps| - 1], value);
      var p := ps[|ps| - 1];
      if value(p).Some? {
        ControlIff(Joined(dump, value(p).value));
      }
    }
  }

  lemma {:induction false} NothingPacked(fields: seq<(string, Key)>, arguments: ToolArguments)
    requires forall i :: 0 <= i < |fields| ==> fields[i].0 !in arguments
    ensures PayloadFields(fields, arguments) == []
  {
    if |fields| > 0 {
      NothingPacked(fields[1..], arguments);
    }
  }

  lemma NoBodyMerged(plan: Plan, given: Given)
    requires WellFormed(plan) && plan.body.Some? && plan.body.value.mode.Merged?
    ensures PayloadOf(plan.body, Pack(plan, given, None)) == if plan.body.value.required then Some(Obj([])) else None
  {
    hide WellFormed, FindParam, FindField, PayloadFields;
    var fields := BodyFields(plan.body);
    forall i | 0 <= i < |fields|
      ensures fields[i].0 !in Pack(plan, given, None)
    {
      FieldFound(plan, i);
    }
    NothingPacked(fields, Pack(plan, given, None));
  }

  lemma NoPlanNoPayload(arguments: ToolArguments)
    ensures PayloadOf(None, arguments) == None
  {
  }

  lemma SameRefusals(dump: Json -> string, plan: Plan, given: Given, body: Option<Json>, i: nat)
    requires WellFormed(plan) && i < |plan.parameters|
    ensures HeaderRefused(dump, plan.parameters[i], p => Sent(Pack(plan, given, body), p)) <==>
            HeaderRefused(dump, plan.parameters[i], p => SlotValue(given, p))
  {
    hide WellFormed, Pack, HasControl, Joined;
    SentToItsSlot(plan, given, body, i);
  }

  /** Calls a planned operation with values for its places and a body. */
  method CallPlanned(dump: Json -> string, template: string, plan: Plan, given: Given,
                     body: Option<Json>) returns (r: Built)
    requires WellFormed(plan) && VariablesDeclared(Pieces(template, 0), plan.parameters)
    ensures Sends(dump, template, plan, given, body, r)
  {
    hide WellFormed, Pack, PathOf, QueryOf, HeadersOf, PathValues, PayloadOf, ContentOf, HeaderRefused, Pieces,
      PlaceFilled, VariablesDeclared, BodySent, Readable, CleanText;
    var arguments := Pack(plan, given, body);
    r := BuildRequest(dump, template, plan, arguments);
    forall i | 0 <= i < |plan.parameters|
      ensures HeaderRefused(dump, plan.parameters[i], p => Sent(arguments, p)) <==>
              HeaderRefused(dump, plan.parameters[i], p => SlotValue(given, p))
    {
      SameRefusals(dump, plan, given, body, i);
    }
    EachToItsSlot(dump, plan, given, body);
    PathBuiltIff(dump, Pieces(template, 0), plan, given, body);
    DeclaredValues(Pieces(template, 0), plan, given);
    NeverUndeclared(dump, Pieces(template, 0), PathValues(plan.parameters, p => SlotValue(given, p)));
    if r.Request? {
      RequestReads(dump, plan, p => SlotValue(given, p));
      HeadersClean(dump, plan.parameters, p => SlotValue(given, p));
      BodyThere(plan.body, arguments);
      BodyIsSent(dump, plan, given, body, r.content, r.contentType);
    }
  }

  /** From an operation to a request in one go: there is one exactly when the operation is
      supported, and it carries what was given. */
  method CallOperation(dump: Json -> string, scope: Scope, text: TextRules, op: Operation, given: Given,
                       body: Option<Json>)
    returns (r: Option<Built>, ghost plan: Plan, ghost parameters: Plan)
    requires WellRanked(scope) && (op.body.Some? ==> BodyIsDict(scope, text, op.body.value))
    ensures r.Some? <==> Supported(scope, text, op)
    ensures r.Some? ==> Plans(scope, text, op, plan, parameters) && Sends(dump, op.path, plan, given, body, r.value)
  {
    hide WellRanked, BodyIsDict, Supported, WellFormed, Sends, Holds, VariablesDeclared, Pieces, AddsBody;
    var made, unsupported, dropped, before := OperationPlan(scope, text, op);
    plan, parameters := made, before;
    if unsupported != [] {
      return None, plan, parameters;
    }
    var built := CallPlanned(dump, op.path, made, given, body);
    return Some(built), plan, parameters;
  }
}
