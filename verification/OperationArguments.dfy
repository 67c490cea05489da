/** An operation's parameters and body as the arguments of one tool. */
module OperationArguments {
  import opened JsonValues
  import opened Schemas
  import opened ValidityFacts
  import opened Flattening

  datatype Location = InPath | InQuery | InHeader | InCookie | Elsewhere(name: string)

  datatype Style = Form | Simple | OtherStyle(name: string)

  /** A parameter object, refs resolved. */
  datatype Param = Param(name: string, location: Location, style: Option<Style>, explode: Option<bool>,
                         required: bool, hasContent: bool, schema: Option<Json>)

  /** A request body, refs resolved: each media type with its schema, if it has one. */
  datatype RequestBody = RequestBody(content: seq<(string, Option<Json>)>, required: bool)

  datatype ParameterPlan = ParameterPlan(argument: string, name: string, location: Location, explode: bool)

  datatype Mode = Whole | Merged

  datatype BodyPlan = BodyPlan(media: string, mode: Mode, fields: seq<(string, Key)>, required: bool)

  datatype Reason =
    | CookieParameter(name: string)
    | HubHeader(name: string)
    | UnknownLocation(name: string)
    | ContentSerialization(name: string)
    | UnknownStyle(name: string)
    | ObjectValue(name: string)
    | NestedArray(name: string)
    | SameName(name: string)
    | NoLeadingSlash
    | DotSegment
    | PercentOrBackslash
    | NoPathParameter(variable: string)
    | NoBodyMedia
    | NoBodySchema
    | FormNotObject
    | BodyCollision(property: string)

  const FORM_MEDIA := "application/x-www-form-urlencoded"

  const HUB_HEADERS: set<string> :=
    { "authorization", "proxy-authorization", "cookie", "host", "content-length", "content-type",
      "transfer-encoding", "connection", "keep-alive", "te", "trailer", "upgrade", "proxy-connection",
      "forwarded", "x-original-url", "x-rewrite-url", "x-http-method-override", "x-http-method",
      "x-method-override", "x-real-ip", "via", "origin" }

  /** Text matters only through these: how names are lowered, and which media types are JSON. */
  datatype TextRules = TextRules(lower: string -> string, isJson: string -> bool)

  // ------------------------------------------------------------ merged parameters

  predicate SameSlot(p: Param, q: Param) {
    p.name == q.name && p.location == q.location
  }

  /** `p` in the place of the parameter with its name and location, or at the end. */
  function Place(ps: seq<Param>, p: Param): seq<Param> {
    if |ps| == 0 then [p]
    else if SameSlot(ps[0], p) then [p] + ps[1..]
    else [ps[0]] + Place(ps[1..], p)
  }

  function MergeAll(ps: seq<Param>): seq<Param> {
    if |ps| == 0 then [] else Place(MergeAll(ps[..|ps| - 1]), ps[|ps| - 1])
  }

  method MergedParameters(pathLevel: seq<Param>, own: seq<Param>) returns (r: seq<Param>)
    ensures r == MergeAll(pathLevel + own)
  {
    var all := pathLevel + own;
    r := [];
    for i := 0 to |all|
      invariant r == MergeAll(all[..i])
    {
      assert all[..i + 1][..i] == all[..i];
      r := Place(r, all[i]);
    }
    assert all[..|all|] == all;
  }

  ghost predicate SlotsDistinct(ps: seq<Param>) {
    forall i, j :: 0 <= i < j < |ps| ==> !SameSlot(ps[i], ps[j])
  }

  /** `p` is in `ps`, and nothing after it has its slot. */
  ghost predicate LastOfSlot(ps: seq<Param>, p: Param) {
    exists i :: 0 <= i < |ps| && ps[i] == p && forall j :: i < j < |ps| ==> !SameSlot(ps[j], p)
  }

  lemma {:induction false} PlaceKeeps(ps: seq<Param>, p: Param)
    requires SlotsDistinct(ps)
    ensures SlotsDistinct(Place(ps, p))
    ensures forall q :: q in Place(ps, p) <==> q == p || (q in ps && !SameSlot(q, p))
  {
    if |ps| > 0 {
      var rest := ps[1..];
      assert ps == [ps[0]] + rest;
      if SameSlot(ps[0], p) {
        assert forall i :: 0 <= i < |rest| ==> rest[i] == ps[i + 1];
      } else {
        PlaceKeeps(rest, p);
        var placed := Place(rest, p);
        forall i | 0 <= i < |placed|
          ensures !SameSlot(ps[0], placed[i])
        {
          assert placed[i] in placed;
          if placed[i] != p {
            var j :| 0 <= j < |rest| && rest[j] == placed[i];
            assert ps[j + 1] == rest[j];
          }
        }
      }
    }
  }

  /** One parameter per name and location, and the one declared last: an operation's own
      parameter replaces the one of its path. */
  lemma {:induction false} LastDeclaredWins(ps: seq<Param>)
    ensures SlotsDistinct(MergeAll(ps))
    ensures forall p :: p in MergeAll(ps) <==> LastOfSlot(ps, p)
    decreases |ps|
  {
    if |ps| > 0 {
      var init, last := ps[..|ps| - 1], ps[|ps| - 1];
      LastDeclaredWins(init);
      PlaceKeeps(MergeAll(init), last);
      forall p: Param
        ensures LastOfSlot(ps, p) <==> p == last || (LastOfSlot(init, p) && !SameSlot(p, last))
      {
        LastOfSlotStep(ps, p);
      }
    }
  }

  lemma LastOfSlotStep(ps: seq<Param>, p: Param)
    requires |ps| > 0
    ensures var init, last := ps[..|ps| - 1], ps[|ps| - 1];
            LastOfSlot(ps, p) <==> p == last || (LastOfSlot(init, p) && !SameSlot(p, last))
  {
    var init, last := ps[..|ps| - 1], ps[|ps| - 1];
    if p == last {
      assert ps[|ps| - 1] == p;
    } else {
      if LastOfSlot(init, p) && !SameSlot(p, last) {
        var i :| 0 <= i < |init| && init[i] == p && forall j :: i < j < |init| ==> !SameSlot(init[j], p);
        assert ps[i] == p && forall j :: i < j < |ps| ==> !SameSlot(ps[j], p);
      }
      if LastOfSlot(ps, p) {
        var i :| 0 <= i < |ps| && ps[i] == p && forall j :: i < j < |ps| ==> !SameSlot(ps[j], p);
        assert init[i] == p && forall j :: i < j < |init| ==> !SameSlot(init[j], p);
      }
    }
  }

  // ------------------------------------------------------------ one parameter

  /** A schema for objects, and one for arrays. */
  predicate IsObjectSchema(s: Json) {
    Member(s, KType) == Some(Str("object")) || (Member(s, KType) in {None, Some(Null)} && Has(s, KProperties))
  }

  predicate IsArraySchema(s: Json) {
    Member(s, KType) == Some(Str("array"))
  }

  function DefaultStyle(location: Location): Style {
    if location.InQuery? then Form else Simple
  }

  function StyleOf(p: Param): Style {
    if p.style.Some? then p.style.value else DefaultStyle(p.location)
  }

  function ParameterProblem(scope: Scope, p: Param): (r: Option<Reason>)
    requires WellRanked(scope)
    ensures r.None? ==> p.schema.Some?
  {
    if p.hasContent || p.schema.None? then Some(ContentSerialization(p.name))
    else if StyleOf(p) != DefaultStyle(p.location) then Some(UnknownStyle(p.name))
    else
      var value := Dereferenced(scope, p.schema.value);
      if !value.Obj? then None
      else if IsObjectSchema(value) then Some(ObjectValue(p.name))
      else if IsArraySchema(value) && Has(value, KItems) &&
              IsArraySchema(Dereferenced(scope, Member(value, KItems).value)) then Some(NestedArray(p.name))
      else None
  }

  ghost predicate HasType(s: Json, kind: string) {
    Has(s, KType) && Member(s, KType).value == Str(kind)
  }

  ghost predicate Untyped(s: Json) {
    Has(s, KType) ==> Member(s, KType).value == Null
  }

  /** A parameter can be an argument exactly when it is given by a schema, in the default style
      of its place, and its value is no object and no array of arrays. */
  lemma ParameterFineIff(scope: Scope, p: Param)
    requires WellRanked(scope) && p.location in {InPath, InQuery, InHeader}
    ensures ParameterProblem(scope, p).None? <==>
            && p.schema.Some? && !p.hasContent
            && (p.style.Some? ==> p.style.value == if p.location == InQuery then Form else Simple)
            && var v := Dereferenced(scope, p.schema.value);
               v.Obj? ==>
                 && !HasType(v, "object")
                 && (Untyped(v) ==> !Has(v, KProperties))
                 && (HasType(v, "array") && Has(v, KItems) ==>
                       !HasType(Dereferenced(scope, Member(v, KItems).value), "array"))
  {
    hide WellRanked, Dereferenced, Get;
  }

  predicate HubsOwn(text: TextRules, p: Param) {
    p.location.InHeader? && (text.lower(p.name) in HUB_HEADERS || "x-forwarded-" <= text.lower(p.name))
  }

  /** What becomes of a parameter, given the names already taken. */
  datatype Fate = Drop(reason: Reason) | Refuse(reason: Reason) | Accept(plan: ParameterPlan, schema: Json)

  function FateOf(scope: Scope, text: TextRules, taken: set<string>, p: Param): (r: Fate)
    requires WellRanked(scope)
    ensures r.Accept? ==> p.name !in taken && p.location in {InPath, InQuery, InHeader} && !HubsOwn(text, p)
    ensures r.Accept? ==> r.plan.argument == p.name && r.plan.name == p.name && r.plan.location == p.location
    ensures r.Accept? ==> p.schema == Some(r.schema)
  {
    if p.location.InCookie? then Drop(CookieParameter(p.name))
    else if p.location.Elsewhere? then Refuse(UnknownLocation(p.name))
    else if HubsOwn(text, p) then Drop(HubHeader(p.name))
    else if ParameterProblem(scope, p).Some? then Refuse(ParameterProblem(scope, p).value)
    else if p.name in taken then Refuse(SameName(p.name))
    else
      var explode := if p.explode.Some? then p.explode.value else StyleOf(p).Form?;
      Accept(ParameterPlan(p.name, p.name, p.location, explode), p.schema.value)
  }

  // ------------------------------------------------------------ the body

  /** The argument name of a body property: its own, or `body_<name>` when a parameter has it. */
  function ArgumentFor(taken: set<string>, body: set<string>, name: string): (r: Option<string>)
    ensures r.Some? ==> r.value !in taken
    ensures r.Some? ==> r.value == name || (r.value == "body_" + name && r.value !in body)
    ensures r.None? <==> name in taken && ("body_" + name in taken || "body_" + name in body)
  {
    if name !in taken then Some(name)
    else if "body_" + name in taken || "body_" + name in body then None
    else Some("body_" + name)
  }

  function KeyTexts(fields: Fields): (r: set<string>)
    ensures forall i :: 0 <= i < |fields| ==> fields[i].0.Text() in r
    ensures forall t :: t in r ==> exists i :: 0 <= i < |fields| && fields[i].0.Text() == t
  {
    set i | 0 <= i < |fields| :: fields[i].0.Text()
  }

  ghost predicate DistinctTexts(fields: Fields) {
    forall i, j :: 0 <= i < j < |fields| ==> fields[i].0.Text() != fields[j].0.Text()
  }

  /** The arguments given to the properties of a merged body, if every one can have one. */
  function Renamed(taken: set<string>, properties: Fields, n: nat): (r: Option<seq<(string, Key)>>)
    requires n <= |properties|
    ensures r.Some? ==> |r.value| == n
    ensures r.Some? ==> forall i :: 0 <= i < n ==>
              r.value[i].1 == properties[i].0 &&
              ArgumentFor(taken, KeyTexts(properties), properties[i].0.Text()) == Some(r.value[i].0)
    ensures r.None? ==> exists i :: 0 <= i < n && ArgumentFor(taken, KeyTexts(properties), properties[i].0.Text()).None?
  {
    if n == 0 then Some([])
    else match Renamed(taken, properties, n - 1)
      case None => None
      case Some(before) =>
        match ArgumentFor(taken, KeyTexts(properties), properties[n - 1].0.Text())
        case None => None
        case Some(argument) => Some(before + [(argument, properties[n - 1].0)])
  }

  function Args(fields: seq<(string, Key)>): (r: seq<string>)
    ensures |r| == |fields| && forall i :: 0 <= i < |r| ==> r[i] == fields[i].0
  {
    seq(|fields|, i requires 0 <= i < |fields| => fields[i].0)
  }

  ghost predicate Distinct(xs: seq<string>) {
    forall i, j :: 0 <= i < j < |xs| ==> xs[i] != xs[j]
  }

  /** Renaming never makes two body properties meet, and never makes one meet a parameter. */
  lemma RenamedDistinct(taken: set<string>, properties: Fields)
    requires DistinctTexts(properties) && Renamed(taken, properties, |properties|).Some?
    ensures var args := Args(Renamed(taken, properties, |properties|).value);
            Distinct(args) && forall i :: 0 <= i < |args| ==> args[i] !in taken
  {
    hide Renamed;
    var fields := Renamed(taken, properties, |properties|).value;
    var texts := KeyTexts(properties);
    forall i, j | 0 <= i < j < |fields|
      ensures fields[i].0 != fields[j].0
    {
      var x, y := properties[i].0.Text(), properties[j].0.Text();
      assert x in texts && y in texts && x != y;
      assert ("body_" + x)[5..] == x && ("body_" + y)[5..] == y;
      assert ArgumentFor(taken, texts, x) == Some(fields[i].0) && ArgumentFor(taken, texts, y) == Some(fields[j].0);
    }
  }

  /** The argument of the property written `name`. */
  function ArgumentOf(fields: seq<(string, Key)>, name: string): (r: Option<string>)
    ensures r.Some? ==> exists i :: 0 <= i < |fields| && fields[i].0 == r.value && fields[i].1.Text() == name
    ensures r.None? ==> forall i :: 0 <= i < |fields| ==> fields[i].1.Text() != name
  {
    if |fields| == 0 then None
    else
      var last := |fields| - 1;
      if fields[last].1.Text() == name then Some(fields[last].0) else ArgumentOf(fields[..last], name)
  }

  /** The arguments of the properties that are required and have one. */
  function ArgumentsOf(fields: seq<(string, Key)>, names: seq<string>): (r: seq<string>)
    ensures forall x :: x in r <==> exists i :: 0 <= i < |names| && ArgumentOf(fields, names[i]) == Some(x)
  {
    if |names| == 0 then []
    else
      var last := |names| - 1;
      var before := ArgumentsOf(fields, names[..last]);
      var own := ArgumentOf(fields, names[last]);
      if own.Some? then before + [own.value] else before
  }

  /** The first JSON media type, or the form type when there is none. */
  function MediaOf(text: TextRules, content: seq<(string, Option<Json>)>): Option<(string, Option<Json>)> {
    match FirstJson(text, content)
    case Some(m) => Some(m)
    case None => FormOf(content)
  }

  function FirstJson(text: TextRules, content: seq<(string, Option<Json>)>): Option<(string, Option<Json>)> {
    if |content| == 0 then None
    else if text.isJson(content[0].0) then Some(content[0])
    else FirstJson(text, content[1..])
  }

  /** A body has no usable media exactly when it offers neither JSON nor a form. */
  lemma {:induction false} NoMediaIff(text: TextRules, content: seq<(string, Option<Json>)>)
    ensures MediaOf(text, content).None? <==>
            forall i :: 0 <= i < |content| ==>
              !text.isJson(content[i].0) && content[i].0 != "application/x-www-form-urlencoded"
    decreases |content|
  {
    if |content| > 0 {
      NoMediaIff(text, content[1..]);
      assert forall i :: 0 <= i < |content| - 1 ==> content[1..][i] == content[i + 1];
    }
  }

  function FormOf(content: seq<(string, Option<Json>)>): (r: Option<(string, Option<Json>)>)
    ensures r.Some? ==> r.value.0 == FORM_MEDIA
  {
    if |content| == 0 then None
    else if content[0].0 == FORM_MEDIA then Some(content[0])
    else FormOf(content[1..])
  }

  // ------------------------------------------------------------ the plan

  /** What mapping hands on: the plan for building requests, and the schema of the arguments. */
  datatype Plan = Plan(parameters: seq<ParameterPlan>, body: Option<BodyPlan>, properties: map<string, Json>,
                       required: seq<string>)

  function BodyFields(body: Option<BodyPlan>): seq<(string, Key)> {
    if body.Some? then body.value.fields else []
  }

  function Names(parameters: seq<ParameterPlan>): (r: seq<string>)
    ensures |r| == |parameters| && forall i :: 0 <= i < |r| ==> r[i] == parameters[i].argument
  {
    seq(|parameters|, i requires 0 <= i < |parameters| => parameters[i].argument)
  }

  /** The names of all arguments. */
  function AllNames(plan: Plan): seq<string> {
    Names(plan.parameters) + Args(BodyFields(plan.body))
  }

  ghost predicate WellFormed(plan: Plan) {
    && Distinct(AllNames(plan))
    && (forall x :: x in plan.properties <==> x in AllNames(plan))
    && (forall x :: x in plan.required ==> x in plan.properties)
    && (forall i :: 0 <= i < |plan.parameters| ==>
          && plan.parameters[i].argument == plan.parameters[i].name
          && plan.parameters[i].location in {InPath, InQuery, InHeader}
          && (plan.parameters[i].location.InPath? ==> plan.parameters[i].argument in plan.required))
    && (plan.body.Some? ==> WellFormedBody(plan.body.value))
  }

  /** A whole body is one argument; a merged one names each property once. */
  ghost predicate WellFormedBody(body: BodyPlan) {
    && (body.mode.Whole? ==> |body.fields| == 1)
    && (forall i, j :: 0 <= i < j < |body.fields| ==> body.fields[i].1.Text() != body.fields[j].1.Text())
  }

  /** `plan` is `before`, which has no body, with the properties of a merged body added. */
  ghost predicate AddsMerged(before: Plan, plan: Plan, flat: Flat, media: string, required: bool) {
    var renamed := Renamed(before.properties.Keys, flat.properties, |flat.properties|);
    renamed.Some? && AddsFields(before, plan, flat, media, required, renamed.value)
  }

  /** The properties become the arguments named in `fields`. */
  ghost predicate AddsFields(before: Plan, plan: Plan, flat: Flat, media: string, required: bool,
                             fields: seq<(string, Key)>)
    requires |fields| == |flat.properties|
  {
    && plan.parameters == before.parameters
    && plan.body == Some(BodyPlan(media, Merged, fields, required))
    && plan.required == before.required + (if required then ArgumentsOf(fields, flat.required) else [])
    && (forall x :: x in plan.properties <==> x in before.properties || x in Args(fields))
    && (forall x :: x in before.properties && x in plan.properties ==> plan.properties[x] == before.properties[x])
    && (forall i :: 0 <= i < |fields| && fields[i].0 in plan.properties ==>
        plan.properties[fields[i].0] == flat.properties[i].1)
  }

  ghost predicate AddsWhole(before: Plan, plan: Plan, schema: Json, media: string, required: bool) {
    var argument := ArgumentFor(before.properties.Keys, {}, "body");
    && argument.Some?
    && plan.parameters == before.parameters
    && plan.body == Some(BodyPlan(media, Whole, [(argument.value, Name(""))], required))
    && plan.required == before.required + (if required then [argument.value] else [])
    && plan.properties == before.properties[argument.value := schema]
  }

  lemma DistinctAppend(xs: seq<string>, ys: seq<string>)
    requires Distinct(xs) && Distinct(ys) && forall i :: 0 <= i < |ys| ==> ys[i] !in xs
    ensures Distinct(xs + ys)
  {
    forall i, j | 0 <= i < j < |xs + ys|
      ensures (xs + ys)[i] != (xs + ys)[j]
    {
      if i < |xs| <= j {
        assert (xs + ys)[i] == xs[i] && xs[i] in xs && (xs + ys)[j] == ys[j - |xs|];
      }
    }
  }

  lemma MergedNames(before: Plan, plan: Plan, fields: seq<(string, Key)>)
    requires before.body.None? && Distinct(AllNames(before)) && plan.parameters == before.parameters
    requires BodyFields(plan.body) == fields && Distinct(Args(fields))
    requires forall x :: x in before.properties <==> x in AllNames(before)
    requires forall i :: 0 <= i < |fields| ==> fields[i].0 !in before.properties
    ensures AllNames(plan) == AllNames(before) + Args(fields) && Distinct(AllNames(plan))
  {
    hide Names, Args;
    var names, args := AllNames(before), Args(fields);
    assert names == Names(before.parameters);
    assert forall i :: 0 <= i < |args| ==> args[i] == fields[i].0;
    DistinctAppend(names, args);
  }

  lemma RequiredArguments(fields: seq<(string, Key)>, names: seq<string>)
    ensures forall x :: x in ArgumentsOf(fields, names) ==> x in Args(fields)
  {
    hide ArgumentOf, Args;
    forall x | x in ArgumentsOf(fields, names)
      ensures x in Args(fields)
    {
      var i :| 0 <= i < |names| && ArgumentOf(fields, names[i]) == Some(x);
      var k :| 0 <= k < |fields| && fields[k].0 == x && fields[k].1.Text() == names[i];
      assert Args(fields)[k] == x;
    }
  }

  lemma MergedWellFormed(before: Plan, plan: Plan, flat: Flat, media: string, required: bool)
    requires WellFormed(before) && before.body.None? && DistinctTexts(flat.properties)
    requires AddsMerged(before, plan, flat, media, required)
    ensures WellFormed(plan)
  {
    hide Renamed, Names, Args, AllNames, ArgumentsOf, KeyTexts, Distinct;
    RenamedDistinct(before.properties.Keys, flat.properties);
    var fields := Renamed(before.properties.Keys, flat.properties, |flat.properties|).value;
    MergedNames(before, plan, fields);
    RequiredArguments(fields, flat.required);
    assert WellFormedBody(plan.body.value);
  }

  lemma WholeWellFormed(before: Plan, plan: Plan, schema: Json, media: string, required: bool)
    requires WellFormed(before) && before.body.None?
    requires AddsWhole(before, plan, schema, media, required)
    ensures WellFormed(plan)
  {
    hide Names;
    var fields := plan.body.value.fields;
    assert AllNames(before) == Names(before.parameters);
    assert Args(fields) == [fields[0].0];
    DistinctAppend(Names(before.parameters), Args(fields));
    assert AllNames(plan) == Names(before.parameters) + Args(fields);
  }

  lemma ParameterWellFormed(before: Plan, p: ParameterPlan, schema: Json, required: bool)
    requires WellFormed(before) && before.body.None? && p.argument !in before.properties
    requires p.argument == p.name && p.location in {InPath, InQuery, InHeader} && (p.location.InPath? ==> required)
    ensures WellFormed(Plan(before.parameters + [p], None, before.properties[p.argument := schema],
                            before.required + if required then [p.argument] else []))
  {
    var after := Plan(before.parameters + [p], None, before.properties[p.argument := schema],
                      before.required + if required then [p.argument] else []);
    assert AllNames(before) == Names(before.parameters);
    assert Names(after.parameters) == Names(before.parameters) + [p.argument];
    DistinctAppend(Names(before.parameters), [p.argument]);
    assert AllNames(after) == Names(before.parameters) + [p.argument];
    assert p.argument in AllNames(after);
  }
}
