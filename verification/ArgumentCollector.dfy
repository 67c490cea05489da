/** `operation_arguments`: the accumulator, and exactly which operations it supports. */
module ArgumentCollector {
  import opened JsonValues
  import opened Schemas
  import opened Flattening
  import opened PercentCoding
  import opened PathBuilding
  import opened Splitting
  import opened OperationArguments

  datatype Operation = Operation(path: string, pathLevel: seq<Param>, own: seq<Param>, body: Option<RequestBody>)

  // ------------------------------------------------------------ what is supported, said without the accumulator

  /** The plan a parameter gets where no other has its name. */
  function Own(scope: Scope, text: TextRules, p: Param): Fate
    requires WellRanked(scope)
  {
    FateOf(scope, text, {}, p)
  }

  /** No parameter is refused for itself, and no two that become arguments share a name. */
  ghost predicate ParametersSupported(scope: Scope, text: TextRules, ps: seq<Param>)
    requires WellRanked(scope)
  {
    && (forall i :: 0 <= i < |ps| ==> !Own(scope, text, ps[i]).Refuse?)
    && (forall i, j :: 0 <= i < j < |ps| && Own(scope, text, ps[i]).Accept? && Own(scope, text, ps[j]).Accept? ==>
          ps[i].name != ps[j].name)
  }

  /** The path starts with a slash and holds no dot segment, percent sign or backslash. */
  predicate PathSupported(path: string) {
    && "/" <= path
    && (forall i :: 0 <= i < |Split(path, '/')| ==> !IsDots(Split(path, '/')[i]))
    && '%' !in path && '\\' !in path
  }

  predicate Declares(parameters: seq<ParameterPlan>, variable: string) {
    exists i :: 0 <= i < |parameters| && parameters[i].location.InPath? && parameters[i].name == variable
  }

  predicate VariablesDeclared(pieces: seq<Piece>, parameters: seq<ParameterPlan>) {
    forall i :: 0 <= i < |pieces| && pieces[i].Variable? ==> Declares(parameters, pieces[i].name)
  }

  /** The body has a media type the hub writes, and room for its arguments. */
  predicate BodySupported(scope: Scope, text: TextRules, taken: set<string>, body: RequestBody)
    requires WellRanked(scope)
  {
    match MediaOf(text, body.content)
    case Some((media, Some(schema))) =>
      (match ObjectFields(scope, schema, 0)
       case None => media != FORM_MEDIA && ArgumentFor(taken, {}, "body").Some?
       case Some(flat) => Renamed(taken, flat.properties, |flat.properties|).Some?)
    case _ => false
  }

  /** The plan of the parameters, with the body added. */
  ghost predicate AddsBody(scope: Scope, text: TextRules, before: Plan, after: Plan, body: RequestBody)
    requires WellRanked(scope)
  {
    match MediaOf(text, body.content)
    case Some((media, Some(schema))) =>
      (match ObjectFields(scope, schema, 0)
       case None => AddsWhole(before, after, schema, media, body.required)
       case Some(flat) => AddsMerged(before, after, flat, media, body.required))
    case _ => false
  }

  /** Every object in the body's schema is a dictionary, so its flattened properties are. */
  ghost predicate BodyIsDict(scope: Scope, text: TextRules, body: RequestBody)
    requires WellRanked(scope)
  {
    match MediaOf(text, body.content)
    case Some((_, Some(schema))) =>
      ObjectFields(scope, schema, 0).Some? ==> DistinctTexts(ObjectFields(scope, schema, 0).value.properties)
    case _ => true
  }

  /** If `p` becomes an argument, `plan` has it, with its schema. */
  ghost predicate Keeps(scope: Scope, text: TextRules, p: Param, plan: Plan)
    requires WellRanked(scope)
  {
    var own := Own(scope, text, p);
    own.Accept? ==>
      && own.plan in plan.parameters
      && p.name in plan.properties && plan.properties[p.name] == own.schema
      && (p.name in plan.required <==> p.location.InPath? || p.required)
  }

  /** `q` comes from one of `ps`. */
  ghost predicate ComesFrom(scope: Scope, text: TextRules, ps: seq<Param>, q: ParameterPlan)
    requires WellRanked(scope)
  {
    exists i :: 0 <= i < |ps| && Own(scope, text, ps[i]).Accept? && Own(scope, text, ps[i]).plan == q
  }

  /** `plan` holds the parameters of `ps` that are not dropped, and no others. */
  ghost predicate Holds(scope: Scope, text: TextRules, ps: seq<Param>, plan: Plan)
    requires WellRanked(scope)
  {
    && (forall i :: 0 <= i < |ps| ==> Keeps(scope, text, ps[i], plan))
    && (forall q :: q in plan.parameters ==> ComesFrom(scope, text, ps, q))
  }

  lemma FateTaken(scope: Scope, text: TextRules, taken: set<string>, p: Param)
    requires WellRanked(scope)
    ensures FateOf(scope, text, taken, p) ==
            if Own(scope, text, p).Accept? && p.name in taken then Refuse(SameName(p.name)) else Own(scope, text, p)
  {
    hide ParameterProblem, HubsOwn;
  }

  /** The arguments of a merged body's properties, or the first property that gets none. */
  method RenameAll(taken: set<string>, names: Fields) returns (renamed: Option<seq<(string, Key)>>, stuck: nat)
    ensures renamed == Renamed(taken, names, |names|)
    ensures renamed.None? ==> stuck < |names| && ArgumentFor(taken, KeyTexts(names), names[stuck].0.Text()).None?
    ensures renamed.None? ==> Renamed(taken, names, stuck).Some?
  {
    hide ArgumentFor, KeyTexts;
    var out: seq<(string, Key)> := [];
    for i := 0 to |names|
      invariant Renamed(taken, names, i) == Some(out)
    {
      var argument := ArgumentFor(taken, KeyTexts(names), names[i].0.Text());
      if argument.None? {
        RenamedFails(taken, names, i, |names|);
        return None, i;
      }
      out := out + [(argument.value, names[i].0)];
    }
    return Some(out), 0;
  }

  lemma MergedAdded(before: Plan, plan: Plan, flat: Flat, media: string, required: bool)
    requires var renamed := Renamed(before.properties.Keys, flat.properties, |flat.properties|);
             renamed.Some? && AddsFields(before, plan, flat, media, required, renamed.value)
    ensures AddsMerged(before, plan, flat, media, required)
  {
    hide Renamed, AddsFields;
  }

  lemma RenamedFresh(taken: set<string>, names: Fields)
    requires DistinctTexts(names) && Renamed(taken, names, |names|).Some?
    ensures var fields := Renamed(taken, names, |names|).value;
            Distinct(Args(fields)) && forall i :: 0 <= i < |fields| ==> fields[i].0 !in taken
  {
    hide Renamed, DistinctTexts, Distinct, Args, KeyTexts;
    RenamedDistinct(taken, names);
    var fields := Renamed(taken, names, |names|).value;
    assert forall i :: 0 <= i < |fields| ==> Args(fields)[i] == fields[i].0;
  }

  // ------------------------------------------------------------ the accumulator

  class Arguments {
    var properties: map<string, Json>
    var required: seq<string>
    var parameters: seq<ParameterPlan>
    var body: Option<BodyPlan>
    var unsupported: seq<Reason>
    var dropped: seq<Reason>

    ghost function ThePlan(): Plan
      reads this
    {
      Plan(parameters, body, properties, required)
    }

    constructor ()
      ensures ThePlan() == Plan([], None, map[], []) && unsupported == [] && dropped == []
    {
      properties, required, parameters, body, unsupported, dropped := map[], [], [], None, [], [];
    }

    method AddParameter(scope: Scope, text: TextRules, p: Param)
      requires WellRanked(scope) && WellFormed(ThePlan()) && body.None?
      modifies this
      ensures WellFormed(ThePlan()) && body.None?
      ensures match FateOf(scope, text, old(properties).Keys, p)
              case Drop(reason) =>
                ThePlan() == old(ThePlan()) && unsupported == old(unsupported) && dropped == old(dropped) + [reason]
              case Refuse(reason) =>
                ThePlan() == old(ThePlan()) && unsupported == old(unsupported) + [reason] && dropped == old(dropped)
              case Accept(plan, schema) =>
                && unsupported == old(unsupported) && dropped == old(dropped)
                && parameters == old(parameters) + [plan]
                && properties == old(properties)[p.name := schema]
                && required == old(required) + if p.location.InPath? || p.required then [p.name] else []
    {
      hide WellFormed, ParameterProblem, HubsOwn;
      if p.location.InCookie? {
        dropped := dropped + [CookieParameter(p.name)];
        return;
      }
      if p.location.Elsewhere? {
        unsupported := unsupported + [UnknownLocation(p.name)];
        return;
      }
      if HubsOwn(text, p) {
        dropped := dropped + [HubHeader(p.name)];
        return;
      }
      var problem := ParameterProblem(scope, p);
      if problem.Some? {
        unsupported := unsupported + [problem.value];
        return;
      }
      if p.name in properties {
        unsupported := unsupported + [SameName(p.name)];
        return;
      }
      var explode := if p.explode.Some? then p.explode.value else StyleOf(p).Form?;
      var plan := ParameterPlan(p.name, p.name, p.location, explode);
      ParameterWellFormed(ThePlan(), plan, p.schema.value, p.location.InPath? || p.required);
      properties := properties[p.name := p.schema.value];
      if p.location.InPath? || p.required {
        required := required + [p.name];
      }
      parameters := parameters + [plan];
      assert ThePlan().required == old(required) + if p.location.InPath? || p.required then [p.name] else [];
    }

    method AddWholeBody(schema: Json, media: string, isRequired: bool)
      requires WellFormed(ThePlan()) && body.None?
      modifies this
      ensures dropped == old(dropped) && WellFormed(ThePlan())
      ensures if ArgumentFor(old(properties).Keys, {}, "body").Some?
              then unsupported == old(unsupported) && AddsWhole(old(ThePlan()), ThePlan(), schema, media, isRequired)
              else unsupported == old(unsupported) + [BodyCollision("body")] && ThePlan() == old(ThePlan())
    {
      hide WellFormed;
      var argument := ArgumentFor(properties.Keys, {}, "body");
      if argument.None? {
        unsupported := unsupported + [BodyCollision("body")];
        return;
      }
      properties := properties[argument.value := schema];
      if isRequired {
        required := required + [argument.value];
      }
      body := Some(BodyPlan(media, Whole, [(argument.value, Name(""))], isRequired));
      WholeWellFormed(old(ThePlan()), ThePlan(), schema, media, isRequired);
    }

    method AddMergedBody(flat: Flat, media: string, isRequired: bool)
      requires WellFormed(ThePlan()) && body.None? && DistinctTexts(flat.properties)
      modifies this
      ensures dropped == old(dropped) && WellFormed(ThePlan())
      ensures if Renamed(old(properties).Keys, flat.properties, |flat.properties|).Some?
              then unsupported == old(unsupported) && AddsMerged(old(ThePlan()), ThePlan(), flat, media, isRequired)
              else ThePlan() == old(ThePlan()) && exists i ::
                     && 0 <= i < |flat.properties| && Renamed(old(properties).Keys, flat.properties, i).Some?
                     && ArgumentFor(old(properties).Keys, KeyTexts(flat.properties), flat.properties[i].0.Text()).None?
                     && unsupported == old(unsupported) + [BodyCollision(flat.properties[i].0.Text())]
    {
      hide WellFormed, DistinctTexts, ArgumentFor, KeyTexts, Renamed, ArgumentsOf, Args, Distinct, AddsMerged;
      var names := flat.properties;
      var renamed, stuck := RenameAll(properties.Keys, names);
      if renamed.None? {
        unsupported := unsupported + [BodyCollision(names[stuck].0.Text())];
        return;
      }
      RenamedFresh(properties.Keys, names);
      Put(renamed.value, names);
      if isRequired {
        required := required + ArgumentsOf(renamed.value, flat.required);
      }
      body := Some(BodyPlan(media, Merged, renamed.value, isRequired));
      assert required == old(required) + if isRequired then ArgumentsOf(renamed.value, flat.required) else [];
      assert AddsFields(old(ThePlan()), ThePlan(), flat, media, isRequired, renamed.value);
      hide AddsFields;
      MergedAdded(old(ThePlan()), ThePlan(), flat, media, isRequired);
      MergedWellFormed(old(ThePlan()), ThePlan(), flat, media, isRequired);
    }

    /** Gives each argument the schema of its property. */
    method Put(renamed: seq<(string, Key)>, names: Fields)
      requires |renamed| == |names| && Distinct(Args(renamed))
      requires forall i :: 0 <= i < |renamed| ==> renamed[i].0 !in properties
      modifies this`properties
      ensures forall x :: x in properties <==> x in old(properties) || x in Args(renamed)
      ensures forall x :: x in old(properties) ==> properties[x] == old(properties)[x]
      ensures forall i :: 0 <= i < |renamed| ==> renamed[i].0 in properties && properties[renamed[i].0] == names[i].1
    {
      for i := 0 to |renamed|
        invariant forall x :: x in properties <==> x in old(properties) || x in Args(renamed)[..i]
        invariant forall x :: x in old(properties) ==> properties[x] == old(properties)[x]
        invariant forall j :: 0 <= j < i ==> renamed[j].0 in properties && properties[renamed[j].0] == names[j].1
      {
        assert Args(renamed)[..i + 1] == Args(renamed)[..i] + [renamed[i].0];
        assert forall j :: 0 <= j < i ==> Args(renamed)[j] != Args(renamed)[i];
        properties := properties[renamed[i].0 := names[i].1];
      }
      assert Args(renamed)[..|renamed|] == Args(renamed);
    }

    method AddBody(scope: Scope, text: TextRules, requestBody: RequestBody)
      requires WellRanked(scope) && WellFormed(ThePlan()) && body.None? && BodyIsDict(scope, text, requestBody)
      modifies this
      ensures dropped == old(dropped) && WellFormed(ThePlan())
      ensures old(unsupported) <= unsupported
      ensures unsupported == old(unsupported) <==> BodySupported(scope, text, old(properties).Keys, requestBody)
      ensures if BodySupported(scope, text, old(properties).Keys, requestBody)
              then AddsBody(scope, text, old(ThePlan()), ThePlan(), requestBody)
              else ThePlan() == old(ThePlan())
    {
      hide WellFormed, DistinctTexts, AddsMerged, AddsWhole, ObjectFields, ArgumentFor, Renamed;
      var media := MediaOf(text, requestBody.content);
      if media.None? {
        unsupported := unsupported + [NoBodyMedia];
        return;
      }
      if media.value.1.None? {
        unsupported := unsupported + [NoBodySchema];
        return;
      }
      var schema := media.value.1.value;
      var fields := ObjectFields(scope, schema, 0);
      if fields.None? {
        if media.value.0 == FORM_MEDIA {
          unsupported := unsupported + [FormNotObject];
          return;
        }
        AddWholeBody(schema, media.value.0, requestBody.required);
      } else {
        AddMergedBody(fields.value, media.value.0, requestBody.required);
      }
    }
  }

  lemma {:induction false} RenamedFails(taken: set<string>, names: Fields, i: nat, n: nat)
    requires i < n <= |names| && ArgumentFor(taken, KeyTexts(names), names[i].0.Text()).None?
    ensures Renamed(taken, names, n).None?
  {
    if n > i + 1 {
      RenamedFails(taken, names, i, n - 1);
    }
  }

  // ------------------------------------------------------------ a whole operation

  /** The names of the parameters that become arguments. */
  ghost function AcceptedNames(scope: Scope, text: TextRules, ps: seq<Param>): set<string>
    requires WellRanked(scope)
  {
    set i | 0 <= i < |ps| && Own(scope, text, ps[i]).Accept? :: ps[i].name
  }

  ghost predicate DeclaredBy(scope: Scope, text: TextRules, ps: seq<Param>, variable: string)
    requires WellRanked(scope)
  {
    exists i :: 0 <= i < |ps| && Own(scope, text, ps[i]).Accept? && ps[i].location.InPath? && ps[i].name == variable
  }

  /** An operation can become a tool. */
  ghost predicate Supported(scope: Scope, text: TextRules, op: Operation)
    requires WellRanked(scope)
  {
    var ps := MergeAll(op.pathLevel + op.own);
    var pieces := Pieces(op.path, 0);
    && ParametersSupported(scope, text, ps)
    && PathSupported(op.path)
    && (forall i :: 0 <= i < |pieces| && pieces[i].Variable? ==> DeclaredBy(scope, text, ps, pieces[i].name))
    && (op.body.Some? ==> BodySupported(scope, text, AcceptedNames(scope, text, ps), op.body.value))
  }

  lemma ParametersStep(scope: Scope, text: TextRules, ps: seq<Param>, p: Param)
    requires WellRanked(scope)
    ensures ParametersSupported(scope, text, ps + [p]) <==>
            ParametersSupported(scope, text, ps) && !FateOf(scope, text, AcceptedNames(scope, text, ps), p).Refuse?
    ensures AcceptedNames(scope, text, ps + [p]) ==
            AcceptedNames(scope, text, ps) + if Own(scope, text, p).Accept? then {p.name} else {}
  {
    hide Own, WellRanked, FateOf;
    var all, names := ps + [p], AcceptedNames(scope, text, ps);
    FateTaken(scope, text, names, p);
    assert forall i :: 0 <= i < |ps| ==> all[i] == ps[i];
    assert all[|ps|] == p;
    assert ParametersSupported(scope, text, all) ==> ParametersSupported(scope, text, ps);
    forall x
      ensures x in AcceptedNames(scope, text, all) <==> x in names || (Own(scope, text, p).Accept? && x == p.name)
    {
      if x in names {
        var i :| 0 <= i < |ps| && Own(scope, text, ps[i]).Accept? && ps[i].name == x;
        assert all[i].name == x;
      }
    }
  }

  lemma HoldsStep(scope: Scope, text: TextRules, ps: seq<Param>, p: Param, before: Plan, after: Plan)
    requires WellRanked(scope) && Holds(scope, text, ps, before)
    requires forall x :: x in before.required ==> x in before.properties
    requires before.properties.Keys == AcceptedNames(scope, text, ps)
    requires match FateOf(scope, text, before.properties.Keys, p)
             case Drop(_) => after == before
             case Refuse(_) => false
             case Accept(plan, schema) =>
               && after.parameters == before.parameters + [plan]
               && after.properties == before.properties[p.name := schema]
               && after.required == before.required + if p.location.InPath? || p.required then [p.name] else []
    ensures Holds(scope, text, ps + [p], after)
  {
    hide Own, WellRanked, FateOf, Keeps, ComesFrom, AcceptedNames;
    var all := ps + [p];
    FateTaken(scope, text, before.properties.Keys, p);
    forall q | q in after.parameters
      ensures ComesFrom(scope, text, all, q)
    {
      ComesFromMore(scope, text, ps, p, q);
    }
    forall i | 0 <= i < |all|
      ensures Keeps(scope, text, all[i], after)
    {
      if i < |ps| {
        assert all[i] == ps[i];
        KeepsMore(scope, text, ps[i], before, after);
      } else {
        KeepsNew(scope, text, p, before, after);
      }
    }
  }

  lemma ComesFromMore(scope: Scope, text: TextRules, ps: seq<Param>, p: Param, q: ParameterPlan)
    requires WellRanked(scope)
    requires ComesFrom(scope, text, ps, q) || (Own(scope, text, p).Accept? && Own(scope, text, p).plan == q)
    ensures ComesFrom(scope, text, ps + [p], q)
  {
    hide WellRanked, Own;
    var all := ps + [p];
    if ComesFrom(scope, text, ps, q) {
      var i :| 0 <= i < |ps| && Own(scope, text, ps[i]).Accept? && Own(scope, text, ps[i]).plan == q;
      assert all[i] == ps[i];
    } else {
      assert all[|ps|] == p;
    }
  }

  lemma KeepsMore(scope: Scope, text: TextRules, q: Param, before: Plan, after: Plan)
    requires WellRanked(scope) && Keeps(scope, text, q, before) && before.parameters <= after.parameters
    requires forall x :: x in before.properties ==> (x in after.required <==> x in before.required)
    requires forall x :: x in before.properties ==> x in after.properties && after.properties[x] == before.properties[x]
    ensures Keeps(scope, text, q, after)
  {
    hide WellRanked, Own;
  }

  lemma KeepsNew(scope: Scope, text: TextRules, p: Param, before: Plan, after: Plan)
    requires WellRanked(scope) && forall x :: x in before.required ==> x in before.properties
    requires match FateOf(scope, text, before.properties.Keys, p)
             case Drop(_) => after == before
             case Refuse(_) => false
             case Accept(plan, schema) =>
               && after.parameters == before.parameters + [plan]
               && after.properties == before.properties[p.name := schema]
               && after.required == before.required + if p.location.InPath? || p.required then [p.name] else []
    ensures Keeps(scope, text, p, after)
  {
    hide WellRanked, Own, FateOf;
    FateTaken(scope, text, before.properties.Keys, p);
  }

  lemma RequiredListed(plan: Plan)
    requires WellFormed(plan)
    ensures forall x :: x in plan.required ==> x in plan.properties
  {
  }

  method CollectParameters(a: Arguments, scope: Scope, text: TextRules, ps: seq<Param>)
    requires WellRanked(scope)
    requires a.ThePlan() == Plan([], None, map[], []) && a.unsupported == []
    modifies a
    ensures WellFormed(a.ThePlan()) && a.body.None?
    ensures a.unsupported == [] <==> ParametersSupported(scope, text, ps)
    ensures a.unsupported == [] ==>
              Holds(scope, text, ps, a.ThePlan()) && a.properties.Keys == AcceptedNames(scope, text, ps)
  {
    hide Own, WellRanked, Holds, ParametersSupported, AcceptedNames, WellFormed;
    NoParameters(scope, text, a.ThePlan());
    for i := 0 to |ps|
      invariant WellFormed(a.ThePlan()) && a.body.None?
      invariant a.unsupported == [] <==> ParametersSupported(scope, text, ps[..i])
      invariant a.unsupported == [] ==>
                  Holds(scope, text, ps[..i], a.ThePlan()) && a.properties.Keys == AcceptedNames(scope, text, ps[..i])
    {
      ghost var before, clean := a.ThePlan(), a.unsupported == [];
      RequiredListed(before);
      ParametersStep(scope, text, ps[..i], ps[i]);
      FateTaken(scope, text, a.properties.Keys, ps[i]);
      a.AddParameter(scope, text, ps[i]);
      assert ps[..i + 1] == ps[..i] + [ps[i]];
      if clean && a.unsupported == [] {
        HoldsStep(scope, text, ps[..i], ps[i], before, a.ThePlan());
      }
    }
    assert ps[..|ps|] == ps;
  }

  lemma NoParameters(scope: Scope, text: TextRules, plan: Plan)
    requires WellRanked(scope) && plan == Plan([], None, map[], [])
    ensures WellFormed(plan) && ParametersSupported(scope, text, []) && Holds(scope, text, [], plan)
    ensures plan.properties.Keys == AcceptedNames(scope, text, [])
  {
    assert AllNames(plan) == [];
  }

  method CheckPath(a: Arguments, path: string)
    modifies a`unsupported
    ensures old(a.unsupported) <= a.unsupported
    ensures a.unsupported == old(a.unsupported) <==>
            PathSupported(path) && VariablesDeclared(Pieces(path, 0), a.parameters)
  {
    hide IsDots, SplitFrom, Pieces, Declares;
    var reasons := [];
    if !("/" <= path) {
      reasons := reasons + [NoLeadingSlash];
    }
    var segments := Split(path, '/');
    if exists i :: 0 <= i < |segments| && IsDots(segments[i]) {
      reasons := reasons + [DotSegment];
    }
    if '%' in path || '\\' in path {
      reasons := reasons + [PercentOrBackslash];
    }
    assert reasons == [] <==> PathSupported(path);
    var pieces := Pieces(path, 0);
    for i := 0 to |pieces|
      invariant reasons == [] <==> PathSupported(path) && VariablesDeclared(pieces[..i], a.parameters)
    {
      assert pieces[..i + 1] == pieces[..i] + [pieces[i]];
      if pieces[i].Variable? && !Declares(a.parameters, pieces[i].name) {
        assert pieces[..i + 1][i] == pieces[i];
        reasons := reasons + [NoPathParameter(pieces[i].name)];
      }
    }
    assert pieces[..|pieces|] == pieces;
    a.unsupported := a.unsupported + reasons;
  }

  lemma DeclaredIff(scope: Scope, text: TextRules, ps: seq<Param>, plan: Plan, variable: string)
    requires WellRanked(scope) && Holds(scope, text, ps, plan)
    ensures Declares(plan.parameters, variable) <==> DeclaredBy(scope, text, ps, variable)
  {
    hide WellRanked, ParameterProblem, HubsOwn;
    if Declares(plan.parameters, variable) {
      var k :| 0 <= k < |plan.parameters| && plan.parameters[k].location.InPath? && plan.parameters[k].name == variable;
      assert ComesFrom(scope, text, ps, plan.parameters[k]);
      var i :| 0 <= i < |ps| && Own(scope, text, ps[i]).Accept? && Own(scope, text, ps[i]).plan == plan.parameters[k];
      assert ps[i].name == variable;
    }
    if DeclaredBy(scope, text, ps, variable) {
      var i :| 0 <= i < |ps| && Own(scope, text, ps[i]).Accept? && ps[i].location.InPath? && ps[i].name == variable;
      assert Keeps(scope, text, ps[i], plan);
      var k :| 0 <= k < |plan.parameters| && plan.parameters[k] == Own(scope, text, ps[i]).plan;
    }
  }

  /** What a supported operation's plan is: its parameters, each template variable among them,
      and its body. */
  ghost predicate Plans(scope: Scope, text: TextRules, op: Operation, plan: Plan, parameters: Plan)
    requires WellRanked(scope)
  {
    && WellFormed(parameters) && parameters.body.None?
    && Holds(scope, text, MergeAll(op.pathLevel + op.own), parameters)
    && VariablesDeclared(Pieces(op.path, 0), plan.parameters)
    && (match op.body
        case None => plan == parameters
        case Some(body) => AddsBody(scope, text, parameters, plan, body))
  }

  /** Nothing is refused exactly when the operation is supported, and then the plan has distinct
      argument names and a parameter for every template variable. `parameters` is the plan
      before the body was added. */
  method OperationPlan(scope: Scope, text: TextRules, op: Operation)
    returns (plan: Plan, unsupported: seq<Reason>, dropped: seq<Reason>, ghost parameters: Plan)
    requires WellRanked(scope) && (op.body.Some? ==> BodyIsDict(scope, text, op.body.value))
    ensures WellFormed(plan)
    ensures unsupported == [] <==> Supported(scope, text, op)
    ensures unsupported == [] ==> Plans(scope, text, op, plan, parameters)
  {
    hide WellRanked, Holds, ParametersSupported, AcceptedNames, WellFormed, Pieces, PathSupported,
      BodySupported, AddsBody, BodyIsDict, Declares, DeclaredBy;
    var a := new Arguments();
    var ps := MergedParameters(op.pathLevel, op.own);
    CollectParameters(a, scope, text, ps);
    parameters := a.ThePlan();
    if a.unsupported == [] {
      forall variable
        ensures Declares(a.parameters, variable) <==> DeclaredBy(scope, text, ps, variable)
      {
        DeclaredIff(scope, text, ps, a.ThePlan(), variable);
      }
    }
    CheckPath(a, op.path);
    if op.body.Some? {
      a.AddBody(scope, text, op.body.value);
      SameParameters(scope, text, parameters, a.ThePlan(), op.body.value);
    }
    return Plan(a.parameters, a.body, a.properties, a.required), a.unsupported, a.dropped, parameters;
  }

  lemma SameParameters(scope: Scope, text: TextRules, before: Plan, after: Plan, body: RequestBody)
    requires WellRanked(scope)
    ensures AddsBody(scope, text, before, after, body) ==> after.parameters == before.parameters
  {
  }
}
