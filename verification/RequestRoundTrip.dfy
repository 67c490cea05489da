/** Packing a request's parts into tool arguments and building the request again. */
module RequestRoundTrip {
  import opened JsonValues
  import opened Schemas
  import opened Flattening
  import opened PathBuilding
  import opened OperationArguments
  import opened ArgumentCollector
  import opened RequestBuilder

  /** A value for each place of a request, named by location and name as the spec does:
      nothing here knows about argument names. */
  type Given = map<(Location, string), Json>

  function SlotOf(p: ParameterPlan): (Location, string) {
    (p.location, p.name)
  }

  /** What `given` sends for a parameter. */
  function SlotValue(given: Given, p: ParameterPlan): Option<Json> {
    if SlotOf(p) !in given || given[SlotOf(p)] == Null then None else Some(given[SlotOf(p)])
  }

  function FindParam(ps: seq<ParameterPlan>, argument: string): (r: Option<ParameterPlan>)
    ensures r.Some? ==> r.value in ps && r.value.argument == argument
    ensures r.None? ==> forall i :: 0 <= i < |ps| ==> ps[i].argument != argument
  {
    if |ps| == 0 then None
    else if ps[0].argument == argument then Some(ps[0])
    else FindParam(ps[1..], argument)
  }

  function FindField(fields: seq<(string, Key)>, argument: string): (r: Option<Key>)
    ensures r.Some? ==> (argument, r.value) in fields
    ensures r.None? ==> forall i :: 0 <= i < |fields| ==> fields[i].0 != argument
  {
    if |fields| == 0 then None
    else if fields[0].0 == argument then Some(fields[0].1)
    else FindField(fields[1..], argument)
  }

  /** The value an argument stands for: a parameter's, a body property's or the whole body. */
  function ValueFor(plan: Plan, given: Given, body: Option<Json>, argument: string): Option<Json> {
    match FindParam(plan.parameters, argument)
    case Some(p) => if SlotOf(p) in given then Some(given[SlotOf(p)]) else None
    case None =>
      match FindField(BodyFields(plan.body), argument)
      case None => None
      case Some(property) =>
        if plan.body.Some? && plan.body.value.mode.Whole? then body
        else if body.Some? then Member(body.value, property)
        else None
  }

  function Pack(plan: Plan, given: Given, body: Option<Json>): ToolArguments {
    map x | x in plan.properties && ValueFor(plan, given, body, x).Some? :: ValueFor(plan, given, body, x).value
  }

  // ------------------------------------------------------------ every argument is found again

  lemma ParamFound(plan: Plan, i: nat)
    requires WellFormed(plan) && i < |plan.parameters|
    ensures FindParam(plan.parameters, plan.parameters[i].argument) == Some(plan.parameters[i])
    ensures plan.parameters[i].argument in plan.properties
  {
    hide FindParam;
    var ps, names := plan.parameters, AllNames(plan);
    var found := FindParam(ps, ps[i].argument);
    var k :| 0 <= k < |ps| && ps[k] == found.value;
    assert names[k] == ps[k].argument && names[i] == ps[i].argument;
    assert names[i] in names;
  }

  lemma NamesApart(plan: Plan, i: nat)
    requires WellFormed(plan) && i < |BodyFields(plan.body)|
    ensures var fields := BodyFields(plan.body);
            && (forall k :: 0 <= k < |plan.parameters| ==> plan.parameters[k].argument != fields[i].0)
            && (forall k :: 0 <= k < |fields| && k != i ==> fields[k].0 != fields[i].0)
            && fields[i].0 in plan.properties
  {
    hide Names, Args, Distinct;
    var names, args := Names(plan.parameters), Args(BodyFields(plan.body));
    Apart(names, args, i);
    assert forall k :: 0 <= k < |names| ==> names[k] == plan.parameters[k].argument;
    assert forall k :: 0 <= k < |args| ==> args[k] == BodyFields(plan.body)[k].0;
  }

  lemma Apart(xs: seq<string>, ys: seq<string>, i: nat)
    requires Distinct(xs + ys) && i < |ys|
    ensures (forall k :: 0 <= k < |xs| ==> xs[k] != ys[i]) && (forall k :: 0 <= k < |ys| && k != i ==> ys[k] != ys[i])
    ensures ys[i] in xs + ys
  {
    var all := xs + ys;
    assert all[|xs| + i] == ys[i];
    assert forall k :: 0 <= k < |xs| ==> all[k] == xs[k];
    assert forall k :: 0 <= k < |ys| ==> all[|xs| + k] == ys[k];
  }

  lemma FieldFound(plan: Plan, i: nat)
    requires WellFormed(plan) && i < |BodyFields(plan.body)|
    ensures var fields := BodyFields(plan.body);
            && FindParam(plan.parameters, fields[i].0).None?
            && FindField(fields, fields[i].0) == Some(fields[i].1)
            && fields[i].0 in plan.properties
  {
    hide FindParam, FindField, WellFormed;
    NamesApart(plan, i);
    var fields := BodyFields(plan.body);
    var property := FindField(fields, fields[i].0);
    assert property.Some?;
    var k :| 0 <= k < |fields| && fields[k] == (fields[i].0, property.value);
  }

  /** What is sent for a parameter is the value of its place. */
  lemma SentToItsSlot(plan: Plan, given: Given, body: Option<Json>, i: nat)
    requires WellFormed(plan) && i < |plan.parameters|
    ensures Sent(Pack(plan, given, body), plan.parameters[i]) == SlotValue(given, plan.parameters[i])
  {
    hide WellFormed, FindParam, FindField;
    ParamFound(plan, i);
  }

  lemma {:induction false} PartsAgree(dump: Json -> string, ps: seq<ParameterPlan>, f: Source, g: Source)
    requires forall i :: 0 <= i < |ps| ==> f(ps[i]) == g(ps[i])
    ensures QueryOf(dump, ps, f) == QueryOf(dump, ps, g)
    ensures HeadersOf(dump, ps, f) == HeadersOf(dump, ps, g)
    ensures PathValues(ps, f) == PathValues(ps, g)
    decreases |ps|
  {
    if |ps| > 0 {
      PartsAgree(dump, ps[..|ps| - 1], f, g);
    }
  }

  /** Each parameter reaches its own place in the query, the headers or the path, whatever the
      body carries beside it. */
  lemma EachToItsSlot(dump: Json -> string, plan: Plan, given: Given, body: Option<Json>)
    requires WellFormed(plan)
    ensures var sent: Source := p => Sent(Pack(plan, given, body), p);
            var placed: Source := p => SlotValue(given, p);
            && QueryOf(dump, plan.parameters, sent) == QueryOf(dump, plan.parameters, placed)
            && HeadersOf(dump, plan.parameters, sent) == HeadersOf(dump, plan.parameters, placed)
            && PathValues(plan.parameters, sent) == PathValues(plan.parameters, placed)
  {
    hide WellFormed;
    var sent: Source := p => Sent(Pack(plan, given, body), p);
    var placed: Source := p => SlotValue(given, p);
    forall i | 0 <= i < |plan.parameters|
      ensures sent(plan.parameters[i]) == placed(plan.parameters[i])
    {
      SentToItsSlot(plan, given, body, i);
    }
    PartsAgree(dump, plan.parameters, sent, placed);
  }

  // ------------------------------------------------------------ one parameter in the query or a header

  /** The pairs with one name, in order. */
  function NamedPairs(pairs: Pairs, name: string): Pairs {
    if |pairs| == 0 then []
    else (if pairs[0].0 == name then [pairs[0]] else []) + NamedPairs(pairs[1..], name)
  }

  ghost predicate AllNamed(pairs: Pairs, name: string) {
    forall i :: 0 <= i < |pairs| ==> pairs[i].0 == name
  }

  lemma {:induction false} NamedAppend(xs: Pairs, ys: Pairs, name: string)
    ensures NamedPairs(xs + ys, name) == NamedPairs(xs, name) + NamedPairs(ys, name)
  {
    if |xs| == 0 {
      assert xs + ys == ys;
    } else {
      assert (xs + ys)[1..] == xs[1..] + ys;
      NamedAppend(xs[1..], ys, name);
      var own := if xs[0].0 == name then [xs[0]] else [];
      assert own + (NamedPairs(xs[1..], name) + NamedPairs(ys, name)) ==
             own + NamedPairs(xs[1..], name) + NamedPairs(ys, name);
    }
  }

  lemma {:induction false} NamedAlike(pairs: Pairs, own: string, name: string)
    requires AllNamed(pairs, own)
    ensures NamedPairs(pairs, name) == if own == name then pairs else []
  {
    if |pairs| > 0 {
      NamedAlike(pairs[1..], own, name);
      assert [pairs[0]] + pairs[1..] == pairs;
    }
  }

  function Flatten(parts: seq<Pairs>): Pairs {
    if |parts| == 0 then [] else Flatten(parts[..|parts| - 1]) + parts[|parts| - 1]
  }

  /** Parts with their own names can be told apart again. */
  lemma {:induction false} FlattenedOne(parts: seq<Pairs>, names: seq<string>, name: string)
    requires |names| == |parts| && Distinct(names)
    requires forall i :: 0 <= i < |parts| ==> AllNamed(parts[i], names[i])
    ensures forall i :: 0 <= i < |parts| && names[i] == name ==> NamedPairs(Flatten(parts), name) == parts[i]
    ensures name !in names ==> NamedPairs(Flatten(parts), name) == []
    decreases |parts|
  {
    hide AllNamed, NamedPairs;
    if |parts| == 0 {
      NamedAlike([], name, name);
    } else {
      var last := |parts| - 1;
      FlattenedOne(parts[..last], names[..last], name);
      NamedAppend(Flatten(parts[..last]), parts[last], name);
      NamedAlike(parts[last], names[last], name);
      if names[last] == name {
        assert name !in names[..last];
      }
    }
  }

  function QueryPart(dump: Json -> string, p: ParameterPlan, value: Source): Pairs {
    if p.location.InQuery? && value(p).Some? then QueryPairs(dump, p, value(p).value) else []
  }

  function HeaderPart(dump: Json -> string, p: ParameterPlan, value: Source): Pairs {
    if p.location.InHeader? && value(p).Some? then [(p.name, Joined(dump, value(p).value))] else []
  }

  function QueryParts(dump: Json -> string, ps: seq<ParameterPlan>, value: Source): (r: seq<Pairs>)
    ensures |r| == |ps| && forall i :: 0 <= i < |ps| ==> r[i] == QueryPart(dump, ps[i], value)
  {
    seq(|ps|, i requires 0 <= i < |ps| => QueryPart(dump, ps[i], value))
  }

  function HeaderParts(dump: Json -> string, ps: seq<ParameterPlan>, value: Source): (r: seq<Pairs>)
    ensures |r| == |ps| && forall i :: 0 <= i < |ps| ==> r[i] == HeaderPart(dump, ps[i], value)
  {
    seq(|ps|, i requires 0 <= i < |ps| => HeaderPart(dump, ps[i], value))
  }

  lemma {:induction false} PartsFlattened(dump: Json -> string, ps: seq<ParameterPlan>, value: Source)
    ensures QueryOf(dump, ps, value) == Flatten(QueryParts(dump, ps, value))
    ensures HeadersOf(dump, ps, value) == Flatten(HeaderParts(dump, ps, value))
    decreases |ps|
  {
    hide QueryPairs, Joined;
    if |ps| > 0 {
      var init := ps[..|ps| - 1];
      PartsFlattened(dump, init, value);
      assert QueryParts(dump, ps, value)[..|init|] == QueryParts(dump, init, value);
      assert HeaderParts(dump, ps, value)[..|init|] == HeaderParts(dump, init, value);
    }
  }

  lemma PartsNamed(dump: Json -> string, p: ParameterPlan, value: Source)
    ensures AllNamed(QueryPart(dump, p, value), p.name) && AllNamed(HeaderPart(dump, p, value), p.name)
  {
  }

  /** Each parameter's pairs can be read off the query and the headers by its name: exactly what
      its value becomes, and nothing when no value is sent or it belongs elsewhere. A name that
      is no parameter's has no pairs. */
  lemma PairsOfEach(dump: Json -> string, plan: Plan, value: Source, name: string)
    requires WellFormed(plan)
    ensures forall i :: 0 <= i < |plan.parameters| && plan.parameters[i].name == name ==>
              && NamedPairs(QueryOf(dump, plan.parameters, value), name) == QueryPart(dump, plan.parameters[i], value)
              && NamedPairs(HeadersOf(dump, plan.parameters, value), name) ==
                 HeaderPart(dump, plan.parameters[i], value)
    ensures (forall i :: 0 <= i < |plan.parameters| ==> plan.parameters[i].name != name) ==>
              && NamedPairs(QueryOf(dump, plan.parameters, value), name) == []
              && NamedPairs(HeadersOf(dump, plan.parameters, value), name) == []
  {
    hide QueryOf, HeadersOf, QueryPart, HeaderPart, NamedPairs, Flatten, AllNamed;
    var ps, names := plan.parameters, Names(plan.parameters);
    NamesDistinct(plan);
    PartsFlattened(dump, ps, value);
    forall i | 0 <= i < |ps|
      ensures AllNamed(QueryPart(dump, ps[i], value), names[i]) && AllNamed(HeaderPart(dump, ps[i], value), names[i])
    {
      PartsNamed(dump, ps[i], value);
    }
    FlattenedOne(QueryParts(dump, ps, value), names, name);
    FlattenedOne(HeaderParts(dump, ps, value), names, name);
  }

  lemma NamesDistinct(plan: Plan)
    requires WellFormed(plan)
    ensures Distinct(Names(plan.parameters))
    ensures forall i :: 0 <= i < |plan.parameters| ==> Names(plan.parameters)[i] == plan.parameters[i].name
  {
    hide Names;
    var names := Names(plan.parameters);
    assert forall i :: 0 <= i < |names| ==> AllNames(plan)[i] == names[i];
  }

  // ------------------------------------------------------------ the body comes back

  /** Two objects with the same value under every key. */
  ghost predicate SameFields(x: Fields, y: Fields) {
    forall k :: Get(x, k) == Get(y, k)
  }

  ghost predicate UsesOnly(body: Fields, fields: seq<(string, Key)>) {
    forall i :: 0 <= i < |body| ==> exists j :: 0 <= j < |fields| && fields[j].1 == body[i].0
  }

  ghost predicate HasProperty(fields: seq<(string, Key)>, key: Key) {
    exists j :: 0 <= j < |fields| && fields[j].1 == key
  }

  lemma {:induction false} PayloadLookup(fields: seq<(string, Key)>, arguments: ToolArguments, body: Fields, key: Key)
    requires forall i :: 0 <= i < |fields| ==>
               var v := Get(body, fields[i].1);
               (fields[i].0 in arguments <==> v.Some?) && (v.Some? ==> arguments[fields[i].0] == v.value)
    ensures Get(PayloadFields(fields, arguments), key) == if HasProperty(fields, key) then Get(body, key) else None
  {
    if |fields| > 0 {
      var rest := fields[1..];
      PayloadLookup(rest, arguments, body, key);
      var head := if fields[0].0 in arguments then [(fields[0].1, arguments[fields[0].0])] else [];
      var payload := PayloadFields(fields, arguments);
      assert payload == head + PayloadFields(rest, arguments);
      assert HasProperty(fields, key) <==> fields[0].1 == key || HasProperty(rest, key) by {
        if HasProperty(rest, key) {
          var j :| 0 <= j < |rest| && rest[j].1 == key;
          assert fields[j + 1].1 == key;
        }
      }
      if |head| == 1 {
        assert payload[1..] == PayloadFields(rest, arguments);
      } else {
        assert payload == PayloadFields(rest, arguments);
      }
    }
  }

  lemma PackedField(plan: Plan, given: Given, body: Fields, i: nat)
    requires WellFormed(plan) && plan.body.Some? && plan.body.value.mode.Merged? && i < |plan.body.value.fields|
    ensures var field := plan.body.value.fields[i];
            var arguments := Pack(plan, given, Some(Obj(body)));
            && (field.0 in arguments <==> Get(body, field.1).Some?)
            && (field.0 in arguments ==> arguments[field.0] == Get(body, field.1).value)
  {
    hide WellFormed, FindParam, FindField, Get;
    FieldFound(plan, i);
  }

  lemma NothingHasNothing(fields: Fields)
    ensures fields == [] <==> SameFields(fields, [])
  {
    if |fields| > 0 {
      assert Get(fields, fields[0].0).Some? && Get([], fields[0].0).None?;
    }
  }

  /** A merged body is recovered exactly, property by property, through every renaming. It is
      left out only when it is empty and the operation does not require one. */
  lemma MergedBodyRecovered(plan: Plan, given: Given, body: Fields)
    requires WellFormed(plan) && plan.body.Some? && plan.body.value.mode.Merged?
    requires UsesOnly(body, plan.body.value.fields)
    ensures var payload := PayloadOf(plan.body, Pack(plan, given, Some(Obj(body))));
            if body == [] && !plan.body.value.required then payload.None?
            else payload.Some? && payload.value.Obj? && SameFields(payload.value.fields, body)
  {
    hide WellFormed, Pack, Get, PayloadFields;
    var fields := plan.body.value.fields;
    var arguments := Pack(plan, given, Some(Obj(body)));
    forall i | 0 <= i < |fields|
      ensures var v := Get(body, fields[i].1);
              (fields[i].0 in arguments <==> v.Some?) && (v.Some? ==> arguments[fields[i].0] == v.value)
    {
      PackedField(plan, given, body, i);
    }
    var payload := PayloadFields(fields, arguments);
    forall key
      ensures Get(payload, key) == Get(body, key)
    {
      PayloadLookup(fields, arguments, body, key);
      if Get(body, key).Some? {
        var i :| 0 <= i < |body| && body[i] == (key, Get(body, key).value);
        assert HasProperty(fields, key);
      }
    }
    NothingHasNothing(payload);
    NothingHasNothing(body);
  }

  /** A whole body is recovered as it is, null included; without one none is sent. */
  lemma WholeBodyRecovered(plan: Plan, given: Given, body: Option<Json>)
    requires WellFormed(plan) && plan.body.Some? && plan.body.value.mode.Whole?
    ensures PayloadOf(plan.body, Pack(plan, given, body)) == body
  {
    FieldFound(plan, 0);
  }

  // ------------------------------------------------------------ the path

  /** Later parameters of other names leave a path value as it is. */
  lemma {:induction false} PathValueAt(plan: Plan, value: Source, n: nat, i: nat)
    requires WellFormed(plan) && i < n <= |plan.parameters| && plan.parameters[i].location.InPath?
    ensures var values := PathValues(plan.parameters[..n], value);
            plan.parameters[i].name in values && values[plan.parameters[i].name] == value(plan.parameters[i])
    decreases n
  {
    var ps := plan.parameters;
    assert ps[..n][..n - 1] == ps[..n - 1];
    if i < n - 1 {
      PathValueAt(plan, value, n - 1, i);
      DistinctNames(plan, i, n - 1);
    }
  }

  lemma DistinctNames(plan: Plan, i: nat, j: nat)
    requires WellFormed(plan) && i < j < |plan.parameters|
    ensures plan.parameters[i].name != plan.parameters[j].name
  {
    assert AllNames(plan)[i] == plan.parameters[i].argument && AllNames(plan)[j] == plan.parameters[j].argument;
  }

  /** The place of a path variable holds a value that is not empty. */
  predicate PlaceFilled(given: Given, variable: string) {
    (InPath, variable) in given && given[(InPath, variable)] !in {Null, Str(""), Arr([])}
  }

  lemma VariableGiven(plan: Plan, given: Given, placed: Source, variable: string)
    requires WellFormed(plan) && Declares(plan.parameters, variable)
    requires forall p :: placed(p) == SlotValue(given, p)
    ensures var values := PathValues(plan.parameters, placed);
            variable in values && (!Refused(values[variable]) <==> PlaceFilled(given, variable))
  {
    hide WellFormed, PathValues;
    var ps := plan.parameters;
    var k :| 0 <= k < |ps| && ps[k].location.InPath? && ps[k].name == variable;
    assert ps[..|ps|] == ps;
    PathValueAt(plan, placed, |ps|, k);
    assert SlotOf(ps[k]) == (InPath, variable);
  }

  /** With every template variable declared, a packed request's path is built exactly when each
      variable is given a value that is not empty. */
  lemma PathBuiltIff(dump: Json -> string, pieces: seq<Piece>, plan: Plan, given: Given, body: Option<Json>)
    requires WellFormed(plan) && VariablesDeclared(pieces, plan.parameters)
    ensures var result := PathOf(dump, pieces, PathValues(plan.parameters, p => Sent(Pack(plan, given, body), p)));
            result.Path? <==>
              forall i :: 0 <= i < |pieces| && pieces[i].Variable? ==> PlaceFilled(given, pieces[i].name)
  {
    hide WellFormed, Pack, PathValues, PathOf, Refused, PlaceFilled, Declares, QueryOf, HeadersOf;
    EachToItsSlot(dump, plan, given, body);
    var placed: Source := p => SlotValue(given, p);
    var values := PathValues(plan.parameters, placed);
    forall i | 0 <= i < |pieces| && pieces[i].Variable?
      ensures pieces[i].name in values
      ensures !Refused(values[pieces[i].name]) <==> PlaceFilled(given, pieces[i].name)
    {
      VariableGiven(plan, given, placed, pieces[i].name);
    }
    PathIff(dump, pieces, values);
  }

  // ------------------------------------------------------------ the packed arguments are accepted

  /** What the tool's argument schema demands: a closed object with these properties. */
  ghost predicate Accepts(a: Assertions, scope: Scope, d: Dialect, plan: Plan, arguments: ToolArguments)
    requires WellRanked(scope)
  {
    && (forall x :: x in arguments ==> x in plan.properties && Valid(a, scope, d, plan.properties[x], arguments[x]))
    && (forall x :: x in plan.required ==> x in arguments)
  }

  /** The values given to parameters fit their schemas, and none that is required is missing. */
  ghost predicate GivenFits(a: Assertions, scope: Scope, d: Dialect, plan: Plan, given: Given)
    requires WellRanked(scope)
  {
    forall i :: 0 <= i < |plan.parameters| ==>
      var p := plan.parameters[i];
      && (p.argument in plan.required ==> SlotOf(p) in given)
      && (p.argument in plan.properties && SlotOf(p) in given ==>
          Valid(a, scope, d, plan.properties[p.argument], given[SlotOf(p)]))
  }

  lemma {:induction false} FirstOfDistinct(fields: Fields, i: nat)
    requires DistinctTexts(fields) && i < |fields|
    ensures Get(fields, fields[i].0) == Some(fields[i].1)
  {
    if i > 0 {
      assert fields[0].0.Text() != fields[i].0.Text();
      FirstOfDistinct(fields[1..], i - 1);
    }
  }

  lemma ParameterAccepted(a: Assertions, scope: Scope, d: Dialect, before: Plan, plan: Plan, given: Given,
                          body: Option<Json>, i: nat)
    requires WellRanked(scope) && WellFormed(plan) && GivenFits(a, scope, d, before, given)
    requires plan.parameters == before.parameters && i < |plan.parameters|
    requires before.properties.Keys <= plan.properties.Keys
    requires forall x :: x in before.properties ==> plan.properties[x] == before.properties[x]
    requires plan.parameters[i].argument in before.properties
    ensures var x, arguments := plan.parameters[i].argument, Pack(plan, given, body);
            && (x in arguments <==> SlotOf(plan.parameters[i]) in given)
            && (x in arguments ==> x in plan.properties && Valid(a, scope, d, plan.properties[x], arguments[x]))
  {
    hide WellFormed, WellRanked, Valid, FindParam, FindField;
    ParamFound(plan, i);
  }

  lemma FieldAccepted(a: Assertions, scope: Scope, d: Dialect, plan: Plan, flat: Flat, given: Given, body: Fields,
                      i: nat)
    requires WellRanked(scope) && WellFormed(plan) && plan.body.Some? && plan.body.value.mode.Merged?
    requires |plan.body.value.fields| == |flat.properties| && i < |flat.properties| && DistinctTexts(flat.properties)
    requires plan.body.value.fields[i].1 == flat.properties[i].0
    requires plan.body.value.fields[i].0 in plan.properties
    requires plan.properties[plan.body.value.fields[i].0] == flat.properties[i].1
    requires Fits(a, scope, d, flat, Obj(body))
    ensures var x, arguments := plan.body.value.fields[i].0, Pack(plan, given, Some(Obj(body)));
            x in arguments ==> Valid(a, scope, d, plan.properties[x], arguments[x])
  {
    hide WellFormed, WellRanked, Valid, FindParam, FindField, Get, Pack, DistinctTexts;
    PackedField(plan, given, body, i);
    FirstOfDistinct(flat.properties, i);
    var key := flat.properties[i].0;
    if Get(body, key).Some? {
      var k :| 0 <= k < |body| && body[k] == (key, Get(body, key).value);
      assert Obj(body).fields[k].0 == key;
    }
  }

  /** A required property is among the arguments when the body has it. */
  lemma RequiredPacked(plan: Plan, given: Given, body: Fields, required: seq<string>)
    requires WellFormed(plan) && plan.body.Some? && plan.body.value.mode.Merged?
    requires UsesOnly(body, plan.body.value.fields)
    requires forall r :: r in required ==> HasText(Obj(body), r)
    ensures forall x :: x in ArgumentsOf(plan.body.value.fields, required) ==> x in Pack(plan, given, Some(Obj(body)))
  {
    hide Pack, Get, ArgumentOf;
    var fields := plan.body.value.fields;
    forall x | x in ArgumentsOf(fields, required)
      ensures x in Pack(plan, given, Some(Obj(body)))
    {
      var i :| 0 <= i < |required| && ArgumentOf(fields, required[i]) == Some(x);
      var k :| 0 <= k < |fields| && fields[k].0 == x && fields[k].1.Text() == required[i];
      assert required[i] in required;
      var m :| 0 <= m < |body| && body[m].0.Text() == required[i];
      var j :| 0 <= j < |fields| && fields[j].1 == body[m].0;
      assert WellFormedBody(plan.body.value) && j == k;
      PackedField(plan, given, body, k);
    }
  }

  /** The names of a plan's parameters are those of its properties, as long as it has no body. */
  lemma ParameterNamed(before: Plan, x: string)
    requires WellFormed(before) && before.body.None? && x in before.properties
    ensures exists i :: 0 <= i < |before.parameters| && before.parameters[i].argument == x
  {
    assert AllNames(before) == Names(before.parameters);
    var i :| 0 <= i < |AllNames(before)| && AllNames(before)[i] == x;
    assert before.parameters[i].argument == x;
  }

  /** Whatever the API accepts, the tool accepts: parameters that fit their schemas, with a body
      that is valid under the operation's own schema and uses its flattened properties, pack
      into arguments that the tool's argument schema takes. */
  lemma MergedAccepted(a: Assertions, scope: Scope, d: Dialect, schema: Json, before: Plan, plan: Plan, media: string,
                       required: bool, given: Given, body: Fields)
    requires WellRanked(scope) && ObjectFields(scope, schema, 0).Some?
    requires DistinctTexts(ObjectFields(scope, schema, 0).value.properties)
    requires WellFormed(before) && before.body.None?
    requires AddsMerged(before, plan, ObjectFields(scope, schema, 0).value, media, required)
    requires GivenFits(a, scope, d, before, given)
    requires Valid(a, scope, d, schema, Obj(body)) && UsesOnly(body, plan.body.value.fields)
    ensures Accepts(a, scope, d, plan, Pack(plan, given, Some(Obj(body))))
  {
    hide WellFormed, WellRanked, Valid, ObjectFields, Fits, Renamed, DistinctTexts, GivenFits, Args, ArgumentsOf,
      FindParam, FindField, UsesOnly;
    var flat := ObjectFields(scope, schema, 0).value;
    NeverOverRestricts(a, scope, d, schema, 0, Obj(body));
    MergedWellFormed(before, plan, flat, media, required);
    var arguments := Pack(plan, given, Some(Obj(body)));
    var fields := plan.body.value.fields;
    forall x | x in arguments
      ensures x in plan.properties && Valid(a, scope, d, plan.properties[x], arguments[x])
    {
      assert x in plan.properties;
      if x in before.properties {
        ParameterNamed(before, x);
        var i :| 0 <= i < |before.parameters| && before.parameters[i].argument == x;
        ParameterAccepted(a, scope, d, before, plan, given, Some(Obj(body)), i);
      } else {
        assert x in Args(fields);
        var i :| 0 <= i < |fields| && Args(fields)[i] == x;
        FieldAccepted(a, scope, d, plan, flat, given, body, i);
      }
    }
    RequiredGiven(a, scope, d, before, plan, given, Some(Obj(body)));
    if required {
      RequiredFits(a, scope, d, flat, body);
      RequiredPacked(plan, given, body, flat.required);
    }
  }

  lemma RequiredFits(a: Assertions, scope: Scope, d: Dialect, flat: Flat, body: Fields)
    requires WellRanked(scope) && Fits(a, scope, d, flat, Obj(body))
    ensures forall r :: r in flat.required ==> HasText(Obj(body), r)
  {
  }

  lemma RequiredGiven(a: Assertions, scope: Scope, d: Dialect, before: Plan, plan: Plan, given: Given,
                      body: Option<Json>)
    requires WellRanked(scope) && WellFormed(before) && before.body.None? && WellFormed(plan)
    requires GivenFits(a, scope, d, before, given) && plan.parameters == before.parameters
    requires before.properties.Keys <= plan.properties.Keys
    requires forall x :: x in before.properties ==> plan.properties[x] == before.properties[x]
    ensures forall x :: x in before.required ==> x in Pack(plan, given, body)
  {
    hide WellRanked, Valid, FindParam, FindField, Pack;
    forall x | x in before.required
      ensures x in Pack(plan, given, body)
    {
      ParameterNamed(before, x);
      var i :| 0 <= i < |before.parameters| && before.parameters[i].argument == x;
      ParameterAccepted(a, scope, d, before, plan, given, body, i);
    }
  }

  /** The same for a body that goes whole, and for an optional one left out. */
  lemma WholeAccepted(a: Assertions, scope: Scope, d: Dialect, schema: Json, before: Plan, plan: Plan, media: string,
                      required: bool, given: Given, body: Option<Json>)
    requires WellRanked(scope) && WellFormed(before) && before.body.None?
    requires AddsWhole(before, plan, schema, media, required)
    requires GivenFits(a, scope, d, before, given)
    requires if body.Some? then Valid(a, scope, d, schema, body.value) else !required
    ensures Accepts(a, scope, d, plan, Pack(plan, given, body))
  {
    hide WellFormed, WellRanked, Valid, GivenFits, FindParam, FindField;
    WholeWellFormed(before, plan, schema, media, required);
    var arguments := Pack(plan, given, body);
    var argument := plan.body.value.fields[0].0;
    FieldFound(plan, 0);
    forall x | x in arguments
      ensures x in plan.properties && Valid(a, scope, d, plan.properties[x], arguments[x])
    {
      if x in before.properties {
        ParameterNamed(before, x);
        var i :| 0 <= i < |before.parameters| && before.parameters[i].argument == x;
        ParameterAccepted(a, scope, d, before, plan, given, body, i);
      } else {
        assert x == argument && arguments[x] == body.value;
      }
    }
    RequiredGiven(a, scope, d, before, plan, given, body);
  }

  /** Without a body, only parameters have arguments. */
  lemma OnlyParameters(before: Plan, plan: Plan, given: Given)
    requires WellFormed(plan) && plan.body.Some?
    requires forall x :: x in plan.properties <==> x in before.properties || x in Args(plan.body.value.fields)
    ensures forall x :: x in Pack(plan, given, None) ==> x in before.properties
  {
    hide WellFormed, FindParam, FindField, Args;
    var fields := BodyFields(plan.body);
    forall i | 0 <= i < |fields|
      ensures Args(fields)[i] !in Pack(plan, given, None)
    {
      FieldFound(plan, i);
    }
  }

  /** An optional merged body may be left out. */
  lemma BodylessAccepted(a: Assertions, scope: Scope, d: Dialect, flat: Flat, before: Plan, plan: Plan, media: string,
                         given: Given)
    requires WellRanked(scope) && WellFormed(before) && before.body.None? && DistinctTexts(flat.properties)
    requires AddsMerged(before, plan, flat, media, false) && GivenFits(a, scope, d, before, given)
    ensures Accepts(a, scope, d, plan, Pack(plan, given, None))
  {
    hide WellFormed, WellRanked, Valid, Renamed, DistinctTexts, GivenFits, Args, FindParam, FindField, ArgumentsOf,
      SlotOf, Pack;
    MergedWellFormed(before, plan, flat, media, false);
    OnlyParameters(before, plan, given);
    var arguments := Pack(plan, given, None);
    forall x | x in arguments
      ensures x in plan.properties && Valid(a, scope, d, plan.properties[x], arguments[x])
    {
      ParameterNamed(before, x);
      var i :| 0 <= i < |before.parameters| && before.parameters[i].argument == x;
      ParameterAccepted(a, scope, d, before, plan, given, None, i);
    }
    RequiredGiven(a, scope, d, before, plan, given, None);
  }
}
