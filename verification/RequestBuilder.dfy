/** `build_request`: tool arguments turned back into the parts of a request. */
module RequestBuilder {
  import opened JsonValues
  import opened PathBuilding
  import opened OperationArguments

  type ToolArguments = map<string, Json>

  type Pairs = seq<(string, string)>

  /** A body as it is written: JSON, or the pairs of a form. */
  datatype Content = JsonBody(payload: Json) | FormBody(pairs: Pairs)

  datatype Built =
    | Request(path: string, query: Pairs, headers: Pairs, content: Option<Content>, contentType: Option<string>)
    | ControlCharacters(name: string)
    | EmptyPathValue(name: string)
    | NoSuchVariable(name: string)

  /** What is sent for a parameter: nothing when its argument is missing or null. */
  function Sent(arguments: ToolArguments, p: ParameterPlan): Option<Json> {
    if p.argument !in arguments || arguments[p.argument] == Null then None else Some(arguments[p.argument])
  }

  function Scalars(dump: Json -> string, items: seq<Json>): (r: seq<string>)
    ensures |r| == |items| && forall i :: 0 <= i < |items| ==> r[i] == Scalar(dump, items[i])
  {
    seq(|items|, i requires 0 <= i < |items| => Scalar(dump, items[i]))
  }

  /** A list as one text with commas, anything else as its own text. */
  function Joined(dump: Json -> string, v: Json): string {
    if v.Arr? then Join(Scalars(dump, v.items)) else Scalar(dump, v)
  }

  function Repeated(dump: Json -> string, name: string, items: seq<Json>): (r: Pairs)
    ensures |r| == |items| && forall i :: 0 <= i < |items| ==> r[i] == (name, Scalar(dump, items[i]))
  {
    seq(|items|, i requires 0 <= i < |items| => (name, Scalar(dump, items[i])))
  }

  function QueryPairs(dump: Json -> string, p: ParameterPlan, v: Json): Pairs {
    if v == Arr([]) then []
    else if v.Arr? && p.explode then Repeated(dump, p.name, v.items)
    else [(p.name, Joined(dump, v))]
  }

  predicate HasControl(text: string) {
    exists i :: 0 <= i < |text| && (text[i] as int < 0x20 || text[i] as int == 0x7F)
  }

  // ------------------------------------------------------------ the parts, from any source of values

  /** Where each parameter's value comes from. */
  type Source = ParameterPlan -> Option<Json>

  function QueryOf(dump: Json -> string, ps: seq<ParameterPlan>, value: Source): Pairs {
    if |ps| == 0 then []
    else
      var p := ps[|ps| - 1];
      QueryOf(dump, ps[..|ps| - 1], value) +
      if p.location.InQuery? && value(p).Some? then QueryPairs(dump, p, value(p).value) else []
  }

  function HeadersOf(dump: Json -> string, ps: seq<ParameterPlan>, value: Source): Pairs {
    if |ps| == 0 then []
    else
      var p := ps[|ps| - 1];
      HeadersOf(dump, ps[..|ps| - 1], value) +
      if p.location.InHeader? && value(p).Some? then [(p.name, Joined(dump, value(p).value))] else []
  }

  predicate HeaderRefused(dump: Json -> string, p: ParameterPlan, value: Source) {
    p.location.InHeader? && value(p).Some? && HasControl(Joined(dump, value(p).value))
  }

  function PathValues(ps: seq<ParameterPlan>, value: Source): Values {
    if |ps| == 0 then map[]
    else
      var p := ps[|ps| - 1];
      var before := PathValues(ps[..|ps| - 1], value);
      if p.location.InPath? then before[p.name := value(p)] else before
  }

  function PayloadFields(fields: seq<(string, Key)>, arguments: ToolArguments): Fields {
    if |fields| == 0 then []
    else
      var (argument, property) := fields[0];
      (if argument in arguments then [(property, arguments[argument])] else []) + PayloadFields(fields[1..], arguments)
  }

  /** The body's value, if one is sent. */
  function PayloadOf(body: Option<BodyPlan>, arguments: ToolArguments): Option<Json> {
    match body
    case None => None
    case Some(BodyPlan(_, Whole, fields, _)) =>
      if |fields| == 1 && fields[0].0 in arguments then Some(arguments[fields[0].0]) else None
    case Some(BodyPlan(_, Merged, fields, required)) =>
      var payload := PayloadFields(fields, arguments);
      if |payload| == 0 && !required then None else Some(Obj(payload))
  }

  function FormPairs(dump: Json -> string, fields: Fields): Pairs {
    if |fields| == 0 then []
    else
      var (name, v) := fields[0];
      (if v.Arr? then Repeated(dump, name.Text(), v.items) else [(name.Text(), Scalar(dump, v))]) +
      FormPairs(dump, fields[1..])
  }

  function ContentOf(dump: Json -> string, media: string, payload: Json): Content {
    if media == FORM_MEDIA && payload.Obj? then FormBody(FormPairs(dump, payload.fields)) else JsonBody(payload)
  }

  method BuildRequest(dump: Json -> string, template: string, plan: Plan, arguments: ToolArguments) returns (r: Built)
    ensures r.ControlCharacters? <==>
            exists i :: 0 <= i < |plan.parameters| && HeaderRefused(dump, plan.parameters[i], p => Sent(arguments, p))
    ensures !r.ControlCharacters? ==>
              match PathOf(dump, Pieces(template, 0), PathValues(plan.parameters, p => Sent(arguments, p)))
              case EmptyValue(name) => r == EmptyPathValue(name)
              case Undeclared(name) => r == NoSuchVariable(name)
              case Path(path) =>
                && r.Request? && r.path == path
                && r.query == QueryOf(dump, plan.parameters, p => Sent(arguments, p))
                && r.headers == HeadersOf(dump, plan.parameters, p => Sent(arguments, p))
                && (match PayloadOf(plan.body, arguments)
                    case None => r.content.None? && r.contentType.None?
                    case Some(payload) =>
                      && r.content == Some(ContentOf(dump, plan.body.value.media, payload))
                      && r.contentType == Some(plan.body.value.media))
  {
    hide PathOf, Pieces, Joined, QueryPairs, PayloadOf, ContentOf, HasControl;
    var value: Source := p => Sent(arguments, p);
    var ps := plan.parameters;
    var query: Pairs, headers: Pairs, values: Values := [], [], map[];
    for i := 0 to |ps|
      invariant query == QueryOf(dump, ps[..i], value) && headers == HeadersOf(dump, ps[..i], value)
      invariant values == PathValues(ps[..i], value)
      invariant forall j :: 0 <= j < i ==> !HeaderRefused(dump, ps[j], value)
    {
      assert ps[..i + 1][..i] == ps[..i];
      var p := ps[i];
      var sent := Sent(arguments, p);
      if p.location.InPath? {
        values := values[p.name := sent];
      }
      if sent.Some? {
        if p.location.InQuery? {
          query := query + QueryPairs(dump, p, sent.value);
        } else if p.location.InHeader? {
          var text := Joined(dump, sent.value);
          if HasControl(text) {
            return ControlCharacters(p.name);
          }
          headers := headers + [(p.name, text)];
        }
      }
    }
    assert ps[..|ps|] == ps;
    var path := BuildPath(dump, template, values);
    match path {
      case EmptyValue(name) => return EmptyPathValue(name);
      case Undeclared(name) => return NoSuchVariable(name);
      case Path(text) =>
        var payload := PayloadOf(plan.body, arguments);
        if payload.None? {
          return Request(text, query, headers, None, None);
        }
        BodyThere(plan.body, arguments);
        var media := plan.body.value.media;
        return Request(text, query, headers, Some(ContentOf(dump, media, payload.value)), Some(media));
    }
  }

  lemma BodyThere(body: Option<BodyPlan>, arguments: ToolArguments)
    ensures PayloadOf(body, arguments).Some? ==> body.Some?
  {
  }
}
