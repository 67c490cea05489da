/** Reading a request back: a server that reads form-style parameters, plain headers and form
    bodies recovers the values that were sent. */
module RequestReading {
  import opened JsonValues
  import opened Splitting
  import opened PathBuilding
  import opened OperationArguments
  import opened RequestBuilder
  import opened RequestRoundTrip

  // ------------------------------------------------------------ one text

  /** The values a text stands for in JSON as it is written. */
  function LiteralOf(text: string): Option<Json> {
    if text == "true" then Some(Bool(true))
    else if text == "false" then Some(Bool(false))
    else if text == "" then Some(Null)
    else None
  }

  /** `text` stands for `v`: truth values and null by their literals, a text as it is, and
      everything else as the JSON writer has it. */
  predicate TextReads(dump: Json -> string, text: string, v: Json) {
    if v.Bool? || v.Null? then LiteralOf(text) == Some(v)
    else if v.Str? then text == v.s
    else text == dump(v)
  }

  lemma ScalarReads(dump: Json -> string, v: Json)
    ensures TextReads(dump, Scalar(dump, v), v)
  {
    assert "true"[0] == 't' && "false"[0] == 'f' && |"true"| == 4;
  }

  /** The texts stand for the items, one by one. */
  ghost predicate TextsRead(dump: Json -> string, texts: seq<string>, items: seq<Json>) {
    |texts| == |items| && forall i :: 0 <= i < |items| ==> TextReads(dump, texts[i], items[i])
  }

  /** `text` stands for a list whose items it holds between commas, as far as no item brings a
      comma of its own; an empty list is an empty text. */
  ghost predicate ListReads(dump: Json -> string, text: string, items: seq<Json>) {
    && (|items| == 0 ==> text == "")
    && (forall texts | |items| > 0 && TextsRead(dump, texts, items) &&
        (forall i :: 0 <= i < |texts| ==> ',' !in texts[i]) ::
          Split(text, ',') == texts)
    && exists texts :: TextsRead(dump, texts, items) && text == Join(texts)
  }

  ghost predicate ValueReads(dump: Json -> string, text: string, v: Json) {
    if v.Arr? then ListReads(dump, text, v.items) else TextReads(dump, text, v)
  }

  lemma TextUnique(dump: Json -> string, x: string, y: string, v: Json)
    requires TextReads(dump, x, v) && TextReads(dump, y, v)
    ensures x == y
  {
  }

  lemma JoinedReads(dump: Json -> string, v: Json)
    ensures ValueReads(dump, Joined(dump, v), v)
  {
    hide Scalar, TextReads, SplitFrom;
    if v.Arr? {
      var own := Scalars(dump, v.items);
      forall i | 0 <= i < |own|
        ensures TextReads(dump, own[i], v.items[i])
      {
        ScalarReads(dump, v.items[i]);
      }
      assert TextsRead(dump, own, v.items);
      forall texts | |v.items| > 0 && TextsRead(dump, texts, v.items) &&
        (forall i :: 0 <= i < |texts| ==> ',' !in texts[i])
        ensures Split(Joined(dump, v), ',') == texts
      {
        forall i | 0 <= i < |own|
          ensures own[i] == texts[i]
        {
          TextUnique(dump, own[i], texts[i], v.items[i]);
        }
        assert own == texts;
        SplitJoin(texts);
      }
    } else {
      ScalarReads(dump, v);
    }
  }

  // ------------------------------------------------------------ query, headers, forms

  ghost predicate AllUnder(pairs: Pairs, name: string) {
    forall i :: 0 <= i < |pairs| ==> pairs[i].0 == name
  }

  function TextsOf(pairs: Pairs): (r: seq<string>)
    ensures |r| == |pairs| && forall i :: 0 <= i < |r| ==> r[i] == pairs[i].1
  {
    seq(|pairs|, i requires 0 <= i < |pairs| => pairs[i].1)
  }

  /** Form style: with `explode` a pair for each item, without it one pair with commas, and
      nothing at all for an empty list; any other value is one pair. */
  ghost predicate QueryReads(dump: Json -> string, name: string, explode: bool, pairs: Pairs, v: Json) {
    && AllUnder(pairs, name)
    && (if v.Arr? && (explode || |v.items| == 0) then TextsRead(dump, TextsOf(pairs), v.items)
        else |pairs| == 1 && ValueReads(dump, pairs[0].1, v))
  }

  lemma QueryPairsRead(dump: Json -> string, p: ParameterPlan, v: Json)
    ensures QueryReads(dump, p.name, p.explode, QueryPairs(dump, p, v), v)
  {
    hide Scalar, TextReads, ListReads, Joined;
    JoinedReads(dump, v);
    if v.Arr? {
      forall i | 0 <= i < |v.items|
        ensures TextReads(dump, Scalar(dump, v.items[i]), v.items[i])
      {
        ScalarReads(dump, v.items[i]);
      }
    }
  }

  /** A control character would end the header. */
  ghost predicate CleanText(text: string) {
    forall c :: c in text ==> c as int >= 32 && c as int != 127
  }

  lemma ControlIff(text: string)
    ensures HasControl(text) <==> !CleanText(text)
  {
    if HasControl(text) {
      var i :| 0 <= i < |text| && (text[i] as int < 0x20 || text[i] as int == 0x7F);
      assert text[i] in text;
    }
  }

  /** A form body: the pairs under a property's name stand for its value, a list item by item. */
  ghost predicate FormReads(dump: Json -> string, pairs: Pairs, v: Json) {
    if v.Arr? then TextsRead(dump, TextsOf(pairs), v.items)
    else |pairs| == 1 && TextReads(dump, pairs[0].1, v)
  }

  function FormPart(dump: Json -> string, name: string, v: Json): Pairs {
    if v.Arr? then Repeated(dump, name, v.items) else [(name, Scalar(dump, v))]
  }

  lemma FormPartReads(dump: Json -> string, name: string, v: Json)
    ensures FormReads(dump, FormPart(dump, name, v), v) && AllUnder(FormPart(dump, name, v), name)
  {
    hide Scalar, TextReads;
    if v.Arr? {
      forall i | 0 <= i < |v.items|
        ensures TextReads(dump, Scalar(dump, v.items[i]), v.items[i])
      {
        ScalarReads(dump, v.items[i]);
      }
    } else {
      ScalarReads(dump, v);
    }
  }

  /** Every property of a form body is read back under its own name, and no other name is there. */
  lemma {:induction false} FormBodyReads(dump: Json -> string, fields: Fields, name: string)
    requires DistinctTexts(fields)
    ensures forall i :: 0 <= i < |fields| && fields[i].0.Text() == name ==>
              FormReads(dump, NamedPairs(FormPairs(dump, fields), name), fields[i].1)
    ensures (forall i :: 0 <= i < |fields| ==> fields[i].0.Text() != name) ==>
              NamedPairs(FormPairs(dump, fields), name) == []
    decreases |fields|
  {
    hide NamedPairs, FormReads, Scalar;
    if |fields| == 0 {
      NamedAlike([], name, name);
    } else {
      var (key, v) := fields[0];
      var rest := fields[1..];
      FormBodyReads(dump, rest, name);
      var own, more := FormPart(dump, key.Text(), v), FormPairs(dump, rest);
      assert FormPairs(dump, fields) == own + more;
      FormPartReads(dump, key.Text(), v);
      NamedAppend(own, more, name);
      NamedAlike(own, key.Text(), name);
      assert own + [] == own && [] + NamedPairs(more, name) == NamedPairs(more, name);
      assert forall i :: 1 <= i < |fields| ==> fields[i] == rest[i - 1];
      if key.Text() == name {
        assert forall i :: 0 <= i < |rest| ==> rest[i].0.Text() != name;
      }
    }
  }

  // ------------------------------------------------------------ a whole request

  /** Read under each parameter's name, the query and the headers give back what was meant for
      its place, and nothing where it has another place or no value. Only clean texts go out. */
  ghost predicate Readable(dump: Json -> string, plan: Plan, value: Source, query: Pairs, headers: Pairs) {
    forall i :: 0 <= i < |plan.parameters| ==>
      var p := plan.parameters[i];
      var inQuery, inHeaders := NamedPairs(query, p.name), NamedPairs(headers, p.name);
      && (if p.location == InQuery && value(p).Some?
          then QueryReads(dump, p.name, p.explode, inQuery, value(p).value) else inQuery == [])
      && (if p.location == InHeader && value(p).Some?
          then |inHeaders| == 1 && ValueReads(dump, inHeaders[0].1, value(p).value) else inHeaders == [])
  }

  lemma RequestReads(dump: Json -> string, plan: Plan, value: Source)
    requires WellFormed(plan)
    ensures Readable(dump, plan, value, QueryOf(dump, plan.parameters, value), HeadersOf(dump, plan.parameters, value))
  {
    hide WellFormed, QueryOf, HeadersOf, NamedPairs, QueryPairs, QueryReads, ValueReads, Joined;
    forall i | 0 <= i < |plan.parameters|
      ensures var p := plan.parameters[i];
              var inQuery := NamedPairs(QueryOf(dump, plan.parameters, value), p.name);
              var inHeaders := NamedPairs(HeadersOf(dump, plan.parameters, value), p.name);
              && (if p.location == InQuery && value(p).Some?
                  then QueryReads(dump, p.name, p.explode, inQuery, value(p).value) else inQuery == [])
              && (if p.location == InHeader && value(p).Some?
                  then |inHeaders| == 1 && ValueReads(dump, inHeaders[0].1, value(p).value) else inHeaders == [])
    {
      var p := plan.parameters[i];
      PairsOfEach(dump, plan, value, p.name);
      if value(p).Some? {
        QueryPairsRead(dump, p, value(p).value);
        JoinedReads(dump, value(p).value);
      }
    }
  }

  ghost predicate IsField(fields: Fields, name: string) {
    exists j :: 0 <= j < |fields| && fields[j].0.Text() == name
  }

  /** A body stands for its value: a form property by property, anything else as JSON. */
  ghost predicate ContentReads(dump: Json -> string, media: string, payload: Json, content: Content) {
    if media == "application/x-www-form-urlencoded" && payload.Obj? then
      && content.FormBody?
      && (DistinctTexts(payload.fields) ==>
            forall i :: 0 <= i < |payload.fields| ==>
              FormReads(dump, NamedPairs(content.pairs, payload.fields[i].0.Text()), payload.fields[i].1))
      && (forall i :: 0 <= i < |content.pairs| ==> IsField(payload.fields, content.pairs[i].0))
    else content == JsonBody(payload)
  }

  lemma {:induction false} FormNames(dump: Json -> string, fields: Fields)
    ensures forall i :: 0 <= i < |FormPairs(dump, fields)| ==> IsField(fields, FormPairs(dump, fields)[i].0)
    decreases |fields|
  {
    hide Scalar;
    if |fields| > 0 {
      var (key, v) := fields[0];
      var own: Pairs, rest: Pairs := FormPart(dump, key.Text(), v), FormPairs(dump, fields[1..]);
      var all: Pairs := own + rest;
      FormNames(dump, fields[1..]);
      FormPartReads(dump, key.Text(), v);
      assert FormPairs(dump, fields) == all;
      forall i | 0 <= i < |all|
        ensures IsField(fields, all[i].0)
      {
        if i < |own| {
          assert fields[0].0.Text() == own[i].0;
        } else {
          assert IsField(fields[1..], rest[i - |own|].0);
          var j :| 0 <= j < |fields[1..]| && fields[1..][j].0.Text() == rest[i - |own|].0;
          assert fields[j + 1] == fields[1..][j];
        }
      }
    }
  }

  lemma ContentOfReads(dump: Json -> string, media: string, payload: Json)
    ensures ContentReads(dump, media, payload, ContentOf(dump, media, payload))
  {
    hide NamedPairs, FormReads, FormPairs;
    if payload.Obj? {
      FormNames(dump, payload.fields);
      if DistinctTexts(payload.fields) {
        forall i | 0 <= i < |payload.fields|
          ensures FormReads(dump, NamedPairs(FormPairs(dump, payload.fields), payload.fields[i].0.Text()),
                            payload.fields[i].1)
        {
          FormBodyReads(dump, payload.fields, payload.fields[i].0.Text());
        }
      }
    }
  }

  /** A merged payload names no property twice. */
  lemma {:induction false} PayloadDistinct(fields: seq<(string, Key)>, arguments: ToolArguments)
    requires forall i, j :: 0 <= i < j < |fields| ==> fields[i].1.Text() != fields[j].1.Text()
    ensures DistinctTexts(PayloadFields(fields, arguments))
    ensures forall x :: x in PayloadFields(fields, arguments) ==> exists i :: 0 <= i < |fields| && fields[i].1 == x.0
    decreases |fields|
  {
    if |fields| > 0 {
      var rest := PayloadFields(fields[1..], arguments);
      PayloadDistinct(fields[1..], arguments);
      forall x | x in rest
        ensures x.0.Text() != fields[0].1.Text()
        ensures exists i :: 0 <= i < |fields| && fields[i].1 == x.0
      {
        var i :| 0 <= i < |fields[1..]| && fields[1..][i].1 == x.0;
        assert fields[i + 1] == fields[1..][i];
      }
      assert forall j :: 0 <= j < |rest| ==> rest[j] in rest;
    }
  }
}
