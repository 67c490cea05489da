/** `request_builder._path`: a path template filled in with argument values. */
module PathBuilding {
  import opened JsonValues
  import opened Splitting
  import opened PercentCoding

  // ------------------------------------------------------------ joining

  function Join(parts: seq<string>): string {
    if |parts| == 0 then ""
    else if |parts| == 1 then parts[0]
    else parts[0] + "," + Join(parts[1..])
  }

  lemma {:induction false} SplitJoin(parts: seq<string>)
    requires |parts| > 0 && forall i :: 0 <= i < |parts| ==> ',' !in parts[i]
    ensures Split(Join(parts), ',') == parts
  {
    var head := parts[0];
    assert "" + head == head;
    if |parts| == 1 {
      assert head + "" == head;
      SplitWord("", head, "", ',');
    } else {
      var rest := "," + Join(parts[1..]);
      assert Join(parts) == head + rest;
      SplitWord("", head, rest, ',');
      assert rest[1..] == Join(parts[1..]);
      SplitJoin(parts[1..]);
      assert [head] + parts[1..] == parts;
    }
  }

  function Count(s: string, c: char): nat {
    if |s| == 0 then 0 else (if s[0] == c then 1 else 0) + Count(s[1..], c)
  }

  lemma {:induction false} CountAppend(x: string, y: string, c: char)
    ensures Count(x + y, c) == Count(x, c) + Count(y, c)
  {
    if |x| == 0 {
      assert x + y == y;
    } else {
      assert (x + y)[1..] == x[1..] + y;
      CountAppend(x[1..], y, c);
    }
  }

  lemma {:induction false} CountNone(s: string, c: char)
    requires c !in s
    ensures Count(s, c) == 0
  {
    if |s| > 0 {
      CountNone(s[1..], c);
    }
  }

  // ------------------------------------------------------------ the template

  /** The regular expression `\{([^}]+)\}` matches `t[i..e]`. */
  predicate IsMatch(t: string, i: int, e: int) {
    0 <= i && i + 3 <= e <= |t| && t[i] == '{' && t[e - 1] == '}' && forall k :: i < k < e - 1 ==> t[k] != '}'
  }

  function FindClose(t: string, i: nat): (r: Option<nat>)
    requires i <= |t|
    ensures r.Some? ==> i <= r.value < |t| && t[r.value] == '}' && forall k :: i <= k < r.value ==> t[k] != '}'
    ensures r.None? ==> forall k :: i <= k < |t| ==> t[k] != '}'
    decreases |t| - i
  {
    if i == |t| then None else if t[i] == '}' then Some(i) else FindClose(t, i + 1)
  }

  /** The leftmost match at or after `from`. */
  function NextMatch(t: string, from: nat): (r: Option<(nat, nat)>)
    requires from <= |t|
    ensures r.Some? ==> from <= r.value.0 && r.value.0 + 3 <= r.value.1 <= |t|
    ensures r.Some? ==> IsMatch(t, r.value.0, r.value.1)
    ensures forall j, f :: from <= j && IsMatch(t, j, f) ==> r.Some? && (j == r.value.0 ==> f == r.value.1)
    ensures r.Some? ==> forall j, f :: from <= j < r.value.0 ==> !IsMatch(t, j, f)
    decreases |t| - from
  {
    if from == |t| then None
    else
      var close := if t[from] == '{' then FindClose(t, from + 1) else None;
      if close.Some? && close.value > from + 1 then Some((from, close.value + 1))
      else NextMatch(t, from + 1)
  }

  datatype Piece = Literal(text: string) | Variable(name: string) {
    function Raw(): string {
      match this
      case Literal(text) => text
      case Variable(name) => "{" + name + "}"
    }
  }

  function Pieces(t: string, from: nat): (r: seq<Piece>)
    requires from <= |t|
    ensures |r| > 0
    decreases |t| - from
  {
    match NextMatch(t, from)
    case None => [Literal(t[from..])]
    case Some(m) => [Literal(t[from..m.0]), Variable(t[m.0 + 1..m.1 - 1])] + Pieces(t, m.1)
  }

  function RawText(pieces: seq<Piece>): string {
    if |pieces| == 0 then "" else pieces[0].Raw() + RawText(pieces[1..])
  }

  lemma MatchText(t: string, i: int, e: int)
    requires IsMatch(t, i, e)
    ensures Variable(t[i + 1..e - 1]).Raw() == t[i..e]
  {
  }

  lemma RawTwo(x: Piece, y: Piece, rest: seq<Piece>)
    ensures RawText([x, y] + rest) == x.Raw() + (y.Raw() + RawText(rest))
  {
    var pieces := [x, y] + rest;
    assert pieces[1..][1..] == rest && pieces[1..][0] == y;
  }

  /** The pieces are the template, cut up and nothing else. */
  lemma {:induction false} PiecesCover(t: string, from: nat)
    requires from <= |t|
    ensures RawText(Pieces(t, from)) == t[from..]
    decreases |t| - from
  {
    hide NextMatch, IsMatch, RawText;
    var m := NextMatch(t, from);
    if m.Some? {
      var (i, e) := m.value;
      PiecesCover(t, e);
      MatchText(t, i, e);
      RawTwo(Literal(t[from..i]), Variable(t[i + 1..e - 1]), Pieces(t, e));
      assert t[from..i] + (t[i..e] + t[e..]) == t[from..];
    } else {
      RawOne(t[from..]);
    }
  }

  lemma RawOne(text: string)
    ensures RawText([Literal(text)]) == text
  {
    assert text + "" == text;
  }

  // ------------------------------------------------------------ the values

  /** The text of numbers, lists and objects is what the JSON writer gives: `dump`. */
  function Scalar(dump: Json -> string, v: Json): string {
    match v
    case Bool(b) => if b then "true" else "false"
    case Null => ""
    case Str(s) => s
    case _ => dump(v)
  }

  function Segments(dump: Json -> string, items: seq<Json>): (r: seq<string>)
    ensures |r| == |items| && forall i :: 0 <= i < |items| ==> r[i] == Segment(Scalar(dump, items[i]))
  {
    seq(|items|, i requires 0 <= i < |items| => Segment(Scalar(dump, items[i])))
  }

  /** What a value becomes in the path. */
  function Region(dump: Json -> string, v: Json): string {
    if v.Arr? then Join(Segments(dump, v.items)) else Segment(Scalar(dump, v))
  }

  predicate Refused(v: Option<Json>) {
    v.None? || v.value == Null || v.value == Str("") || v.value == Arr([])
  }

  /** `region` reads back as `v`: as its text, or as the texts of its items between commas. */
  ghost predicate ReadsAs(dump: Json -> string, region: string, v: Json) {
    if v.Arr? then
      var parts := Split(region, ',');
      && |parts| == |v.items|
      && forall i :: 0 <= i < |parts| ==> Unquote(parts[i]) == Some(Scalar(dump, v.items[i]))
    else Unquote(region) == Some(Scalar(dump, v))
  }

  predicate RegionChar(c: char) {
    SegmentChar(c) || c == ','
  }

  lemma {:induction false} JoinCharacters(parts: seq<string>)
    requires forall i :: 0 <= i < |parts| ==> forall c :: c in parts[i] ==> SegmentChar(c)
    ensures forall c :: c in Join(parts) ==> RegionChar(c)
  {
    hide SegmentChar;
    if |parts| > 1 {
      JoinCharacters(parts[1..]);
    }
  }

  lemma RegionReads(dump: Json -> string, v: Json)
    requires !Refused(Some(v))
    ensures ReadsAs(dump, Region(dump, v), v)
    ensures forall c :: c in Region(dump, v) ==> RegionChar(c)
  {
    hide Segment, Unquote, SplitFrom, Join;
    if v.Arr? {
      var parts := Segments(dump, v.items);
      forall i | 0 <= i < |parts|
        ensures Unquote(parts[i]) == Some(Scalar(dump, v.items[i])) && ',' !in parts[i]
        ensures forall c :: c in parts[i] ==> SegmentChar(c)
      {
        SegmentReads(Scalar(dump, v.items[i]));
      }
      SplitJoin(parts);
      JoinCharacters(parts);
    } else {
      SegmentReads(Scalar(dump, v));
    }
  }

  // ------------------------------------------------------------ the path

  /** The arguments of the declared path parameters, by parameter name. */
  type Values = map<string, Option<Json>>

  datatype PathResult = Path(text: string) | EmptyValue(name: string) | Undeclared(name: string)

  const LITERAL_SAFE: set<char> :=
    {'/', ':', '@', '!', '$', '&', '\'', '(', ')', '*', '+', ',', ';', '=', '-', '.', '_', '~'}

  function After(text: string, rest: PathResult): PathResult {
    if rest.Path? then Path(text + rest.text) else rest
  }

  function PathOf(dump: Json -> string, pieces: seq<Piece>, values: Values): PathResult {
    if |pieces| == 0 then Path("")
    else match pieces[0]
      case Literal(text) => After(Quote(LITERAL_SAFE, text), PathOf(dump, pieces[1..], values))
      case Variable(name) =>
        if name !in values then Undeclared(name)
        else if Refused(values[name]) then EmptyValue(name)
        else After(Region(dump, values[name].value), PathOf(dump, pieces[1..], values))
  }

  lemma AfterTwice(x: string, y: string, rest: PathResult)
    ensures After(x, After(y, rest)) == After(x + y, rest)
  {
    if rest.Path? {
      assert x + (y + rest.text) == x + y + rest.text;
    }
  }

  method BuildPath(dump: Json -> string, template: string, values: Values) returns (r: PathResult)
    ensures r == PathOf(dump, Pieces(template, 0), values)
  {
    hide Quote, Region, NextMatch, IsMatch;
    var out, position := "", 0;
    var match' := NextMatch(template, 0);
    assert forall x: PathResult :: After("", x) == x;
    while match'.Some?
      invariant position <= |template| && match' == NextMatch(template, position)
      invariant PathOf(dump, Pieces(template, 0), values) ==
                After(out, PathOf(dump, Pieces(template, position), values))
      decreases |template| - position
    {
      var (start, end) := match'.value;
      var literal := Quote(LITERAL_SAFE, template[position..start]);
      var name := template[start + 1..end - 1];
      ghost var pieces := Pieces(template, position);
      assert pieces[1..][1..] == Pieces(template, end);
      assert PathOf(dump, pieces, values) == After(literal, PathOf(dump, pieces[1..], values));
      if name !in values {
        return Undeclared(name);
      }
      var value := values[name];
      if Refused(value) {
        return EmptyValue(name);
      }
      var region := Region(dump, value.value);
      ghost var rest := PathOf(dump, Pieces(template, end), values);
      AfterTwice(literal, region, rest);
      AfterTwice(out, literal + region, rest);
      assert out + (literal + region) == out + literal + region;
      out := out + literal + region;
      position := end;
      match' := NextMatch(template, position);
    }
    assert Pieces(template, position)[1..] == [];
    var tail := Quote(LITERAL_SAFE, template[position..]);
    assert tail + "" == tail;
    r := Path(out + tail);
  }

  predicate Accepted(pieces: seq<Piece>, values: Values) {
    forall i :: 0 <= i < |pieces| && pieces[i].Variable? ==>
      pieces[i].name in values && !Refused(values[pieces[i].name])
  }

  /** What each piece becomes. */
  function Regions(dump: Json -> string, pieces: seq<Piece>, values: Values): (r: seq<string>)
    requires Accepted(pieces, values)
    ensures |r| == |pieces|
  {
    seq(|pieces|, i requires 0 <= i < |pieces| =>
      match pieces[i]
      case Literal(text) => Quote(LITERAL_SAFE, text)
      case Variable(name) => Region(dump, values[name].value))
  }

  function Concat(parts: seq<string>): string {
    if |parts| == 0 then "" else parts[0] + Concat(parts[1..])
  }

  /** The slashes of the template's literal text. */
  function LiteralSlashes(pieces: seq<Piece>): nat {
    if |pieces| == 0 then 0
    else (if pieces[0].Literal? then Count(pieces[0].text, '/') else 0) + LiteralSlashes(pieces[1..])
  }

  /** A path is built exactly when every variable is declared and has a value that is not empty,
      and it is its regions one after another. */
  lemma {:induction false} PathIff(dump: Json -> string, pieces: seq<Piece>, values: Values)
    ensures PathOf(dump, pieces, values).Path? <==> Accepted(pieces, values)
    ensures Accepted(pieces, values) ==>
              PathOf(dump, pieces, values) == Path(Concat(Regions(dump, pieces, values)))
  {
    hide Quote, Region;
    if |pieces| > 0 {
      var rest := pieces[1..];
      PathIff(dump, rest, values);
      if Accepted(rest, values) && (pieces[0].Variable? ==> Accepted([pieces[0]], values)) {
        AcceptedCons(pieces, values);
        assert Regions(dump, pieces, values)[1..] == Regions(dump, rest, values);
      } else {
        if !Accepted(rest, values) {
          var i :| 0 <= i < |rest| && rest[i].Variable? && !(rest[i].name in values && !Refused(values[rest[i].name]));
          assert pieces[i + 1] == rest[i];
        } else {
          assert [pieces[0]][0] == pieces[0];
        }
      }
    }
  }

  lemma AcceptedCons(pieces: seq<Piece>, values: Values)
    requires |pieces| > 0 && Accepted(pieces[1..], values)
    requires pieces[0].Variable? ==> Accepted([pieces[0]], values)
    ensures Accepted(pieces, values)
  {
    assert [pieces[0]][0] == pieces[0];
    forall i | 0 <= i < |pieces| && pieces[i].Variable?
      ensures pieces[i].name in values && !Refused(values[pieces[i].name])
    {
      if i > 0 {
        assert pieces[1..][i - 1] == pieces[i];
      }
    }
  }

  lemma AcceptedRest(pieces: seq<Piece>, values: Values)
    requires |pieces| > 0 && Accepted(pieces, values)
    ensures Accepted(pieces[1..], values)
  {
  }

  // ------------------------------------------------------------ slashes, question marks, hashes

  lemma {:induction false} QuoteAppend(safe: set<char>, x: seq<Byte>, y: seq<Byte>)
    ensures QuoteBytes(safe, x + y) == QuoteBytes(safe, x) + QuoteBytes(safe, y)
  {
    if |x| == 0 {
      assert x + y == y;
    } else {
      assert (x + y)[1..] == x[1..] + y;
      QuoteAppend(safe, x[1..], y);
    }
  }

  /** How a character of literal text comes out. */
  function QuotedChar(c: char): string {
    QuoteBytes(LITERAL_SAFE, Utf8Char(c))
  }

  lemma QuoteCons(text: string)
    requires |text| > 0
    ensures Quote(LITERAL_SAFE, text) == QuotedChar(text[0]) + Quote(LITERAL_SAFE, text[1..])
  {
    QuoteAppend(LITERAL_SAFE, Utf8Char(text[0]), Utf8(text[1..]));
  }

  /** A character stays as it is, or becomes percent-encoded text. */
  lemma CharCases(c: char)
    ensures QuotedChar(c) == [c] ||
            (QuotedChar(c) != "" && QuotedChar(c)[0] == '%' && '/' !in QuotedChar(c) && c != '/')
    ensures '?' !in QuotedChar(c) && '#' !in QuotedChar(c)
  {
    hide HexDigit, LITERAL_SAFE;
    SlashIsSafe();
    var bytes := Utf8Char(c);
    QuotedCharacters(LITERAL_SAFE, bytes);
    if c as int < 128 {
      assert bytes[1..] == [];
      assert QuotedChar(c) == QuoteByte(LITERAL_SAFE, c as int);
    } else {
      NonAscii(bytes);
    }
  }

  predicate StaysLiteral(c: char) {
    'A' <= c <= 'Z' || 'a' <= c <= 'z' || '0' <= c <= '9' || c in "/:@!$&'()*+,;=-._~"
  }

  lemma SafeIff(c: char)
    ensures Unreserved(c) || c in LITERAL_SAFE <==> StaysLiteral(c)
  {
    var plain := "/:@!$&'()*+,;=-._~";
    assert plain[0] == '/' && plain[1] == ':' && plain[2] == '@' && plain[3] == '!' && plain[4] == '$';
    assert plain[5] == '&' && plain[6] == '\'' && plain[7] == '(' && plain[8] == ')' && plain[9] == '*';
    assert plain[10] == '+' && plain[11] == ',' && plain[12] == ';' && plain[13] == '=' && plain[14] == '-';
    assert plain[15] == '.' && plain[16] == '_' && plain[17] == '~' && |plain| == 18;
  }

  /** Which literal characters a path keeps as they are: letters, digits and what a path
      segment may hold (section 3.3 of RFC 3986). */
  lemma LiteralKept(c: char)
    ensures QuotedChar(c) == [c] <==> StaysLiteral(c)
  {
    hide HexDigit, LITERAL_SAFE, Unreserved, StaysLiteral;
    SafeIff(c);
    var bytes := Utf8Char(c);
    if c as int < 128 {
      assert bytes[1..] == [] && QuoteBytes(LITERAL_SAFE, bytes[1..]) == "";
      assert bytes[0] == c as int;
      assert QuotedChar(c) == QuoteByte(LITERAL_SAFE, c as int) + "";
    } else {
      NonAscii(bytes);
      HighNotLiteral(c);
    }
  }

  lemma HighNotLiteral(c: char)
    requires c as int >= 128
    ensures !StaysLiteral(c) && c != '%'
  {
    var plain := "/:@!$&'()*+,;=-._~";
    assert forall i :: 0 <= i < |plain| ==> plain[i] as int < 128;
  }

  lemma SlashIsSafe()
    ensures '/' in LITERAL_SAFE && '?' !in LITERAL_SAFE && '#' !in LITERAL_SAFE && '%' !in LITERAL_SAFE
  {
  }

  lemma {:induction false} NonAscii(bytes: seq<Byte>)
    requires forall i :: 0 <= i < |bytes| ==> bytes[i] >= 128
    ensures '/' !in QuoteBytes(LITERAL_SAFE, bytes)
    ensures |bytes| > 0 ==> QuoteBytes(LITERAL_SAFE, bytes) != "" && QuoteBytes(LITERAL_SAFE, bytes)[0] == '%'
  {
    if |bytes| > 0 {
      NonAscii(bytes[1..]);
    }
  }

  lemma {:induction false} LiteralShape(text: string)
    ensures Count(Quote(LITERAL_SAFE, text), '/') == Count(text, '/')
    ensures '?' !in Quote(LITERAL_SAFE, text) && '#' !in Quote(LITERAL_SAFE, text)
    ensures Unquote(Quote(LITERAL_SAFE, text)) == Some(text)
  {
    hide Unquote, QuotedChar, LITERAL_SAFE;
    SlashIsSafe();
    QuoteRoundTrip(LITERAL_SAFE, text);
    if |text| > 0 {
      LiteralShape(text[1..]);
      QuoteCons(text);
      CharCases(text[0]);
      var head, rest := QuotedChar(text[0]), Quote(LITERAL_SAFE, text[1..]);
      CountAppend(head, rest, '/');
      if '/' !in head {
        CountNone(head, '/');
      } else {
        assert head == [text[0]] && head[1..] == "";
      }
    }
  }

  lemma RegionShape(dump: Json -> string, v: Json)
    requires !Refused(Some(v))
    ensures ReadsAs(dump, Region(dump, v), v)
    ensures Count(Region(dump, v), '/') == 0
    ensures '/' !in Region(dump, v) && '?' !in Region(dump, v) && '#' !in Region(dump, v)
  {
    hide Region, ReadsAs;
    RegionReads(dump, v);
    var region := Region(dump, v);
    assert !RegionChar('/') && !RegionChar('?') && !RegionChar('#');
    CountNone(region, '/');
  }

  /** Whatever the arguments, the path has the slashes of the template's literal text and no
      others, and neither a query nor a fragment. */
  lemma {:induction false} SlashesAreTheTemplates(dump: Json -> string, pieces: seq<Piece>, values: Values)
    requires Accepted(pieces, values)
    ensures var path := Concat(Regions(dump, pieces, values));
            Count(path, '/') == LiteralSlashes(pieces) && '?' !in path && '#' !in path
  {
    hide Region, Quote;
    if |pieces| > 0 {
      AcceptedRest(pieces, values);
      var regions := Regions(dump, pieces, values);
      assert regions[1..] == Regions(dump, pieces[1..], values);
      SlashesAreTheTemplates(dump, pieces[1..], values);
      CountAppend(regions[0], Concat(regions[1..]), '/');
      match pieces[0]
      case Literal(text) => LiteralShape(text);
      case Variable(name) => RegionShape(dump, values[name].value);
    }
  }

  /** Each region reads back: literal text as itself, a variable as its argument. */
  lemma RegionsReadBack(dump: Json -> string, pieces: seq<Piece>, values: Values)
    requires Accepted(pieces, values)
    ensures forall i :: 0 <= i < |pieces| ==>
              var region := Regions(dump, pieces, values)[i];
              match pieces[i]
              case Literal(text) => Unquote(region) == Some(text)
              case Variable(name) => ReadsAs(dump, region, values[name].value) && '/' !in region
  {
    hide Region, Quote, Unquote, ReadsAs;
    forall i | 0 <= i < |pieces|
      ensures var region := Regions(dump, pieces, values)[i];
              match pieces[i]
              case Literal(text) => Unquote(region) == Some(text)
              case Variable(name) => ReadsAs(dump, region, values[name].value) && '/' !in region
    {
      match pieces[i]
      case Literal(text) => LiteralShape(text);
      case Variable(name) => RegionShape(dump, values[name].value);
    }
  }
}
