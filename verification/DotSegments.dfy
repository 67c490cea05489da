/** When a built path can hold a `.` or `..` segment. */
module DotSegments {
  import opened JsonValues
  import opened PercentCoding
  import opened PathBuilding
  import opened Splitting

  /** No segment of `current + s` from the current one on is `.` or `..`. */
  ghost predicate DotFree(current: string, s: string) {
    forall i :: 0 <= i < |SplitFrom(current, s, '/')| ==> !IsDots(SplitFrom(current, s, '/')[i])
  }

  /** However a segment that starts like this goes on, it is no dot segment. */
  predicate Solid(s: string) {
    s != "" && !IsDots(s)
  }

  lemma DotsByCharacter(s: string)
    ensures IsDots(s) <==> 1 <= |s| <= 2 && s[0] == '.' && s[|s| - 1] == '.'
  {
  }

  lemma SolidStays(x: string, y: string)
    requires Solid(x) || Solid(y)
    ensures Solid(x + y)
  {
    hide IsDots;
    DotsByCharacter(x);
    DotsByCharacter(y);
    DotsByCharacter(x + y);
  }

  /** Two texts with the same dot segments, whatever segment they go on from. */
  ghost predicate SameDots(r: string, t: string) {
    forall x, y :: x == y || (Solid(x) && Solid(y)) ==> (DotFree(x, r) <==> DotFree(y, t))
  }

  lemma DotFreeEnd(x: string)
    ensures DotFree(x, "") <==> !IsDots(x)
  {
    assert SplitFrom(x, "", '/') == [x];
    assert SplitFrom(x, "", '/')[0] == x;
  }

  lemma DotFreeSlash(x: string, rest: string)
    ensures DotFree(x, "/" + rest) <==> !IsDots(x) && DotFree("", rest)
  {
    hide IsDots;
    var s := "/" + rest;
    assert s[1..] == rest;
    var here, there := SplitFrom(x, s, '/'), SplitFrom("", rest, '/');
    assert here == [x] + there;
    assert forall i :: 0 <= i < |there| ==> here[i + 1] == there[i];
    assert here[0] == x;
  }

  lemma DotFreeWord(x: string, word: string, rest: string)
    requires '/' !in word
    ensures DotFree(x, word + rest) <==> DotFree(x + word, rest)
  {
    SplitWord(x, word, rest, '/');
  }

  lemma SameDotsEnd()
    ensures SameDots("", "")
  {
    forall x: string, y: string | x == y || (Solid(x) && Solid(y))
      ensures DotFree(x, "") <==> DotFree(y, "")
    {
      DotFreeEnd(x);
      DotFreeEnd(y);
    }
  }

  lemma SameDotsSlash(r: string, t: string)
    requires SameDots(r, t)
    ensures SameDots("/" + r, "/" + t)
  {
    hide DotFree;
    forall x: string, y: string | x == y || (Solid(x) && Solid(y))
      ensures DotFree(x, "/" + r) <==> DotFree(y, "/" + t)
    {
      DotFreeSlash(x, r);
      DotFreeSlash(y, t);
    }
  }

  /** The same word, or two words neither of which can be part of a dot segment. */
  lemma SameDotsWord(u: string, v: string, r: string, t: string)
    requires SameDots(r, t) && '/' !in u && '/' !in v
    requires u == v || (Solid(u) && Solid(v))
    ensures SameDots(u + r, v + t)
  {
    hide DotFree, Solid;
    forall x: string, y: string | x == y || (Solid(x) && Solid(y))
      ensures DotFree(x, u + r) <==> DotFree(y, v + t)
    {
      DotFreeWord(x, u, r);
      DotFreeWord(y, v, t);
      if u != v || x != y {
        SolidStays(x, u);
        SolidStays(y, v);
      }
    }
  }

  lemma {:induction false} LiteralSameDots(text: string, r: string, t: string)
    requires SameDots(r, t)
    ensures SameDots(Quote(LITERAL_SAFE, text) + r, text + t)
  {
    hide SameDots, QuotedChar, Quote, LITERAL_SAFE;
    if |text| == 0 {
      QuotedLength(LITERAL_SAFE, text);
      assert text + t == t && Quote(LITERAL_SAFE, text) + r == r;
    } else {
      var c := text[0];
      LiteralSameDots(text[1..], r, t);
      QuoteCons(text);
      CharCases(c);
      var r', t' := Quote(LITERAL_SAFE, text[1..]) + r, text[1..] + t;
      assert Quote(LITERAL_SAFE, text) + r == QuotedChar(c) + r';
      assert text + t == [c] + t';
      if c == '/' {
        assert QuotedChar(c) == "/";
        SameDotsSlash(r', t');
      } else if QuotedChar(c) == [c] {
        SameDotsWord([c], [c], r', t');
      } else {
        PercentIsSolid(c);
        SameDotsWord(QuotedChar(c), [c], r', t');
      }
    }
  }

  lemma DotStays()
    ensures QuotedChar('.') == "."
  {
    assert Utf8Char('.')[1..] == [];
  }

  lemma PercentIsSolid(c: char)
    requires QuotedChar(c) != [c]
    ensures Solid(QuotedChar(c)) && Solid([c])
  {
    hide LITERAL_SAFE;
    CharCases(c);
    DotStays();
  }

  /** The template with each variable replaced by an `x`, or by nothing when its argument
      comes out empty: a list whose one item has an empty text. */
  function Skeleton(dump: Json -> string, pieces: seq<Piece>, values: Values): string
    requires Accepted(pieces, values)
  {
    if |pieces| == 0 then ""
    else
      AcceptedRest(pieces, values);
      var rest := Skeleton(dump, pieces[1..], values);
      match pieces[0]
      case Literal(text) => text + rest
      case Variable(name) => (if Region(dump, values[name].value) == "" then "" else "x") + rest
  }

  lemma {:induction false} JoinIsSolid(parts: seq<string>)
    requires |parts| > 0 && forall i :: 0 <= i < |parts| ==> !IsDots(parts[i])
    ensures Join(parts) == "" || Solid(Join(parts))
    ensures Join(parts) == "" <==> parts == [""]
  {
    if |parts| > 1 {
      assert Solid(",");
      SolidStays(parts[0], ",");
      SolidStays(parts[0] + ",", Join(parts[1..]));
    }
  }

  lemma RegionIsSolid(dump: Json -> string, v: Json)
    requires !Refused(Some(v))
    ensures Region(dump, v) == "" || Solid(Region(dump, v))
    ensures v.Arr? ==> (Region(dump, v) == "" <==> |v.items| == 1 && Scalar(dump, v.items[0]) == "")
    ensures v.Str? ==> Region(dump, v) != ""
  {
    hide Segment, Join, Unquote;
    if v.Arr? {
      var parts := Segments(dump, v.items);
      forall i | 0 <= i < |parts|
        ensures !IsDots(parts[i]) && (parts[i] == "" <==> Scalar(dump, v.items[i]) == "")
      {
        SegmentReads(Scalar(dump, v.items[i]));
      }
      JoinIsSolid(parts);
    } else {
      SegmentReads(Scalar(dump, v));
    }
  }

  lemma {:induction false} PathSameDots(dump: Json -> string, pieces: seq<Piece>, values: Values)
    requires Accepted(pieces, values)
    ensures SameDots(Concat(Regions(dump, pieces, values)), Skeleton(dump, pieces, values))
  {
    hide SameDots, Region, Quote, Solid;
    if |pieces| == 0 {
      SameDotsEnd();
    } else {
      var rest := pieces[1..];
      AcceptedRest(pieces, values);
      PathSameDots(dump, rest, values);
      var regions := Regions(dump, pieces, values);
      assert regions[1..] == Regions(dump, rest, values);
      var r, t := Concat(regions[1..]), Skeleton(dump, rest, values);
      match pieces[0] {
        case Literal(text) => LiteralSameDots(text, r, t);
        case Variable(name) =>
          RegionShape(dump, values[name].value);
          RegionIsSolid(dump, values[name].value);
          XIsSolid();
          if regions[0] == "" {
            assert regions[0] + r == r && "" + t == t;
          } else {
            SameDotsWord(regions[0], "x", r, t);
          }
      }
    }
  }

  lemma XIsSolid()
    ensures Solid("x")
  {
  }

  /** A built path has no dot segment exactly when its skeleton has none: no value can bring one
      in, except by being empty. */
  lemma DotFreeIff(dump: Json -> string, template: string, values: Values)
    requires Accepted(Pieces(template, 0), values)
    ensures DotFree("", Concat(Regions(dump, Pieces(template, 0), values))) <==>
            DotFree("", Skeleton(dump, Pieces(template, 0), values))
  {
    hide DotFree, Regions, Skeleton;
    PathSameDots(dump, Pieces(template, 0), values);
  }

  // ------------------------------------------------------------ templates that mapping accepts

  lemma {:induction false} DotFreeSuffix(x: string, s: string, k: nat)
    requires k <= |s| && DotFree(x, s)
    ensures exists y :: DotFree(y, s[k..])
    decreases k
  {
    if k == 0 {
      assert s[k..] == s;
    } else {
      assert s == [s[0]] + s[1..] && s[1..][k - 1..] == s[k..];
      if s[0] == '/' {
        DotFreeSlash(x, s[1..]);
        DotFreeSuffix("", s[1..], k - 1);
      } else {
        DotFreeWord(x, [s[0]], s[1..]);
        DotFreeSuffix(x + [s[0]], s[1..], k - 1);
      }
    }
  }

  /** Literal text is read alike from the same segment, or from a solid one. */
  lemma {:induction false} LiteralCarries(text: string, x: string, y: string, r: string, t: string)
    requires DotFree(y, text + t) && (x == y || Solid(x))
    requires forall x', y' :: (x' == y' || Solid(x')) && DotFree(y', t) ==> DotFree(x', r)
    ensures DotFree(x, text + r)
    decreases |text|
  {
    hide DotFree, Solid;
    if |text| == 0 {
      assert text + t == t && text + r == r;
    } else {
      var rest := text[1..];
      assert text + t == [text[0]] + (rest + t) && text + r == [text[0]] + (rest + r);
      if text[0] == '/' {
        DotFreeSlash(y, rest + t);
        DotFreeSlash(x, rest + r);
        SolidIsNoDot(x);
        LiteralCarries(rest, "", "", r, t);
      } else {
        DotFreeWord(y, [text[0]], rest + t);
        DotFreeWord(x, [text[0]], rest + r);
        if x != y {
          SolidStays(x, [text[0]]);
        }
        LiteralCarries(rest, x + [text[0]], y + [text[0]], r, t);
      }
    }
  }

  lemma SolidIsNoDot(x: string)
    ensures Solid(x) ==> !IsDots(x)
  {
  }

  /** No argument comes out as an empty text. */
  ghost predicate NoneBlank(dump: Json -> string, pieces: seq<Piece>, values: Values)
    requires Accepted(pieces, values)
  {
    forall i :: 0 <= i < |pieces| && pieces[i].Variable? ==> Region(dump, values[pieces[i].name].value) != ""
  }

  lemma {:induction false} SkeletonCarries(dump: Json -> string, pieces: seq<Piece>, values: Values, x: string,
                                           y: string)
    requires Accepted(pieces, values) && NoneBlank(dump, pieces, values)
    requires DotFree(y, RawText(pieces)) && (x == y || Solid(x))
    ensures DotFree(x, Skeleton(dump, pieces, values))
    decreases |pieces|
  {
    hide DotFree, Solid, Region;
    if |pieces| == 0 {
      DotFreeEnd(x);
      DotFreeEnd(y);
      SolidIsNoDot(x);
    } else {
      var rest := pieces[1..];
      AcceptedRest(pieces, values);
      assert NoneBlank(dump, rest, values);
      var r, t := Skeleton(dump, rest, values), RawText(rest);
      match pieces[0] {
        case Literal(text) =>
          forall x': string, y': string | (x' == y' || Solid(x')) && DotFree(y', t)
            ensures DotFree(x', r)
          {
            SkeletonCarries(dump, rest, values, x', y');
          }
          LiteralCarries(text, x, y, r, t);
        case Variable(name) =>
          var raw := pieces[0].Raw();
          DotFreeSuffix(y, raw + t, |raw|);
          assert (raw + t)[|raw|..] == t;
          var y' :| DotFree(y', t);
          XIsSolid();
          SolidStays(x, "x");
          SkeletonCarries(dump, rest, values, x + "x", y');
          DotFreeWord(x, "x", r);
      }
    }
  }

  /** A template without dot segments, as mapping demands, never yields a path with one unless
      some argument comes out empty. */
  lemma MappedPathsAreDotFree(dump: Json -> string, template: string, values: Values)
    requires DotFree("", template)
    requires Accepted(Pieces(template, 0), values) && NoneBlank(dump, Pieces(template, 0), values)
    ensures DotFree("", Concat(Regions(dump, Pieces(template, 0), values)))
  {
    hide DotFree, Regions, Skeleton, RawText, Accepted, NoneBlank, Pieces;
    PiecesCover(template, 0);
    assert template[0..] == template;
    SkeletonCarries(dump, Pieces(template, 0), values, "", "");
    DotFreeIff(dump, template, values);
  }

  lemma PiecesOfExample()
    ensures Pieces("/.{a}", 0) == [Literal("/."), Variable("a"), Literal("")]
  {
    var t := "/.{a}";
    assert FindClose(t, 4) == Some(4) && FindClose(t, 3) == Some(4);
    assert NextMatch(t, 2) == Some((2, 5)) && NextMatch(t, 1) == Some((2, 5)) && NextMatch(t, 0) == Some((2, 5));
    assert NextMatch(t, 5) == None && t[5..] == "" && Pieces(t, 5) == [Literal("")];
    assert t[0..2] == "/." && t[3..4] == "a";
  }

  /** An empty value is refused, but a list holding one is not: `/.{a}` with `[""]` becomes `/.`. */
  lemma BlankListMakesDotSegment(dump: Json -> string)
    ensures var values: Values := map["a" := Some(Arr([Str("")]))];
            var pieces := [Literal("/."), Variable("a"), Literal("")];
            && Pieces("/.{a}", 0) == pieces && DotFree("", "/.{a}")
            && Accepted(pieces, values) && !DotFree("", Skeleton(dump, pieces, values))
            && !DotFree("", Concat(Regions(dump, pieces, values)))
  {
    hide DotFree, Pieces, Skeleton, Regions, Concat, Region;
    var values: Values := map["a" := Some(Arr([Str("")]))];
    var pieces := [Literal("/."), Variable("a"), Literal("")];
    assert values["a"] == Some(Arr([Str("")]));
    PiecesOfExample();
    DotsOfExample();
    assert Accepted(pieces, values);
    SkeletonOfExample(dump, pieces, values);
    PathSameDots(dump, pieces, values);
  }

  lemma DotsOfExample()
    ensures DotFree("", "/.{a}") && !DotFree("", "/.")
  {
    hide DotFree;
    DotFreeSlash("", ".{a}");
    DotFreeWord("", ".{a}", "");
    DotFreeEnd(".{a}");
    assert "/" + ".{a}" == "/.{a}" && ".{a}" + "" == ".{a}" && "" + ".{a}" == ".{a}";
    assert "/" + "." == "/." && "." + "" == "." && "" + "." == ".";
    DotFreeSlash("", ".");
    DotFreeWord("", ".", "");
    DotFreeEnd(".");
  }

  lemma SkeletonOfExample(dump: Json -> string, pieces: seq<Piece>, values: Values)
    requires pieces == [Literal("/."), Variable("a"), Literal("")] && Accepted(pieces, values)
    requires "a" in values && values["a"] == Some(Arr([Str("")]))
    ensures Skeleton(dump, pieces, values) == "/."
  {
    hide Region;
    assert pieces[1..] == [Variable("a"), Literal("")] && pieces[1..][1..] == [Literal("")];
    assert pieces[1..][1..][1..] == [];
    RegionIsSolid(dump, Arr([Str("")]));
    AcceptedRest(pieces, values);
    AcceptedRest(pieces[1..], values);
    AcceptedRest(pieces[1..][1..], values);
    assert Skeleton(dump, pieces[1..][1..][1..], values) == "";
    assert Skeleton(dump, pieces[1..][1..], values) == "" + "";
    assert Skeleton(dump, pieces[1..], values) == "" + "";
  }
}
