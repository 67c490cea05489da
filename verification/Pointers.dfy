/** JSON pointers (RFC 6901): `encode_pointer` and `decode_pointer`. */
module Pointers {
  import opened JsonValues
  import opened Splitting

  /** `s.replace(c, with)` for a one-character needle. */
  function ReplaceChar(s: string, c: char, with: string): string {
    if |s| == 0 then "" else (if s[0] == c then with else [s[0]]) + ReplaceChar(s[1..], c, with)
  }

  /** `s.replace("ab", with)` for a two-character needle: leftmost first, never overlapping. */
  function ReplacePair(s: string, a: char, b: char, with: char): string {
    if |s| == 0 then ""
    else if |s| >= 2 && s[0] == a && s[1] == b then [with] + ReplacePair(s[2..], a, b, with)
    else [s[0]] + ReplacePair(s[1..], a, b, with)
  }

  function EncodePart(part: string): string {
    ReplaceChar(ReplaceChar(part, '~', "~0"), '/', "~1")
  }

  function EncodePointer(parts: seq<string>): string {
    if |parts| == 0 then "" else "/" + EncodePart(parts[0]) + EncodePointer(parts[1..])
  }

  function DecodePart(part: string): string {
    ReplacePair(ReplacePair(part, '~', '1', '/'), '~', '0', '~')
  }

  function DecodeParts(parts: seq<string>): seq<string> {
    seq(|parts|, i requires 0 <= i < |parts| => DecodePart(parts[i]))
  }

  /** `None` where the code raises: a non-empty pointer that does not start with "/". */
  function DecodePointer(pointer: string): Option<seq<string>> {
    if pointer == "" then Some([])
    else if pointer[0] != '/' then None
    else Some(DecodeParts(Split(pointer[1..], '/')))
  }

  // ------------------------------------------------------------ round trip

  lemma {:induction false} ReplaceCharAppend(s: string, t: string, c: char, with: string)
    ensures ReplaceChar(s + t, c, with) == ReplaceChar(s, c, with) + ReplaceChar(t, c, with)
  {
    if |s| == 0 {
      assert s + t == t;
    } else {
      assert (s + t)[1..] == s[1..] + t;
      ReplaceCharAppend(s[1..], t, c, with);
    }
  }

  function Escape(c: char): string {
    if c == '~' then "~0" else if c == '/' then "~1" else [c]
  }

  lemma EncodeStep(part: string)
    requires |part| > 0
    ensures EncodePart(part) == Escape(part[0]) + EncodePart(part[1..])
  {
    var first := if part[0] == '~' then "~0" else [part[0]];
    ReplaceCharAppend(first, ReplaceChar(part[1..], '~', "~0"), '/', "~1");
    if part[0] == '~' {
      assert "~0"[1..] == "0" && "0"[1..] == "";
      assert ReplaceChar("~0", '/', "~1") == "~" + ReplaceChar("0", '/', "~1");
    } else {
      assert [part[0]][1..] == "";
    }
  }

  /** Undoing "~1" first leaves exactly the tildes escaped. */
  lemma {:induction false} SlashesBack(part: string)
    ensures ReplacePair(EncodePart(part), '~', '1', '/') == ReplaceChar(part, '~', "~0")
  {
    if |part| > 0 {
      EncodeStep(part);
      SlashesBack(part[1..]);
      var e := EncodePart(part[1..]);
      if part[0] == '~' {
        assert ("~0" + e)[1..] == "0" + e && ("0" + e)[1..] == e;
        assert ReplacePair("0" + e, '~', '1', '/') == "0" + ReplacePair(e, '~', '1', '/');
      } else if part[0] == '/' {
        assert ("~1" + e)[2..] == e;
      } else {
        assert ([part[0]] + e)[1..] == e;
      }
    }
  }

  lemma {:induction false} TildesBack(part: string)
    ensures ReplacePair(ReplaceChar(part, '~', "~0"), '~', '0', '~') == part
  {
    if |part| > 0 {
      TildesBack(part[1..]);
      var e := ReplaceChar(part[1..], '~', "~0");
      if part[0] == '~' {
        assert ("~0" + e)[2..] == e;
      } else {
        assert ([part[0]] + e)[1..] == e;
      }
    }
  }

  lemma {:induction false} NoSlash(part: string)
    ensures '/' !in EncodePart(part)
  {
    if |part| > 0 {
      EncodeStep(part);
      NoSlash(part[1..]);
    }
  }

  lemma SplitFirst(first: string, rest: string)
    requires '/' !in first
    ensures Split(first + "/" + rest, '/') == [first] + Split(rest, '/')
    ensures Split(first, '/') == [first]
  {
    var tail := "/" + rest;
    assert first + "/" + rest == first + tail && tail[1..] == rest;
    assert "" + first == first && first + "" == first;
    SplitWord("", first, tail, '/');
    SplitWord("", first, "", '/');
  }

  /** Reading a written pointer gives back its parts, whatever characters they hold. */
  lemma {:induction false} DecodeEncode(parts: seq<string>)
    ensures DecodePointer(EncodePointer(parts)) == Some(parts)
  {
    if |parts| > 0 {
      SplitEncoded(parts);
      var split := Split(EncodePointer(parts)[1..], '/');
      forall i | 0 <= i < |parts|
        ensures DecodePart(split[i]) == parts[i]
      {
        SlashesBack(parts[i]);
        TildesBack(parts[i]);
      }
      assert DecodeParts(split) == parts;
    }
  }

  lemma {:induction false} SplitEncoded(parts: seq<string>)
    requires |parts| > 0
    ensures var split := Split(EncodePointer(parts)[1..], '/');
            |split| == |parts| && forall i :: 0 <= i < |parts| ==> split[i] == EncodePart(parts[i])
  {
    hide Split, EncodePart;
    NoSlash(parts[0]);
    var first := EncodePart(parts[0]);
    var rest := EncodePointer(parts[1..]);
    assert EncodePointer(parts) == "/" + (first + rest);
    if |parts| == 1 {
      SplitFirst(first, "");
      assert first + rest == first;
    } else {
      SplitEncoded(parts[1..]);
      assert rest == "/" + rest[1..];
      assert first + rest == first + "/" + rest[1..];
      SplitFirst(first, rest[1..]);
    }
  }

  /** The order of the two replacements matters: tildes first turns "~1" into a slash. */
  lemma DecodingTildesFirstIsWrong()
    ensures ReplacePair(ReplacePair(EncodePart("~1"), '~', '0', '~'), '~', '1', '/') != "~1"
    ensures DecodePart(EncodePart("~1")) == "~1"
  {
    SlashesBack("~1");
    TildesBack("~1");
    EncodeStep("~1");
    assert "~1"[1..] == "1" && "1"[1..] == "";
    EncodeStep("1");
    assert EncodePart("~1") == "~01";
    assert "~01"[2..] == "1";
    assert ReplacePair("~01", '~', '0', '~') == "~" + ReplacePair("1", '~', '0', '~');
    assert ReplacePair("1", '~', '0', '~') == "1" + ReplacePair("", '~', '0', '~');
    assert ReplacePair("~01", '~', '0', '~') == "~1";
    assert "~1"[2..] == "";
    assert ReplacePair("~1", '~', '1', '/') == "/" + ReplacePair("", '~', '1', '/');
  }
}
