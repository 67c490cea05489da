/** The names bundled schemas get under `$defs`. */
module DefNames {
  import opened JsonValues
  import opened Splitting
  import opened Pointers
  import opened SchemaConvert
  import opened RefCheck

  const COMPONENT_SCHEMA := "#/components/schemas/"

  predicate IsSafe(c: char) {
    'A' <= c <= 'Z' || 'a' <= c <= 'z' || '0' <= c <= '9' || c in {'_', '.', '-'}
  }

  /** A name usable in a ref as it stands. */
  predicate IsSafeName(name: string) {
    |name| > 0 && forall i :: 0 <= i < |name| ==> IsSafe(name[i])
  }

  /** Each run of other characters becomes one underscore. */
  function Sanitize(s: string): (r: string)
    ensures forall i :: 0 <= i < |r| ==> IsSafe(r[i])
    decreases |s|
  {
    if |s| == 0 then ""
    else if IsSafe(s[0]) then [s[0]] + Sanitize(s[1..])
    else "_" + Sanitize(SkipUnsafe(s))
  }

  function SkipUnsafe(s: string): (r: string)
    ensures |r| <= |s| && (|s| > 0 && !IsSafe(s[0]) ==> |r| < |s|)
  {
    if |s| > 0 && !IsSafe(s[0]) then SkipUnsafe(s[1..]) else s
  }

  function StripLeft(s: string, chars: set<char>): (r: string)
    ensures forall i :: 0 <= i < |r| ==> r[i] in s
  {
    if |s| > 0 && s[0] in chars then StripLeft(s[1..], chars) else s
  }

  function StripRight(s: string, c: char): (r: string)
    ensures forall i :: 0 <= i < |r| ==> r[i] in s
  {
    if |s| > 0 && s[|s| - 1] == c then StripRight(s[..|s| - 1], c) else s
  }

  function BaseName(ref: string): (r: string)
    ensures IsSafeName(r)
  {
    var tail := if COMPONENT_SCHEMA <= ref then ref[|COMPONENT_SCHEMA|..] else "";
    var text := if COMPONENT_SCHEMA <= ref && '/' !in tail then tail else StripLeft(ref, {'#', '/'});
    var base := StripRight(StripLeft(Sanitize(text), {'_'}), '_');
    if base == "" then "schema" else base
  }

  // ------------------------------------------------------------ what sanitizing keeps

  ghost predicate AllSafe(s: string) {
    forall i :: 0 <= i < |s| ==> IsSafe(s[i])
  }

  lemma {:induction false} SafeKept(a: string, b: string)
    requires AllSafe(a)
    ensures Sanitize(a + b) == a + Sanitize(b)
  {
    if |a| == 0 {
      assert a + b == b;
    } else {
      assert (a + b)[1..] == a[1..] + b;
      SafeKept(a[1..], b);
    }
  }

  lemma {:induction false} RunSkipped(run: string, b: string)
    requires (forall i :: 0 <= i < |run| ==> !IsSafe(run[i])) && (b == "" || IsSafe(b[0]))
    ensures SkipUnsafe(run + b) == b
  {
    if |run| == 0 {
      assert run + b == b;
    } else {
      assert (run + b)[1..] == run[1..] + b;
      RunSkipped(run[1..], b);
    }
  }

  /** A whole run of other characters is one underscore. With `SafeKept`, this fixes what any
      text becomes. */
  lemma RunReplaced(run: string, b: string)
    requires |run| > 0 && (forall i :: 0 <= i < |run| ==> !IsSafe(run[i])) && (b == "" || IsSafe(b[0]))
    ensures Sanitize(run + b) == "_" + Sanitize(b)
  {
    RunSkipped(run, b);
  }

  lemma {:induction false} StrippedLeft(edge: string, s: string, chars: set<char>)
    requires (forall i :: 0 <= i < |edge| ==> edge[i] in chars) && (s == "" || s[0] !in chars)
    ensures StripLeft(edge + s, chars) == s
  {
    if |edge| == 0 {
      assert edge + s == s;
    } else {
      assert (edge + s)[1..] == edge[1..] + s;
      StrippedLeft(edge[1..], s, chars);
    }
  }

  lemma {:induction false} StrippedRight(s: string, edge: string, c: char)
    requires (forall i :: 0 <= i < |edge| ==> edge[i] == c) && (s == "" || s[|s| - 1] != c)
    ensures StripRight(s + edge, c) == s
  {
    if |edge| == 0 {
      assert s + edge == s;
    } else {
      assert (s + edge)[..|s + edge| - 1] == s + edge[..|edge| - 1];
      StrippedRight(s, edge[..|edge| - 1], c);
    }
  }

  /** A safe name that neither begins nor ends with an underscore. */
  ghost predicate IsPlainName(name: string) {
    IsSafeName(name) && name[0] != '_' && name[|name| - 1] != '_'
  }

  /** A component of such a name keeps it. */
  lemma ComponentNameKept(name: string)
    requires IsPlainName(name)
    ensures BaseName("#/components/schemas/" + name) == name
  {
    hide StripLeft, StripRight, Sanitize, IsSafe, IsPlainName;
    var ref := COMPONENT_SCHEMA + name;
    assert ref[|COMPONENT_SCHEMA|..] == name && COMPONENT_SCHEMA <= ref;
    NameKept(name);
  }

  lemma NameKept(name: string)
    requires IsPlainName(name)
    ensures '/' !in name && name != "" && StripRight(StripLeft(Sanitize(name), {'_'}), '_') == name
  {
    hide StripLeft, StripRight;
    assert name + "" == name && "" + name == name;
    SafeKept(name, "");
    StrippedLeft("", name, {'_'});
    StrippedRight(name, "", '_');
  }

  function Decimal(n: nat): (r: string)
    ensures |r| > 0 && forall i :: 0 <= i < |r| ==> '0' <= r[i] <= '9'
    ensures Number(r) == n
  {
    var digit := [('0' as int + n % 10) as char];
    if n < 10 then
      assert digit[..0] == "";
      digit
    else
      var r := Decimal(n / 10) + digit;
      assert r[..|r| - 1] == Decimal(n / 10);
      r
  }

  /** The n-th name tried for a ref. */
  function Candidate(base: string, n: nat): (r: string)
    ensures IsSafeName(base) ==> IsSafeName(r)
  {
    if n <= 1 then base else base + "_" + Decimal(n)
  }

  lemma CandidatesDiffer(base: string, m: nat, n: nat)
    requires 1 <= m < n
    ensures Candidate(base, m) != Candidate(base, n)
  {
    if m > 1 {
      assert Decimal(m) == Candidate(base, m)[|base| + 1..];
      assert Decimal(n) == Candidate(base, n)[|base| + 1..];
    }
  }

  // ------------------------------------------------------------ a name read back as a pointer

  lemma {:induction false} PlainPair(s: string, b: char, with: char)
    requires '~' !in s
    ensures ReplacePair(s, '~', b, with) == s
  {
    if |s| > 0 {
      PlainPair(s[1..], b, with);
    }
  }

  /** `#/$defs/<name>` is a pointer to exactly that entry. */
  lemma DefPointer(unquote: Unquote, name: string)
    requires IsSafeName(name)
    requires forall s: string :: '%' !in s ==> unquote(s) == s
    ensures PointerOf(unquote, DefRef(name)) == Some(["$defs", name])
  {
    var ref := DefRef(name);
    assert ref[..2] == "#/";
    var tail := "/$defs/" + name;
    assert ref[1..] == tail;
    forall c | c in name ensures c != '%' && c != '/' && c != '~' {
      var i :| 0 <= i < |name| && name[i] == c;
    }
    assert '%' !in "/$defs/";
    assert unquote(tail) == tail;
    assert tail[1..] == "$defs" + "/" + name;
    SplitFirst("$defs", name);
    SplitFirst(name, "");
    var parts := ["$defs", name];
    assert Split(tail[1..], '/') == parts;
    forall i | 0 <= i < |parts| ensures DecodePart(parts[i]) == parts[i] {
      PlainPair(parts[i], '1', '/');
      PlainPair(parts[i], '0', '~');
    }
    assert DecodeParts(parts) == parts;
  }
}
