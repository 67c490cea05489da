/** Text as UTF-8 bytes and percent-encoded text (RFC 3986 section 2.1), as `urllib.parse.quote`
    writes them and an upstream reads them back. */
module PercentCoding {
  import opened JsonValues

  type Byte = b: int | 0 <= b < 256

  // ------------------------------------------------------------ UTF-8

  function Utf8Char(c: char): (r: seq<Byte>)
    ensures 1 <= |r| <= 4
  {
    var n := c as int;
    if n < 0x80 then [n]
    else if n < 0x800 then [0xC0 + n / 64, 0x80 + n % 64]
    else if n < 0x1_0000 then [0xE0 + n / 4096, 0x80 + n / 64 % 64, 0x80 + n % 64]
    else [0xF0 + n / 262144, 0x80 + n / 4096 % 64, 0x80 + n / 64 % 64, 0x80 + n % 64]
  }

  function Utf8(text: string): seq<Byte> {
    if |text| == 0 then [] else Utf8Char(text[0]) + Utf8(text[1..])
  }

  /** How many bytes the character starting with `b` takes, and 0 when none starts so. */
  function Utf8Length(b: Byte): nat {
    if b < 0x80 then 1 else if b < 0xC0 then 0 else if b < 0xE0 then 2 else if b < 0xF0 then 3 else 4
  }

  /** The code point the first `n` bytes stand for. */
  function CodePoint(bytes: seq<Byte>, n: nat): int
    requires 1 <= n <= 4 && n <= |bytes|
  {
    if n == 1 then bytes[0]
    else if n == 2 then (bytes[0] as int - 0xC0) * 64 + (bytes[1] as int - 0x80)
    else if n == 3 then (bytes[0] as int - 0xE0) * 4096 + (bytes[1] as int - 0x80) * 64 + (bytes[2] as int - 0x80)
    else
      (bytes[0] as int - 0xF0) * 262144 + (bytes[1] as int - 0x80) * 4096 +
      (bytes[2] as int - 0x80) * 64 + (bytes[3] as int - 0x80)
  }

  /** Strict: only the shortest form of a character is read. */
  function FromUtf8(bytes: seq<Byte>): Option<string> {
    if |bytes| == 0 then Some("")
    else
      var n := Utf8Length(bytes[0]);
      if n == 0 || n > |bytes| then None
      else
        var c := CodePoint(bytes, n);
        if !(0 <= c < 0xD800 || 0xE000 <= c < 0x11_0000) || Utf8Char(c as char) != bytes[..n] then None
        else match FromUtf8(bytes[n..])
          case None => None
          case Some(rest) => Some([c as char] + rest)
  }

  lemma Utf8CharReads(c: char, rest: seq<Byte>)
    ensures var bytes := Utf8Char(c) + rest;
            && Utf8Length(bytes[0]) == |Utf8Char(c)|
            && CodePoint(bytes, |Utf8Char(c)|) == c as int
            && bytes[..|Utf8Char(c)|] == Utf8Char(c) && bytes[|Utf8Char(c)|..] == rest
  {
    var n := c as int;
    assert n / 4096 == n / 64 / 64 && n / 262144 == n / 4096 / 64;
  }

  lemma {:induction false} Utf8RoundTrip(text: string)
    ensures FromUtf8(Utf8(text)) == Some(text)
  {
    if |text| > 0 {
      Utf8CharReads(text[0], Utf8(text[1..]));
      Utf8RoundTrip(text[1..]);
      assert [text[0]] + text[1..] == text;
    }
  }

  // ------------------------------------------------------------ percent-encoding

  predicate Unreserved(c: char) {
    'A' <= c <= 'Z' || 'a' <= c <= 'z' || '0' <= c <= '9' || c in {'_', '.', '-', '~'}
  }

  function HexDigit(n: nat): (c: char)
    requires n < 16
    ensures HexValue(c) == Some(n) && Unreserved(c) && c != '.'
  {
    if n < 10 then '0' + n as char else 'A' + (n - 10) as char
  }

  function HexValue(c: char): (n: Option<nat>)
    ensures n.Some? ==> n.value < 16
  {
    if '0' <= c <= '9' then Some(c as int - '0' as int)
    else if 'A' <= c <= 'F' then Some(c as int - 'A' as int + 10)
    else if 'a' <= c <= 'f' then Some(c as int - 'a' as int + 10)
    else None
  }

  /** The byte as it is when unreserved or in `safe`, and as %XX otherwise. */
  function QuoteByte(safe: set<char>, b: Byte): string {
    if b < 128 && (Unreserved(b as char) || b as char in safe) then [b as char]
    else ['%', HexDigit(b / 16), HexDigit(b % 16)]
  }

  function QuoteBytes(safe: set<char>, bytes: seq<Byte>): string {
    if |bytes| == 0 then "" else QuoteByte(safe, bytes[0]) + QuoteBytes(safe, bytes[1..])
  }

  function Quote(safe: set<char>, text: string): string {
    QuoteBytes(safe, Utf8(text))
  }

  /** The bytes a percent-encoded text stands for. */
  function UnquoteBytes(s: string): Option<seq<Byte>> {
    if |s| == 0 then Some([])
    else if s[0] == '%' then
      if |s| < 3 || HexValue(s[1]).None? || HexValue(s[2]).None? then None
      else match UnquoteBytes(s[3..])
        case None => None
        case Some(rest) => Some([HexValue(s[1]).value * 16 + HexValue(s[2]).value] + rest)
    else if s[0] as int >= 128 then None
    else match UnquoteBytes(s[1..])
      case None => None
      case Some(rest) => Some([s[0] as int] + rest)
  }

  function Unquote(s: string): Option<string> {
    match UnquoteBytes(s)
    case None => None
    case Some(bytes) => FromUtf8(bytes)
  }

  lemma UnquoteByteReads(safe: set<char>, b: Byte, rest: string)
    requires '%' !in safe && UnquoteBytes(rest).Some?
    ensures UnquoteBytes(QuoteByte(safe, b) + rest) == Some([b] + UnquoteBytes(rest).value)
  {
    var s := QuoteByte(safe, b) + rest;
    if |QuoteByte(safe, b)| == 1 {
      assert s[1..] == rest;
    } else {
      assert s[3..] == rest && s[1] == HexDigit(b / 16) && s[2] == HexDigit(b % 16);
    }
  }

  lemma {:induction false} QuotedBytesRead(safe: set<char>, bytes: seq<Byte>)
    requires '%' !in safe
    ensures UnquoteBytes(QuoteBytes(safe, bytes)) == Some(bytes)
  {
    hide UnquoteBytes, QuoteByte;
    if |bytes| == 0 {
      NothingReads();
    } else {
      QuotedBytesRead(safe, bytes[1..]);
      UnquoteByteReads(safe, bytes[0], QuoteBytes(safe, bytes[1..]));
      assert [bytes[0]] + bytes[1..] == bytes;
    }
  }

  lemma NothingReads()
    ensures UnquoteBytes("") == Some([])
  {
  }

  /** Percent-decoding undoes `quote`, for every text. */
  lemma QuoteRoundTrip(safe: set<char>, text: string)
    requires '%' !in safe
    ensures Unquote(Quote(safe, text)) == Some(text)
  {
    QuotedBytesRead(safe, Utf8(text));
    Utf8RoundTrip(text);
  }

  /** Nothing but unreserved characters, those declared safe and percent signs comes out. */
  lemma {:induction false} QuotedCharacters(safe: set<char>, bytes: seq<Byte>)
    ensures forall c :: c in QuoteBytes(safe, bytes) ==> Unreserved(c) || c in safe || c == '%'
  {
    if |bytes| > 0 {
      QuotedCharacters(safe, bytes[1..]);
    }
  }

  lemma QuotedLength(safe: set<char>, text: string)
    ensures Quote(safe, text) == "" <==> text == ""
  {
  }

  // ------------------------------------------------------------ one path segment

  function EncodeDots(s: string): string {
    if |s| == 0 then ""
    else (if s[0] == '.' then "%2E" else [s[0]]) + EncodeDots(s[1..])
  }

  predicate IsDots(s: string) {
    s == "." || s == ".."
  }

  function Segment(text: string): string {
    var encoded := Quote({}, text);
    if IsDots(encoded) then EncodeDots(encoded) else encoded
  }

  lemma OneDot()
    ensures EncodeDots(".") == "%2E"
    ensures UnquoteBytes("%2E") == UnquoteBytes(".") && UnquoteBytes(".").Some?
  {
    assert HexValue('2') == Some(2) && HexValue('E') == Some(14);
    assert UnquoteBytes("") == Some([]);
    var one := ".";
    assert one[1..] == "";
    var s := "%2E";
    assert s[3..] == "";
    assert EncodeDots("") == "";
  }

  lemma TwoDots()
    ensures EncodeDots("..") == "%2E%2E"
    ensures UnquoteBytes("%2E%2E") == UnquoteBytes("..") && UnquoteBytes("..").Some?
  {
    OneDot();
    assert HexValue('2') == Some(2) && HexValue('E') == Some(14);
    var two := "..";
    assert two[1..] == ".";
    var s := "%2E%2E";
    assert s[3..] == "%2E";
  }

  predicate SegmentChar(c: char) {
    Unreserved(c) || c == '%'
  }

  /** A segment reads back as its text, holds no delimiter, is never a dot segment, and is empty
      only for an empty text. */
  lemma SegmentReads(text: string)
    ensures Unquote(Segment(text)) == Some(text)
    ensures forall c :: c in Segment(text) ==> SegmentChar(c)
    ensures !IsDots(Segment(text))
    ensures Segment(text) == "" <==> text == ""
  {
    hide UnquoteBytes, EncodeDots, Utf8, FromUtf8, QuoteBytes, Unreserved;
    QuoteRoundTrip({}, text);
    QuotedCharacters({}, Utf8(text));
    QuotedLength({}, text);
    OneDot();
    TwoDots();
    SafeDots();
  }

  lemma SafeDots()
    ensures forall c :: c in "%2E" || c in "%2E%2E" ==> SegmentChar(c)
  {
  }
}
