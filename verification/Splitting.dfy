/** Splitting text at a character. */
module Splitting {

  /** The parts of `s`, the first of them going on from `current`. */
  function SplitFrom(current: string, s: string, sep: char): (r: seq<string>)
    ensures |r| > 0
    decreases |s|
  {
    if |s| == 0 then [current]
    else if s[0] == sep then [current] + SplitFrom("", s[1..], sep)
    else SplitFrom(current + [s[0]], s[1..], sep)
  }

  /** `s.split(sep)`: never empty. */
  function Split(s: string, sep: char): (r: seq<string>)
    ensures |r| > 0
  {
    SplitFrom("", s, sep)
  }

  lemma SplitAt(current: string, rest: string, sep: char)
    ensures SplitFrom(current, [sep] + rest, sep) == [current] + SplitFrom("", rest, sep)
  {
    assert ([sep] + rest)[1..] == rest;
  }

  /** A text without the separator belongs to the current part. */
  lemma {:induction false} SplitWord(current: string, word: string, rest: string, sep: char)
    requires sep !in word
    ensures SplitFrom(current, word + rest, sep) == SplitFrom(current + word, rest, sep)
    decreases |word|
  {
    if |word| == 0 {
      assert word + rest == rest && current + word == current;
    } else {
      assert (word + rest)[1..] == word[1..] + rest;
      assert current + [word[0]] + word[1..] == current + word;
      SplitWord(current + [word[0]], word[1..], rest, sep);
    }
  }
}
