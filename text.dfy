/**
 * The string operations the bot relies on: case folding (SQL `LOWER` and
 * Python's `str.lower`), whitespace (`str.isspace`), `str.strip`,
 * `str.split()` with no separator, `" ".join`, `str.replace(p, "")` and the
 * decimal rendering of a counter.
 */
module Text {
  import opened Wrappers

  /** Python's `str.isspace` for one character. */
  predicate IsSpace(c: char) {
    var n := c as int;
    (9 <= n <= 13) || (28 <= n <= 32) || n == 0x85 || n == 0xA0 || n == 0x1680
    || (0x2000 <= n <= 0x200A) || n == 0x2028 || n == 0x2029 || n == 0x202F
    || n == 0x205F || n == 0x3000
  }

  /** Lower-case mapping of ASCII A-Z and of the Cyrillic capitals U+0400-U+042F (А-Я, Ё, ...). */
  function LowerChar(c: char): char {
    var n := c as int;
    if 'A' <= c <= 'Z' then (n + 32) as char
    else if 0x410 <= n <= 0x42F then (n + 32) as char
    else if 0x400 <= n <= 0x40F then (n + 80) as char
    else c
  }

  predicate IsUpper(c: char) {
    LowerChar(c) != c
  }

  /** `LOWER(s)` / `s.lower()`: folds every character, keeps the length. */
  function Lower(s: string): (r: string)
    ensures |r| == |s|
    ensures forall i :: 0 <= i < |s| ==> r[i] == LowerChar(s[i])
    ensures forall i :: 0 <= i < |r| ==> !IsUpper(r[i])
  {
    if s == [] then [] else [LowerChar(s[0])] + Lower(s[1..])
  }

  /** Folding twice is folding once, so `LOWER(a) = LOWER(b)` is an equivalence on titles. */
  lemma LowerIdempotent(s: string)
    ensures Lower(Lower(s)) == Lower(s)
  {
  }

  /** Every character of a word is printable (not whitespace) and a word is never empty. */
  predicate IsWord(w: string) {
    w != [] && forall i :: 0 <= i < |w| ==> !IsSpace(w[i])
  }

  predicate AllSpace(s: string) {
    forall i :: 0 <= i < |s| ==> IsSpace(s[i])
  }

  /** `s` is `r` with the whitespace `s[..k]` in front and whitespace behind it. */
  predicate Padded(s: string, k: nat, r: string) {
    k + |r| <= |s| && s[k..k + |r|] == r && AllSpace(s[..k]) && AllSpace(s[k + |r|..])
  }

  /** Length of the leading run of whitespace characters. */
  function LeadingSpace(s: string): (k: nat)
    ensures k <= |s|
    ensures forall i :: 0 <= i < k ==> IsSpace(s[i])
    ensures k < |s| ==> !IsSpace(s[k])
  {
    if s == [] || !IsSpace(s[0]) then 0 else 1 + LeadingSpace(s[1..])
  }

  /** Length of the trailing run of whitespace characters. */
  function TrailingSpace(s: string): (k: nat)
    ensures k <= |s|
    ensures forall i :: |s| - k <= i < |s| ==> IsSpace(s[i])
    ensures k < |s| ==> !IsSpace(s[|s| - k - 1])
  {
    if s == [] || !IsSpace(s[|s| - 1]) then 0 else 1 + TrailingSpace(s[..|s| - 1])
  }

  /** `s.strip()`: the result is `s` without the whitespace at both ends, and has none left there. */
  function Strip(s: string): (r: string)
    ensures exists k :: Padded(s, k, r)
    ensures r == [] || (!IsSpace(r[0]) && !IsSpace(r[|r| - 1]))
  {
    var a := LeadingSpace(s);
    var t := s[a..];
    var b := TrailingSpace(t);
    var r := t[..|t| - b];
    assert Padded(s, a, r) by {
      assert s[a..a + |r|] == r;
      assert forall i :: 0 <= i < a ==> s[..a][i] == s[i];
      assert s[a + |r|..] == t[|t| - b..];
    }
    r
  }

  /** Length of the leading run of non-whitespace characters. */
  function TokenLength(s: string): (k: nat)
    ensures k <= |s|
    ensures forall i :: 0 <= i < k ==> !IsSpace(s[i])
    ensures k < |s| ==> IsSpace(s[k])
  {
    if s == [] || IsSpace(s[0]) then 0 else 1 + TokenLength(s[1..])
  }

  /** `s.split()`: the maximal runs of non-whitespace characters, left to right. */
  function Words(s: string): (ws: seq<string>)
    ensures forall i :: 0 <= i < |ws| ==> IsWord(ws[i])
    decreases |s|
  {
    if s == [] then []
    else if IsSpace(s[0]) then Words(s[1..])
    else
      var k := TokenLength(s);
      [s[..k]] + Words(s[k..])
  }

  /** `" ".join(ws)`. */
  function JoinWords(ws: seq<string>): string {
    if ws == [] then ""
    else if |ws| == 1 then ws[0]
    else ws[0] + " " + JoinWords(ws[1..])
  }

  lemma {:induction false} TokenLengthOfWord(w: string, rest: string)
    requires IsWord(w)
    requires rest == [] || IsSpace(rest[0])
    ensures TokenLength(w + rest) == |w|
  {
    if |w| > 1 {
      assert (w + rest)[1..] == w[1..] + rest;
      TokenLengthOfWord(w[1..], rest);
    } else {
      assert (w + rest)[1..] == rest;
    }
  }

  /** A white-space character ends the leading run of `a` exactly where it ends without the rest. */
  lemma TokenLengthAtSpace(a: string, c: char, b: string)
    requires IsSpace(c)
    ensures TokenLength(a + [c] + b) == TokenLength(a)
  {
    var s := a + [c] + b;
    var k0, k1 := TokenLength(a), TokenLength(s);
    assert forall i :: 0 <= i < |a| ==> s[i] == a[i];
    assert s[|a|] == c;
  }

  /** `split()` of a single word is that word. */
  lemma WordsOfWord(w: string)
    requires IsWord(w)
    ensures Words(w) == [w]
  {
    TokenLengthOfWord(w, []);
    assert w + [] == w;
    assert w[|w|..] == [];
  }

  /**
   * `split()` cuts at every white-space character: what stands on either side
   * is split on its own. With `Words("") == []` and `WordsOfWord` this
   * determines `Words` on every input.
   */
  lemma {:induction false} WordsSplitAtSpace(a: string, c: char, b: string)
    requires IsSpace(c)
    ensures Words(a + [c] + b) == Words(a) + Words(b)
    decreases |a|
  {
    var s := a + [c] + b;
    if a == [] {
      assert s == [c] + b;
      assert s[1..] == b;
    } else if IsSpace(a[0]) {
      assert s[1..] == a[1..] + [c] + b;
      WordsSplitAtSpace(a[1..], c, b);
    } else {
      var k := TokenLength(a);
      TokenLengthAtSpace(a, c, b);
      assert s[..k] == a[..k];
      assert s[k..] == a[k..] + [c] + b;
      WordsSplitAtSpace(a[k..], c, b);
    }
  }

  /** Splitting a single-spaced join of words gives the words back. */
  lemma {:induction false} WordsOfJoin(ws: seq<string>)
    requires forall i :: 0 <= i < |ws| ==> IsWord(ws[i])
    ensures Words(JoinWords(ws)) == ws
  {
    if ws == [] {
    } else if |ws| == 1 {
      var w := ws[0];
      TokenLengthOfWord(w, "");
      assert w + "" == w;
      assert w[|w|..] == [];
    } else {
      var w, rest := ws[0], JoinWords(ws[1..]);
      var s := w + " " + rest;
      TokenLengthOfWord(w, " " + rest);
      assert s == w + (" " + rest);
      assert s[..|w|] == w;
      assert s[|w|..] == " " + rest;
      assert (" " + rest)[1..] == rest;
      WordsOfJoin(ws[1..]);
    }
  }

  /**
   * The name step of the dialogue: at least two words are needed; the first
   * word is the first name and the remaining words, single-spaced, the last name.
   */
  function ParseName(text: string): (r: Option<(string, string)>)
    ensures r.Some? <==> |Words(text)| >= 2
    ensures r.Some? ==> IsWord(r.value.0) && [r.value.0] + Words(r.value.1) == Words(text)
    ensures r.Some? ==> JoinWords(Words(r.value.1)) == r.value.1
  {
    var parts := Words(text);
    if |parts| < 2 then None
    else
      WordsOfJoin(parts[1..]);
      Some((parts[0], JoinWords(parts[1..])))
  }

  /** `p` occurs somewhere in `s`. */
  predicate Occurs(s: string, p: string) {
    exists i :: 0 <= i <= |s| && p <= s[i..]
  }

  /** `s.replace(p, "")`: every non-overlapping occurrence of `p`, scanning left to right, removed. */
  function RemoveAll(s: string, p: string): (r: string)
    requires p != []
    ensures |r| <= |s|
    ensures !Occurs(s, p) ==> r == s
    decreases |s|
  {
    if s == [] then []
    else if p <= s then
      assert s[0..] == s;
      RemoveAll(s[|p|..], p)
    else
      var r := [s[0]] + RemoveAll(s[1..], p);
      assert !Occurs(s, p) ==> !Occurs(s[1..], p) by {
        if Occurs(s[1..], p) {
          var i :| 0 <= i <= |s[1..]| && p <= s[1..][i..];
          assert s[1..][i..] == s[i + 1..];
        }
      }
      r
  }

  /** Removing the marker from "marker + title" recovers every title that does not contain the marker. */
  lemma StripMarker(p: string, title: string)
    requires p != [] && !Occurs(title, p)
    ensures RemoveAll(p + title, p) == title
  {
    assert p <= p + title;
    assert (p + title)[|p|..] == title;
  }

  function Digit(d: nat): char
    requires d < 10
  {
    ('0' as int + d) as char
  }

  /** The number a string of digits spells in base 10. */
  function DigitsValue(s: string): int {
    if s == [] then 0 else DigitsValue(s[..|s| - 1]) * 10 + (s[|s| - 1] as int - '0' as int)
  }

  /** Decimal rendering of a natural number (`f"{i}"`): digits only, spelling `n`, without a leading zero. */
  function Decimal(n: nat): (r: string)
    ensures r != []
    ensures forall i :: 0 <= i < |r| ==> '0' <= r[i] <= '9'
    ensures DigitsValue(r) == n
    ensures r[0] == '0' ==> r == "0"
  {
    if n < 10 then
      assert [Digit(n)][..0] == [];
      [Digit(n)]
    else
      var front := Decimal(n / 10);
      var r := front + [Digit(n % 10)];
      assert r[..|r| - 1] == front;
      r
  }
}
