/** The few string operations of Python that the modelled code relies on:
    substring containment (`needle in hay`), `str.split(sep)` with its
    inverse `sep.join`, `str.strip()`, `str.lower()` and `str(int)`. */
module Text {

  /** `needle` occurs somewhere in `hay`: the meaning of Python's `needle in hay`. */
  ghost predicate Occurs(needle: string, hay: string) {
    exists i: nat :: MatchesAt(needle, hay, i)
  }

  /** `needle` is found in `hay` starting at position `i`. */
  predicate MatchesAt(needle: string, hay: string, i: nat) {
    i + |needle| <= |hay| && hay[i..i + |needle|] == needle
  }

  predicate StartsWith(s: string, prefix: string) {
    |prefix| <= |s| && s[..|prefix|] == prefix
  }

  /** An executable test for `needle in hay`, by scanning the start positions. */
  function Contains(hay: string, needle: string): (r: bool)
    ensures r <==> Occurs(needle, hay)
    decreases |hay|
  {
    if StartsWith(hay, needle) then
      assert MatchesAt(needle, hay, 0);
      true
    else if hay == [] then
      false
    else
      OccursInTail(needle, hay);
      Contains(hay[1..], needle)
  }

  /** When `needle` is not a prefix of `hay`, it occurs in `hay` exactly when it occurs in `hay[1..]`. */
  lemma OccursInTail(needle: string, hay: string)
    requires hay != [] && !StartsWith(hay, needle)
    ensures Occurs(needle, hay) <==> Occurs(needle, hay[1..])
  {
    if Occurs(needle, hay) {
      var i: nat :| MatchesAt(needle, hay, i);
      assert i != 0;
      assert hay[1..][i - 1..i - 1 + |needle|] == hay[i..i + |needle|];
      assert MatchesAt(needle, hay[1..], i - 1);
    }
    if Occurs(needle, hay[1..]) {
      var j: nat :| MatchesAt(needle, hay[1..], j);
      assert hay[j + 1..j + 1 + |needle|] == hay[1..][j..j + |needle|];
      assert MatchesAt(needle, hay, j + 1);
    }
  }

  /** A witness position makes `needle` occur in `hay`. */
  lemma OccursAt(needle: string, hay: string, i: nat)
    requires i + |needle| <= |hay| && hay[i..i + |needle|] == needle
    ensures Occurs(needle, hay)
  {
    assert MatchesAt(needle, hay, i);
  }

  /** A string occurs in any concatenation that has it in the middle. */
  lemma OccursInMiddle(a: string, b: string, c: string)
    ensures Occurs(b, a + b + c)
  {
    assert (a + b + c)[|a|..|a| + |b|] == b;
    OccursAt(b, a + b + c, |a|);
  }

  /** Concatenation is associative; stated once so that proofs need not
      rediscover it by extensionality. */
  lemma AppendAssoc<T>(a: seq<T>, b: seq<T>, c: seq<T>)
    ensures (a + b) + c == a + (b + c)
  {
  }

  /** `sep.join(parts)` */
  function Join(parts: seq<string>, sep: char): string
    decreases |parts|
  {
    if parts == [] then ""
    else if |parts| == 1 then parts[0]
    else parts[0] + [sep] + Join(parts[1..], sep)
  }

  /** `s.split(sep)` for a one-character separator: the pieces between the
      separators, so that joining them with `sep` gives `s` back. */
  function Split(s: string, sep: char): (r: seq<string>)
    ensures |r| >= 1
    ensures Join(r, sep) == s
    ensures forall k :: 0 <= k < |r| ==> sep !in r[k]
    decreases |s|
  {
    if s == [] then [""]
    else
      var rest := Split(s[1..], sep);
      if s[0] == sep then
        assert [""] + rest == [""] + rest;
        assert ([""] + rest)[1..] == rest;
        [""] + rest
      else
        var r := [[s[0]] + rest[0]] + rest[1..];
        assert r[1..] == rest[1..];
        assert |rest| > 1 ==> Join(rest, sep) == rest[0] + [sep] + Join(rest[1..], sep);
        assert s == [s[0]] + s[1..];
        r
  }

  /** Python's `str.isspace()` for one character. */
  predicate IsSpace(c: char) {
    var n := c as int;
    n == 0x20 || (0x09 <= n <= 0x0D) || (0x1C <= n <= 0x1F) || n == 0x85 || n == 0xA0
    || n == 0x1680 || (0x2000 <= n <= 0x200A) || n == 0x2028 || n == 0x2029
    || n == 0x202F || n == 0x205F || n == 0x3000
  }

  /** Index of the first non-whitespace character, or |s| if there is none. */
  function TextStart(s: string): (i: nat)
    ensures i <= |s|
    ensures forall k :: 0 <= k < i ==> IsSpace(s[k])
    ensures i < |s| ==> !IsSpace(s[i])
    decreases |s|
  {
    if s == [] || !IsSpace(s[0]) then 0 else 1 + TextStart(s[1..])
  }

  /** One past the index of the last non-whitespace character at or after `lo`, or `lo`. */
  function TextEnd(s: string, lo: nat): (j: nat)
    requires lo <= |s|
    ensures lo <= j <= |s|
    ensures forall k :: j <= k < |s| ==> IsSpace(s[k])
    ensures j > lo ==> !IsSpace(s[j - 1])
    decreases |s|
  {
    if |s| == lo || !IsSpace(s[|s| - 1]) then |s|
    else TextEnd(s[..|s| - 1], lo)
  }

  /** `s.strip()`: `s` without its leading and trailing whitespace. */
  function Strip(s: string): (r: string)
    ensures TextStart(s) + |r| <= |s|
    ensures forall k :: 0 <= k < |r| ==> r[k] == s[TextStart(s) + k]
    ensures r != [] ==> !IsSpace(r[0]) && !IsSpace(r[|r| - 1])
    ensures forall k :: TextStart(s) + |r| <= k < |s| ==> IsSpace(s[k])
  {
    var i := TextStart(s);
    s[i..TextEnd(s, i)]
  }

  function LowerChar(c: char): char {
    if 'A' <= c <= 'Z' then (c as int + 32) as char else c
  }

  /** `s.lower()` for ASCII letters; other characters are kept. */
  function Lower(s: string): (r: string)
    ensures |r| == |s|
    ensures forall k :: 0 <= k < |s| ==> r[k] == LowerChar(s[k])
  {
    seq(|s|, k requires 0 <= k < |s| => LowerChar(s[k]))
  }

  function Digit(d: nat): char
    requires d < 10
  {
    "0123456789"[d]
  }

  function DigitValue(c: char): int {
    c as int - '0' as int
  }

  /** The number a string of decimal digits denotes. */
  function DigitsValue(s: string): int
    decreases |s|
  {
    if s == [] then 0 else 10 * DigitsValue(s[..|s| - 1]) + DigitValue(s[|s| - 1])
  }

  /** `str(n)` for a natural number: its decimal digits, which denote `n`. */
  function NatToString(n: nat): (r: string)
    ensures |r| >= 1
    ensures forall k :: 0 <= k < |r| ==> '0' <= r[k] <= '9'
    ensures DigitsValue(r) == n
    decreases n
  {
    if n < 10 then
      assert DigitsValue([Digit(n)]) == 10 * DigitsValue([]) + DigitValue(Digit(n));
      [Digit(n)]
    else
      var r := NatToString(n / 10) + [Digit(n % 10)];
      assert r[..|r| - 1] == NatToString(n / 10);
      r
  }

  /** `str(i)` for any integer. */
  function IntToString(i: int): (r: string)
    ensures |r| >= 1
    ensures (r[0] == '-') <==> (i < 0)
  {
    if i < 0 then "-" + NatToString(-i) else NatToString(i)
  }
}
