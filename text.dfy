/**
  Character predicates and string helpers that the log scanners are built from:
  the whitespace class shared by the pattern `\s` and `str.strip()`, ASCII digits,
  ASCII lower-casing, substring tests and greedy character-class runs.
 */
module Text {

  import opened Wrappers

  /** Unicode whitespace as Python's `str.isspace()` and the `\s` class of `re` see it. */
  predicate IsSpace(c: char) {
    || ('\t' <= c <= '\r')
    || ('\U{1C}' <= c <= '\U{1F}')
    || c == ' '
    || c == '\U{85}'
    || c == '\U{A0}'
    || c == '\U{1680}'
    || ('\U{2000}' <= c <= '\U{200A}')
    || c == '\U{2028}'
    || c == '\U{2029}'
    || c == '\U{202F}'
    || c == '\U{205F}'
    || c == '\U{3000}'
  }

  predicate IsDigit(c: char) {
    '0' <= c <= '9'
  }

  predicate AllDigits(s: string) {
    forall i :: 0 <= i < |s| ==> IsDigit(s[i])
  }

  /** ASCII lower-casing of one character. */
  function LowerChar(c: char): (r: char)
    ensures 'A' <= c <= 'Z' ==> r as int == c as int + 32
    ensures !('A' <= c <= 'Z') ==> r == c
  {
    if 'A' <= c <= 'Z' then (c as int + 32) as char else c
  }

  /** The string with every ASCII capital replaced by its lower-case letter. */
  function Lower(s: string): (r: string)
    ensures |r| == |s|
    ensures forall i :: 0 <= i < |s| ==> r[i] == LowerChar(s[i])
  {
    seq(|s|, i requires 0 <= i < |s| => LowerChar(s[i]))
  }

  /** Lower-casing a slice gives the same slice of the lower-cased string. */
  lemma LowerSlice(s: string, i: nat, j: nat)
    requires i <= j <= |s|
    ensures Lower(s[i..j]) == Lower(s)[i..j]
  {
    assert forall k :: 0 <= k < j - i ==> Lower(s[i..j])[k] == Lower(s)[i..j][k];
  }

  /** `key` occurs in `s` starting at index `i`. */
  predicate HasAt(s: string, i: int, key: string) {
    0 <= i && i + |key| <= |s| && s[i..i + |key|] == key
  }

  /** Python's `key in s`. */
  predicate Contains(s: string, key: string) {
    exists i | 0 <= i <= |s| - |key| :: HasAt(s, i, key)
  }

  /** The character classes the log patterns use. */
  datatype Class =
    | Space            // whitespace
    | NonSpace         // anything but whitespace
    | NonSpaceComma    // anything but whitespace and ','
    | NonCommaNewline  // anything but ',' and a line feed
    | NonColon         // anything but ':'
    | NonDot           // anything but '.'
    | NonNewline       // anything but a line feed (the pattern dot)
    | Digit            // '0' .. '9'

  predicate In(c: char, cl: Class) {
    match cl
    case Space => IsSpace(c)
    case NonSpace => !IsSpace(c)
    case NonSpaceComma => !IsSpace(c) && c != ','
    case NonCommaNewline => c != ',' && c != '\n'
    case NonColon => c != ':'
    case NonDot => c != '.'
    case NonNewline => c != '\n'
    case Digit => IsDigit(c)
  }

  /** Index `k` holds a character of `cl`. */
  predicate InAt(s: string, k: nat, cl: Class) {
    k < |s| && In(s[k], cl)
  }

  /** End of the longest run of `cl` characters that starts at `i` (a greedy repetition). */
  function Span(s: string, i: nat, cl: Class): (j: nat)
    requires i <= |s|
    ensures i <= j <= |s|
    ensures forall k: nat :: i <= k < j ==> InAt(s, k, cl)
    ensures !InAt(s, j, cl)
    decreases |s| - i
  {
    if i < |s| && In(s[i], cl) then Span(s, i + 1, cl) else i
  }

  /** A greedy run of `cl` from `i` ends at the first index not in `cl`. */
  lemma {:induction false} SpanIs(s: string, i: nat, j: nat, cl: Class)
    requires i <= j <= |s|
    requires forall k :: i <= k < j ==> In(s[k], cl)
    requires !InAt(s, j, cl)
    ensures Span(s, i, cl) == j
    decreases j - i
  {
    if i < j {
      SpanIs(s, i + 1, j, cl);
    }
  }

  /** Every character of the greedy run of `cl` from `i` is in `cl`. */
  lemma SpanInside(s: string, i: nat, cl: Class)
    requires i <= |s|
    ensures forall k :: i <= k < Span(s, i, cl) ==> In(s[k], cl)
  {
    forall k | i <= k < Span(s, i, cl) ensures In(s[k], cl) {
      assert InAt(s, k, cl);
    }
  }

  /** First index in [i, e) holding `c`, if any. */
  function IndexOf(s: string, i: nat, e: nat, c: char): (r: Option<nat>)
    requires i <= e <= |s|
    ensures r.Some? ==> i <= r.value < e && s[r.value] == c
    ensures forall k :: i <= k < (if r.Some? then r.value else e) ==> s[k] != c
    decreases e - i
  {
    if i == e then None
    else if s[i] == c then Some(i)
    else IndexOf(s, i + 1, e, c)
  }

  /** `IndexOf` finds `j` when `c` sits there and nowhere before it from `i` on. */
  lemma IndexOfIs(s: string, i: nat, e: nat, c: char, j: nat)
    requires i <= j < e <= |s| && s[j] == c
    requires forall k :: i <= k < j ==> s[k] != c
    ensures IndexOf(s, i, e, c) == Some(j)
    decreases j - i
  {
    if i < j {
      IndexOfIs(s, i + 1, e, c, j);
    }
  }

  /** A character missing from `t` is missing from where `t` sits in `s`. */
  lemma AbsentAt(s: string, i: nat, t: string, c: char)
    requires HasAt(s, i, t) && c !in t
    ensures forall k :: i <= k < i + |t| ==> s[k] != c
  {
    forall k | i <= k < i + |t| ensures s[k] != c {
      assert s[k] == t[k - i];
    }
  }

  /** `r` sits in `s` at offset `i` with only whitespace before and after it. */
  predicate Framed(s: string, r: string, i: int) {
    && 0 <= i && i + |r| <= |s| && r == s[i..i + |r|]
    && (forall k :: 0 <= k < i ==> IsSpace(s[k]))
    && (forall k :: i + |r| <= k < |s| ==> IsSpace(s[k]))
  }

  /** Start of the trailing whitespace of `s[lo..j]`. */
  function TrimEnd(s: string, lo: nat, j: nat): (hi: nat)
    requires lo <= j <= |s|
    ensures lo <= hi <= j
    ensures forall k :: hi <= k < j ==> IsSpace(s[k])
    ensures hi == lo || !IsSpace(s[hi - 1])
    decreases j - lo
  {
    if lo < j && IsSpace(s[j - 1]) then TrimEnd(s, lo, j - 1) else j
  }

  /** Python's `s.strip()`: the text between the leading and the trailing whitespace. */
  function Strip(s: string): (r: string)
    ensures r == [] || (!IsSpace(r[0]) && !IsSpace(r[|r| - 1]))
    ensures Framed(s, r, Span(s, 0, Space))
  {
    SpanInside(s, 0, Space);
    s[Span(s, 0, Space)..TrimEnd(s, Span(s, 0, Space), |s|)]
  }

  /** The two properties of `Strip` pin it down: any framed text without whitespace at its ends is the stripped text. */
  lemma StripUnique(s: string, r: string, i: nat)
    requires Framed(s, r, i)
    requires r == [] || (!IsSpace(r[0]) && !IsSpace(r[|r| - 1]))
    ensures r == Strip(s)
  {
    var lo := Span(s, 0, Space);
    SpanInside(s, 0, Space);
    if r == [] {
      assert forall k :: 0 <= k < |s| ==> IsSpace(s[k]);
      assert lo == |s|;
    } else {
      assert s[i] == r[0] && s[i + |r| - 1] == r[|r| - 1];
      assert lo == i;
      assert TrimEnd(s, lo, |s|) == i + |r|;
    }
  }

  /** Stripping twice is stripping once. */
  lemma StripIdempotent(s: string)
    ensures Strip(Strip(s)) == Strip(s)
  {
    var r := Strip(s);
    assert Span(r, 0, Space) == 0;
    assert TrimEnd(r, 0, |r|) == |r|;
    assert r[0..|r|] == r;
  }

  /** Stripping keeps only characters of the original. */
  lemma StripWithin(s: string, c: char)
    requires c in Strip(s)
    ensures c in s
  {
    var k :| 0 <= k < |Strip(s)| && Strip(s)[k] == c;
    assert s[Span(s, 0, Space) + k] == c;
  }

  /** A character absent from a string is absent from its stripped form. */
  lemma StripAvoids(s: string, c: char)
    requires c !in s
    ensures c !in Strip(s)
  {
    if c in Strip(s) {
      StripWithin(s, c);
    }
  }

  /** Stripping keeps every character that is not whitespace, at its offset from the first kept one. */
  lemma StripKeeps(s: string, k: nat)
    requires k < |s| && !IsSpace(s[k])
    ensures var i := Span(s, 0, Space);
      i <= k < i + |Strip(s)| && Strip(s)[k - i] == s[k]
  {
    SpanInside(s, 0, Space);
  }

  /** A character that is not whitespace survives stripping. */
  lemma StripKeepsChar(s: string, c: char)
    requires c in s && !IsSpace(c)
    ensures c in Strip(s)
  {
    var k :| 0 <= k < |s| && s[k] == c;
    StripKeeps(s, k);
  }

  /** 10 to the power `n`. */
  function Pow10(n: nat): (r: nat)
    ensures r >= 1
  {
    if n == 0 then 1 else 10 * Pow10(n - 1)
  }

  function DigitValue(c: char): nat
    requires IsDigit(c)
  {
    c as int - '0' as int
  }

  /** Python's `int(ds)` for a string of ASCII digits (leading zeros allowed). */
  function NatOf(ds: string): (r: nat)
    requires AllDigits(ds)
    ensures r < Pow10(|ds|)
  {
    if ds == [] then 0 else NatOf(ds[..|ds| - 1]) * 10 + DigitValue(ds[|ds| - 1])
  }
}
