/**
 * The few Python `str` operations the NEGS decoder is built from: clamped
 * slicing, `lstrip(c)`, `strip()` and the `int(...)` constructor applied to a
 * string.
 */
module PyStr {
  import opened Wrappers

  /** `c.isspace()` for one character: the Unicode whitespace set Python strips. */
  predicate IsSpace(c: char) {
    var n := c as int;
    (9 <= n <= 13) || (0x1C <= n <= 0x20) || n == 0x85 || n == 0xA0 || n == 0x1680
    || (0x2000 <= n <= 0x200A) || n == 0x2028 || n == 0x2029 || n == 0x202F
    || n == 0x205F || n == 0x3000
  }

  predicate IsDigit(c: char) {
    '0' <= c <= '9'
  }

  /** Every character of `s` is `c`. */
  predicate AllAre(s: string, c: char) {
    forall k :: 0 <= k < |s| ==> s[k] == c
  }

  /** Every character of `s` is whitespace. */
  predicate AllSpace(s: string) {
    forall k :: 0 <= k < |s| ==> IsSpace(s[k])
  }

  /** Every character of `s` is an ASCII decimal digit. */
  predicate AllDigits(s: string) {
    forall k :: 0 <= k < |s| ==> IsDigit(s[k])
  }

  /** A non-empty run of ASCII decimal digits. */
  predicate IsDigits(s: string) {
    |s| > 0 && forall k :: 0 <= k < |s| ==> IsDigit(s[k])
  }

  function Min(a: int, b: int): int {
    if a <= b then a else b
  }

  /**
   * `s[i:j]` for non-negative bounds: both ends are clamped to the string, and
   * an empty range gives "" rather than an error.
   */
  function Slice(s: string, i: nat, j: nat): (r: string)
    ensures |r| == if i < Min(j, |s|) then Min(j, |s|) - i else 0
    ensures forall k :: 0 <= k < |r| ==> r[k] == s[i + k]
  {
    var hi := Min(j, |s|);
    if i < hi then s[i..hi] else ""
  }

  /**
   * `s[-n:]` for a positive `n`: the last `n` characters, or all of `s` when
   * it is shorter. (`s[-0:]` is all of `s`, so `n` is kept positive.)
   */
  function LastChars(s: string, n: nat): (r: string)
    requires n > 0
    ensures |r| == Min(n, |s|)
    ensures r == s[|s| - |r|..]
  {
    if |s| <= n then s else s[|s| - n..]
  }

  /** Length of the longest prefix of `s` made only of `c`. */
  function PrefixRun(s: string, c: char): (n: nat)
    ensures n <= |s| && AllAre(s[..n], c)
    ensures n < |s| ==> s[n] != c
  {
    if s != [] && s[0] == c then
      var m := PrefixRun(s[1..], c);
      assert s[..1 + m] == [c] + s[1..][..m];
      1 + m
    else 0
  }

  /** Length of the longest whitespace prefix of `s`. */
  function LeadingSpaces(s: string): (n: nat)
    ensures n <= |s| && AllSpace(s[..n])
    ensures n < |s| ==> !IsSpace(s[n])
  {
    if s != [] && IsSpace(s[0]) then
      var m := LeadingSpaces(s[1..]);
      assert s[..1 + m] == [s[0]] + s[1..][..m];
      1 + m
    else 0
  }

  /** Length of the longest whitespace suffix of `s`. */
  function TrailingSpaces(s: string): (n: nat)
    ensures n <= |s| && AllSpace(s[|s| - n..])
    ensures n < |s| ==> !IsSpace(s[|s| - n - 1])
  {
    if s != [] && IsSpace(s[|s| - 1]) then
      var m := TrailingSpaces(s[..|s| - 1]);
      var tail, shorter := s[|s| - (m + 1)..], s[..|s| - 1][|s| - 1 - m..];
      assert AllSpace(tail) by {
        forall k | 0 <= k < |tail|
          ensures IsSpace(tail[k])
        {
          if k < m {
            assert tail[k] == shorter[k];
          }
        }
      }
      m + 1
    else 0
  }

  /** `s.lstrip(c)`: drops the longest prefix made only of `c`. */
  function LStrip(s: string, c: char): (r: string)
    ensures r != [] ==> r[0] != c
  {
    s[PrefixRun(s, c)..]
  }

  /** `s.strip()`: drops whitespace at both ends. */
  function Strip(s: string): (r: string)
    ensures |r| <= |s|
    ensures r != [] ==> !IsSpace(r[0]) && !IsSpace(r[|r| - 1])
    ensures AllSpace(s) ==> r == []
  {
    var t := s[LeadingSpaces(s)..];
    t[..|t| - TrailingSpaces(t)]
  }

  /**
   * `lstrip(c)` keeps a suffix of `s`, and what it drops is made only of `c`;
   * with `LStrip`'s own contract this fixes the result.
   */
  lemma LStripParts(s: string, c: char)
    ensures var r := LStrip(s, c);
      && |r| <= |s| && r == s[|s| - |r|..] && AllAre(s[..|s| - |r|], c)
  {
  }

  /**
   * `strip()` keeps the piece of `s` after its leading whitespace, and what
   * follows that piece is whitespace too; nothing is kept only when `s` is all
   * whitespace. With `Strip`'s own contract this fixes the result.
   */
  lemma StripParts(s: string)
    ensures var r, n := Strip(s), LeadingSpaces(s);
      && n + |r| <= |s| && r == s[n..n + |r|]
      && AllSpace(s[..n]) && AllSpace(s[n + |r|..])
    ensures Strip(s) == [] <==> AllSpace(s)
  {
    var n := LeadingSpaces(s);
    var t := s[n..];
    var j := |t| - TrailingSpaces(t);
    assert Strip(s) == t[..j];
    SuffixSlices(s, n, j);
    if j == 0 {
      SpacesJoin(s, n);
    }
  }

  /** Slicing a suffix `s[n..]` at `j` is slicing `s` at `n + j`. */
  lemma SuffixSlices(s: string, n: nat, j: nat)
    requires n + j <= |s|
    ensures s[n..][..j] == s[n..n + j] && s[n..][j..] == s[n + j..]
  {
  }

  /** A string whose two sides of `n` are whitespace is whitespace. */
  lemma SpacesJoin(s: string, n: nat)
    requires n <= |s| && AllSpace(s[..n]) && AllSpace(s[n..])
    ensures AllSpace(s)
  {
    forall k | 0 <= k < |s|
      ensures IsSpace(s[k])
    {
      if k < n {
        assert s[k] == s[..n][k];
      } else {
        assert s[k] == s[n..][k - n];
      }
    }
  }

  /** A string without whitespace is left as it is by `strip()`. */
  lemma SpacelessStrip(s: string)
    ensures (forall k :: 0 <= k < |s| ==> !IsSpace(s[k])) ==> Strip(s) == s
  {
    if forall k :: 0 <= k < |s| ==> !IsSpace(s[k]) {
      assert LeadingSpaces(s) == 0;
      assert TrailingSpaces(s) == 0;
    }
  }

  function DigitValue(c: char): nat
    requires IsDigit(c)
  {
    (c as int) - ('0' as int)
  }

  /** The base-10 value of a string of ASCII digits (the empty string counts as 0). */
  function DecimalValue(d: string): nat
    requires forall k :: 0 <= k < |d| ==> IsDigit(d[k])
  {
    if d == [] then 0 else DecimalValue(d[..|d| - 1]) * 10 + DigitValue(d[|d| - 1])
  }

  /**
   * The whitespace `int()` and `float()` skip around a number: the ASCII
   * tab, line feed, vertical tab, form feed, carriage return and space, and
   * every non-ASCII character `isspace()` accepts. The separators
   * U+001C..U+001F, which `strip()` removes, are kept and make the number
   * invalid.
   */
  predicate IsNumberSpace(c: char) {
    IsSpace(c) && !(0x1C <= c as int <= 0x1F)
  }

  /** `s` with the whitespace `int()` skips removed at both ends. */
  function TrimNumber(s: string): (r: string)
    ensures |r| <= |s|
    ensures r != [] ==> !IsNumberSpace(r[0]) && !IsNumberSpace(r[|r| - 1])
    decreases |s|
  {
    if s != [] && IsNumberSpace(s[0]) then TrimNumber(s[1..])
    else if s != [] && IsNumberSpace(s[|s| - 1]) then TrimNumber(s[..|s| - 1])
    else s
  }

  /**
   * What `TrimNumber` keeps is the middle of `s`, and only number whitespace
   * lies around it.
   */
  lemma {:induction false} TrimNumberParts(s: string) returns (n: nat)
    ensures n + |TrimNumber(s)| <= |s| && TrimNumber(s) == s[n..n + |TrimNumber(s)|]
    ensures forall k :: 0 <= k < n ==> IsNumberSpace(s[k])
    ensures forall k :: n + |TrimNumber(s)| <= k < |s| ==> IsNumberSpace(s[k])
    decreases |s|
  {
    if s != [] && IsNumberSpace(s[0]) {
      var m := TrimNumberParts(s[1..]);
      SpaceBefore(s, TrimNumber(s), m);
      n := m + 1;
    } else if s != [] && IsNumberSpace(s[|s| - 1]) {
      n := TrimNumberParts(s[..|s| - 1]);
      SpaceAfter(s, s[..|s| - 1], TrimNumber(s), n);
    } else {
      n := 0;
    }
  }

  /** The parts of `s[1..]` shift by one in `s` when `s[0]` is number whitespace. */
  lemma SpaceBefore(s: string, r: string, m: nat)
    requires s != [] && IsNumberSpace(s[0])
    requires m + |r| <= |s| - 1 && r == s[1..][m..m + |r|]
    requires forall k :: 0 <= k < m ==> IsNumberSpace(s[1..][k])
    requires forall k :: m + |r| <= k < |s| - 1 ==> IsNumberSpace(s[1..][k])
    ensures r == s[m + 1..m + 1 + |r|]
    ensures forall k :: 0 <= k < m + 1 ==> IsNumberSpace(s[k])
    ensures forall k :: m + 1 + |r| <= k < |s| ==> IsNumberSpace(s[k])
  {
    assert forall k :: 1 <= k < |s| ==> s[k] == s[1..][k - 1];
  }

  /** The parts of `t == s[..|s| - 1]` carry over to `s` when its last character is number whitespace. */
  lemma SpaceAfter(s: string, t: string, r: string, n: nat)
    requires s != [] && IsNumberSpace(s[|s| - 1]) && t == s[..|s| - 1]
    requires n + |r| <= |t| && r == t[n..n + |r|]
    requires forall k :: 0 <= k < n ==> IsNumberSpace(t[k])
    requires forall k :: n + |r| <= k < |t| ==> IsNumberSpace(t[k])
    ensures r == s[n..n + |r|]
    ensures forall k :: 0 <= k < n ==> IsNumberSpace(s[k])
    ensures forall k :: n + |r| <= k < |s| ==> IsNumberSpace(s[k])
  {
    assert forall k :: 0 <= k < |t| ==> s[k] == t[k];
  }

  /**
   * `int(s)` on a string: surrounding whitespace is ignored, then an optional
   * sign and at least one digit must make up the rest; anything else is the
   * `ValueError` Python raises, here `None`.
   */
  function ParseInt(s: string): Option<int> {
    ParseSigned(TrimNumber(s))
  }

  /** `int()` once the whitespace is gone: an optional sign, then digits only. */
  function ParseSigned(t: string): Option<int> {
    if t != [] && (t[0] == '+' || t[0] == '-') then
      var d := t[1..];
      if IsDigits(d) then
        var v := DecimalValue(d) as int;
        Some(if t[0] == '-' then -v else v)
      else None
    else if IsDigits(t) then Some(DecimalValue(t))
    else None
  }

  /**
   * A plain run of digits is read as its decimal value, and a string with no
   * digit at all is rejected.
   */
  lemma ParseIntDigits(s: string)
    ensures IsDigits(s) ==> ParseInt(s) == Some(DecimalValue(s))
    ensures (forall k :: 0 <= k < |s| ==> !IsDigit(s[k])) ==> ParseInt(s) == None
  {
    if forall k :: 0 <= k < |s| ==> !IsDigit(s[k]) {
      NoDigitStripped(s);
      NoDigitRejected(TrimNumber(s));
    }
  }

  /** `strip()` keeps characters of `s` only, so it brings in no digit. */
  lemma NoDigitStripped(s: string)
    requires forall k :: 0 <= k < |s| ==> !IsDigit(s[k])
    ensures forall k :: 0 <= k < |TrimNumber(s)| ==> !IsDigit(TrimNumber(s)[k])
  {
    var t := TrimNumber(s);
    var n := TrimNumberParts(s);
    assert forall k :: 0 <= k < |t| ==> t[k] == s[n + k];
  }

  lemma NoDigitRejected(t: string)
    requires forall k :: 0 <= k < |t| ==> !IsDigit(t[k])
    ensures ParseSigned(t) == None
  {
    if |t| > 1 {
      assert t[1..][0] == t[1];
    }
  }

  /**
   * Number whitespace around the number is ignored, and a negative value
   * comes only from a leading '-'.
   */
  lemma ParseIntSpaced(s: string)
    ensures IsDigits(TrimNumber(s)) ==> ParseInt(s) == Some(DecimalValue(TrimNumber(s)))
    ensures ParseInt(s).Some? && ParseInt(s).value < 0 ==> TrimNumber(s)[0] == '-'
  {
  }

  /**
   * A trailing U+001C is whitespace to `strip()` but not to `int()`: the
   * cell "12\x1c" strips to "12", yet `int()` rejects it.
   */
  lemma SeparatorNotNumberSpace()
    ensures Strip("12\U{1C}") == "12"
    ensures ParseInt("12\U{1C}") == None
  {
    SeparatorStripped();
    SeparatorKept();
  }

  lemma SeparatorStripped()
    ensures Strip("12\U{1C}") == "12"
  {
    var cell := "12\U{1C}";
    assert !IsSpace(cell[0]) && IsSpace(cell[2]);
    assert LeadingSpaces(cell) == 0;
    assert TrailingSpaces(cell) == 1 by {
      assert cell[..2] == "12" && !IsSpace('2');
    }
  }

  lemma SeparatorKept()
    ensures ParseInt("12\U{1C}") == None
  {
    var cell := "12\U{1C}";
    assert !IsNumberSpace(cell[0]) && !IsNumberSpace(cell[2]);
    assert TrimNumber(cell) == cell;
    assert !IsDigit(cell[2]);
  }

  /** Adjacent slices join: `s[i:j] + s[j:k] == s[i:k]`, whatever the length of `s`. */
  lemma SliceSplit(s: string, i: nat, j: nat, k: nat)
    requires i <= j <= k
    ensures Slice(s, i, k) == Slice(s, i, j) + Slice(s, j, k)
  {
    var whole, left, right := Slice(s, i, k), Slice(s, i, j), Slice(s, j, k);
    assert |whole| == |left| + |right|;
    forall n | 0 <= n < |whole|
      ensures whole[n] == (left + right)[n]
    {
      if n >= |left| {
        assert (left + right)[n] == right[n - |left|] == s[j + (n - |left|)];
      }
    }
  }

  /** A leading '0' digit does not change the decimal value. */
  lemma {:induction false} LeadingZeroValue(t: string)
    requires forall k :: 0 <= k < |t| ==> IsDigit(t[k])
    ensures DecimalValue(['0'] + t) == DecimalValue(t)
  {
    if t != [] {
      var u := ['0'] + t;
      assert u[..|u| - 1] == ['0'] + t[..|t| - 1];
      LeadingZeroValue(t[..|t| - 1]);
    }
  }

  /** Stripping the leading zeros of a digit string keeps its value. */
  lemma {:induction false} LStripZerosValue(d: string)
    requires forall k :: 0 <= k < |d| ==> IsDigit(d[k])
    ensures DecimalValue(LStrip(d, '0')) == DecimalValue(d)
  {
    if d != [] && d[0] == '0' {
      LStripZerosValue(d[1..]);
      assert d == ['0'] + d[1..];
      LeadingZeroValue(d[1..]);
    }
  }
}
