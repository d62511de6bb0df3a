/**
 * String helpers shared by the regular expressions and string methods of the
 * source: JavaScript's `\s` class, its line terminators (what `.` refuses),
 * prefix tests and `String.prototype.split` with a one-character separator.
 */
module Text {

  /** JavaScript's `\s`: the WhiteSpace and LineTerminator code points of ECMA-262. */
  predicate IsSpace(c: char) {
    || c == '\t' || c == '\n' || c == '\U{B}' || c == '\U{C}' || c == '\r' || c == ' '
    || c == '\U{A0}' || c == '\U{1680}' || ('\U{2000}' <= c <= '\U{200A}')
    || c == '\U{2028}' || c == '\U{2029}' || c == '\U{202F}' || c == '\U{205F}'
    || c == '\U{3000}' || c == '\U{FEFF}'
  }

  /** The characters that `.` does not match (without the `s` flag). */
  predicate IsLineTerminator(c: char) {
    c == '\n' || c == '\r' || c == '\U{2028}' || c == '\U{2029}'
  }

  lemma LineTerminatorIsSpace(c: char)
    requires IsLineTerminator(c)
    ensures IsSpace(c)
  {
  }

  predicate AllSpaces(s: string) {
    forall i :: 0 <= i < |s| ==> IsSpace(s[i])
  }

  predicate NoSpaces(s: string) {
    forall i :: 0 <= i < |s| ==> !IsSpace(s[i])
  }

  /** A text of decimal digits holds no whitespace. */
  lemma DigitsHaveNoSpaces(s: string)
    requires forall i :: 0 <= i < |s| ==> '0' <= s[i] <= '9'
    ensures NoSpaces(s)
  {
    forall i | 0 <= i < |s|
      ensures !IsSpace(s[i])
    {
      var c := s[i];
      assert '0' <= c <= '9';
    }
  }

  predicate NoLineTerminators(s: string) {
    forall i :: 0 <= i < |s| ==> !IsLineTerminator(s[i])
  }

  predicate StartsWith(s: string, prefix: string) {
    |prefix| <= |s| && s[..|prefix|] == prefix
  }

  /** Length of the longest prefix of `s` made of `\s` characters (what a greedy `\s*` consumes). */
  function SpaceRun(s: string): (n: nat)
    ensures n <= |s|
    ensures AllSpaces(s[..n])
    ensures n < |s| ==> !IsSpace(s[n])
  {
    if s == [] || !IsSpace(s[0]) then 0
    else
      var k := SpaceRun(s[1..]);
      assert s[..k + 1] == [s[0]] + s[1..][..k];
      k + 1
  }

  /** Length of the longest prefix of `s` made of non-`\s` characters (what a greedy `\S*` consumes). */
  function NonSpaceRun(s: string): (n: nat)
    ensures n <= |s|
    ensures NoSpaces(s[..n])
    ensures n < |s| ==> IsSpace(s[n])
  {
    if s == [] || IsSpace(s[0]) then 0
    else
      var k := NonSpaceRun(s[1..]);
      assert s[..k + 1] == [s[0]] + s[1..][..k];
      k + 1
  }

  /** A greedy run stops exactly where the first character of the other class begins. */
  lemma {:induction false} SpaceRunOfConcat(w: string, rest: string)
    requires AllSpaces(w)
    requires rest == [] || !IsSpace(rest[0])
    ensures SpaceRun(w + rest) == |w|
  {
    if w != [] {
      assert (w + rest)[1..] == w[1..] + rest;
      SpaceRunOfConcat(w[1..], rest);
    } else {
      assert w + rest == rest;
    }
  }

  lemma {:induction false} NonSpaceRunOfConcat(a: string, rest: string)
    requires NoSpaces(a)
    requires rest == [] || IsSpace(rest[0])
    ensures NonSpaceRun(a + rest) == |a|
  {
    if a != [] {
      assert (a + rest)[1..] == a[1..] + rest;
      NonSpaceRunOfConcat(a[1..], rest);
    } else {
      assert a + rest == rest;
    }
  }

  /** Regrouping concatenations. */
  lemma PrependToFour(p: string, q: string, r: string, t: string, u: string)
    ensures p + (q + r + t + u) == p + q + r + t + u
  {
  }

  /** A text is its prefix followed by the rest. */
  lemma SplitAt(s: string, n: nat)
    requires n <= |s|
    ensures s == s[..n] + s[n..]
  {
  }

  lemma Regroup(p: string, q: string, r: string, t: string)
    ensures p + (q + (r + t)) == p + q + r + t
  {
  }

  /** A text that starts with whitespace has a whitespace run; a non-whitespace run that stops early stops at whitespace. */
  lemma SpaceRunPositive(s: string)
    requires s != [] && IsSpace(s[0])
    ensures SpaceRun(s) >= 1
  {
  }

  lemma SpaceAfterNonSpaceRun(s: string)
    requires NonSpaceRun(s) < |s|
    ensures s[NonSpaceRun(s)..] != [] && IsSpace(s[NonSpaceRun(s)..][0])
  {
  }

  /** `s.split(sep)` for a one-character separator: the pieces between separators, empty ones included. */
  function Split(s: string, sep: char): (parts: seq<string>)
    ensures |parts| >= 1
  {
    if s == [] then [""]
    else
      var rest := Split(s[1..], sep);
      if s[0] == sep then [""] + rest else [[s[0]] + rest[0]] + rest[1..]
  }

  /** `split` yields a single piece exactly when the separator does not occur, and that piece is the whole string. */
  lemma {:induction false} SplitSingle(s: string, sep: char)
    ensures |Split(s, sep)| == 1 <==> sep !in s
    ensures sep !in s ==> Split(s, sep) == [s]
  {
    if s != [] {
      SplitSingle(s[1..], sep);
      assert s == [s[0]] + s[1..];
      if s[0] != sep {
        assert sep in s <==> sep in s[1..];
      }
    }
  }

  /** `value !== x` filter over a list of strings (`Array.prototype.filter`). */
  function Without(list: seq<string>, x: string): (r: seq<string>)
    ensures x !in r
    ensures forall y :: y in list && y != x ==> y in r
    ensures forall y :: y in r ==> y in list
    ensures |r| <= |list|
  {
    if list == [] then []
    else if list[0] == x then Without(list[1..], x)
    else [list[0]] + Without(list[1..], x)
  }

  /** The filter works element by element: filtering a concatenation filters each part and keeps them in order. */
  lemma {:induction false} WithoutConcat(a: seq<string>, b: seq<string>, x: string)
    ensures Without(a + b, x) == Without(a, x) + Without(b, x)
  {
    if a == [] {
      assert a + b == b;
    } else {
      assert (a + b)[0] == a[0];
      assert (a + b)[1..] == a[1..] + b;
      WithoutConcat(a[1..], b, x);
      if a[0] != x {
        assert [a[0]] + (Without(a[1..], x) + Without(b, x)) == [a[0]] + Without(a[1..], x) + Without(b, x);
      }
    }
  }

  /** Every other value keeps its number of occurrences, and `x` has none left. */
  lemma {:induction false} WithoutCounts(list: seq<string>, x: string)
    ensures multiset(Without(list, x))[x] == 0
    ensures forall y :: y != x ==> multiset(Without(list, x))[y] == multiset(list)[y]
  {
    if list != [] {
      WithoutCounts(list[1..], x);
      assert list == [list[0]] + list[1..];
      assert multiset(list) == multiset([list[0]]) + multiset(list[1..]);
      if list[0] != x {
        assert multiset(Without(list, x)) == multiset([list[0]]) + multiset(Without(list[1..], x));
      }
    }
  }

  /** Filtering out a value that does not occur leaves the list as it was. */
  lemma {:induction false} WithoutAbsent(list: seq<string>, x: string)
    requires x !in list
    ensures Without(list, x) == list
  {
    if list != [] {
      WithoutAbsent(list[1..], x);
    }
  }

  /** Filtering out the last element of a list that holds it once gives back the rest. */
  lemma WithoutAppended(list: seq<string>, x: string)
    requires x !in list
    ensures Without(list + [x], x) == list
  {
    WithoutLast(list, x);
    WithoutAbsent(list, x);
  }

  lemma {:induction false} WithoutLast(list: seq<string>, x: string)
    ensures Without(list + [x], x) == Without(list, x)
  {
    if list == [] {
      assert [x][1..] == [];
    } else {
      assert (list + [x])[1..] == list[1..] + [x];
      WithoutLast(list[1..], x);
    }
  }

  /** Decimal digits of a natural number, as `Number.prototype.toString()` prints them. */
  function Decimal(n: nat): (s: string)
    ensures |s| >= 1
    ensures forall i :: 0 <= i < |s| ==> '0' <= s[i] <= '9'
  {
    if n < 10 then [Digit(n)] else Decimal(n / 10) + [Digit(n % 10)]
  }

  function Digit(d: nat): (c: char)
    requires d < 10
    ensures '0' <= c <= '9'
  {
    ['0', '1', '2', '3', '4', '5', '6', '7', '8', '9'][d]
  }

  /** Reading digits back: the inverse of `Decimal`. */
  function ParseDecimal(s: string): nat
    requires forall i :: 0 <= i < |s| ==> '0' <= s[i] <= '9'
  {
    if s == [] then 0 else ParseDecimal(s[..|s| - 1]) * 10 + ((s[|s| - 1] as int) - ('0' as int))
  }

  lemma {:induction false} DecimalRoundTrip(n: nat)
    ensures ParseDecimal(Decimal(n)) == n
  {
    var s := Decimal(n);
    if n < 10 {
      assert s[..0] == [];
    } else {
      assert s[..|s| - 1] == Decimal(n / 10);
      DecimalRoundTrip(n / 10);
    }
  }
}
