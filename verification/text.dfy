/** Python string operations the core relies on, over `string` (= `seq<char>`):
    `str.startswith`, `str.replace`, `str.join`, `str(n)` for a natural number,
    and the ASCII part of `str.lower` and `str.title`. */
module Text {

  /** Python's `s.startswith(p)`. */
  predicate StartsWith(s: string, p: string)
  {
    |p| <= |s| && s[..|p|] == p
  }

  /** Python's `s.endswith(p)`. */
  predicate EndsWith(s: string, p: string)
  {
    |p| <= |s| && s[|s| - |p|..] == p
  }

  /** A string does not end with two suffixes whose last characters differ. */
  lemma EndsDifferently(s: string, a: string, b: string)
    requires EndsWith(s, a) && |a| > 0 && |b| > 0 && a[|a| - 1] != b[|b| - 1]
    ensures !EndsWith(s, b)
  {
    assert s[|s| - 1] == a[|a| - 1];
  }

  /** `pat in s`, written as the left-to-right search `str.replace` performs. */
  predicate Contains(s: string, pat: string)
    decreases |s|
  {
    if StartsWith(s, pat) then true
    else if |s| == 0 then false
    else Contains(s[1..], pat)
  }

  /** Python's `s.replace(pat, rep)`: every leftmost, non-overlapping occurrence
      of `pat` is replaced, and the inserted text is never searched again.
      An empty `pat` inserts `rep` before every character and at the end. */
  function ReplaceAll(s: string, pat: string, rep: string): (r: string)
    ensures |pat| > 0 && !Contains(s, pat) ==> r == s
    ensures forall c :: c in r ==> c in s || c in rep
    decreases |s|
  {
    if |pat| == 0 then
      if |s| == 0 then rep else rep + [s[0]] + ReplaceAll(s[1..], pat, rep)
    else if StartsWith(s, pat) then rep + ReplaceAll(s[|pat|..], pat, rep)
    else if |s| == 0 then []
    else [s[0]] + ReplaceAll(s[1..], pat, rep)
  }

  /** Replacing a pattern by text no longer than it never lengthens. */
  lemma {:induction false} ReplaceAllNoLonger(s: string, pat: string, rep: string)
    requires 0 < |pat| && |rep| <= |pat|
    ensures |ReplaceAll(s, pat, rep)| <= |s|
    decreases |s|
  {
    if StartsWith(s, pat) {
      ReplaceAllNoLonger(s[|pat|..], pat, rep);
    } else if |s| > 0 {
      ReplaceAllNoLonger(s[1..], pat, rep);
    }
  }

  /** Replacing a pattern by itself changes nothing. */
  lemma {:induction false} ReplaceAllByItself(s: string, pat: string)
    requires |pat| > 0
    ensures ReplaceAll(s, pat, pat) == s
    decreases |s|
  {
    if StartsWith(s, pat) {
      ReplaceAllByItself(s[|pat|..], pat);
      assert s == s[..|pat|] + s[|pat|..];
    } else if |s| > 0 {
      ReplaceAllByItself(s[1..], pat);
      assert s == [s[0]] + s[1..];
    }
  }

  /** `str.replace` distributes over a concatenation when no occurrence of the
      pattern can straddle the seam: one of the two characters at the seam does
      not occur in the pattern at all. */
  lemma {:induction false} ReplaceAllAppend(a: string, b: string, pat: string, rep: string)
    requires |pat| > 0
    requires |a| == 0 || |b| == 0 || a[|a| - 1] !in pat || b[0] !in pat
    ensures ReplaceAll(a + b, pat, rep) == ReplaceAll(a, pat, rep) + ReplaceAll(b, pat, rep)
    decreases |a|
  {
    if |a| == 0 {
      assert a + b == b;
    } else if StartsWith(a + b, pat) {
      if |a| < |pat| {
        SeamInside(a, b, pat);
        assert false;
      }
      var a' := a[|pat|..];
      MatchFront(a, b, pat, rep);
      assert |a'| == 0 || a'[|a'| - 1] == a[|a| - 1];
      ReplaceAllAppend(a', b, pat, rep);
      AppendAssociative(rep, ReplaceAll(a', pat, rep), ReplaceAll(b, pat, rep));
    } else {
      var a' := a[1..];
      SkipFront(a, b, pat, rep);
      assert |a'| == 0 || a'[|a'| - 1] == a[|a| - 1];
      ReplaceAllAppend(a', b, pat, rep);
      AppendAssociative([a[0]], ReplaceAll(a', pat, rep), ReplaceAll(b, pat, rep));
    }
  }

  /** An occurrence at the front of `a + b` that lies within `a` is replaced
      in both, and the search goes on after it. */
  lemma MatchFront(a: string, b: string, pat: string, rep: string)
    requires 0 < |pat| <= |a| && StartsWith(a + b, pat)
    ensures ReplaceAll(a + b, pat, rep) == rep + ReplaceAll(a[|pat|..] + b, pat, rep)
    ensures ReplaceAll(a, pat, rep) == rep + ReplaceAll(a[|pat|..], pat, rep)
  {
    assert (a + b)[..|pat|] == a[..|pat|];
    assert (a + b)[|pat|..] == a[|pat|..] + b;
  }

  /** Without an occurrence at the front of `a + b`, the first character of
      `a` is kept in both, and the search goes on after it. */
  lemma SkipFront(a: string, b: string, pat: string, rep: string)
    requires |pat| > 0 && |a| > 0 && !StartsWith(a + b, pat)
    ensures ReplaceAll(a + b, pat, rep) == [a[0]] + ReplaceAll(a[1..] + b, pat, rep)
    ensures ReplaceAll(a, pat, rep) == [a[0]] + ReplaceAll(a[1..], pat, rep)
  {
    if |pat| <= |a| {
      assert (a + b)[..|pat|] == a[..|pat|];
    }
    assert (a + b)[1..] == a[1..] + b;
  }

  /** An occurrence at the front of `a + b` that is longer than `a` covers
      both characters at the seam. */
  lemma SeamInside(a: string, b: string, pat: string)
    requires 0 < |a| < |pat| && StartsWith(a + b, pat)
    ensures a[|a| - 1] in pat && b[0] in pat
  {
    assert (a + b)[|a| - 1] == pat[|a| - 1];
    assert (a + b)[|a|] == pat[|a|];
  }

  /** Concatenation regrouped: used wherever a proof builds a string or list
      piece by piece. */
  lemma AppendAssociative<T>(a: seq<T>, b: seq<T>, c: seq<T>)
    ensures a + b + c == a + (b + c)
  {
  }

  /** A non-empty sequence is its first element followed by the rest. */
  lemma HeadTail<T>(s: seq<T>)
    requires |s| > 0
    ensures s == [s[0]] + s[1..]
  {
  }

  /** Python's `sep.join(xs)`. */
  function Join(sep: string, xs: seq<string>): string
    decreases |xs|
  {
    if |xs| == 0 then []
    else if |xs| == 1 then xs[0]
    else xs[0] + sep + Join(sep, xs[1..])
  }

  /** The concatenation of a sequence of strings (`"".join(xs)`). */
  function Flatten(xs: seq<string>): string
    decreases |xs|
  {
    if |xs| == 0 then [] else xs[0] + Flatten(xs[1..])
  }

  lemma FlattenAppend(xs: seq<string>, ys: seq<string>)
    ensures Flatten(xs + ys) == Flatten(xs) + Flatten(ys)
    decreases |xs|
  {
    if |xs| == 0 {
      assert xs + ys == ys;
    } else {
      assert (xs + ys)[1..] == xs[1..] + ys;
      FlattenAppend(xs[1..], ys);
    }
  }

  // ---------------------------------------------------------------------------
  // Decimal numerals: Python's str(i) for a list position i

  predicate IsDigit(c: char)
  {
    '0' <= c <= '9'
  }

  predicate AllDigits(s: string)
  {
    forall k :: 0 <= k < |s| ==> IsDigit(s[k])
  }

  function DigitChar(d: nat): (c: char)
    requires d < 10
    ensures IsDigit(c)
  {
    ('0' as int + d) as char
  }

  function DigitValue(c: char): nat
    requires IsDigit(c)
  {
    c as int - '0' as int
  }

  /** The value a string of decimal digits denotes (`int(s)`). */
  function DecimalValue(s: string): nat
    requires AllDigits(s)
    decreases |s|
  {
    if |s| == 0 then 0 else DecimalValue(s[..|s| - 1]) * 10 + DigitValue(s[|s| - 1])
  }

  /** Python's `str(n)` for a natural number: a non-empty string of digits
      that reads back as `n`. */
  function DecimalString(n: nat): (r: string)
    ensures |r| > 0 && AllDigits(r)
    ensures DecimalValue(r) == n
    decreases n
  {
    if n < 10 then [DigitChar(n)]
    else
      var r := DecimalString(n / 10) + [DigitChar(n % 10)];
      assert r[..|r| - 1] == DecimalString(n / 10);
      r
  }

  /** Distinct positions get distinct numerals. */
  lemma DecimalStringInjective(a: nat, b: nat)
    requires DecimalString(a) == DecimalString(b)
    ensures a == b
  {
    assert DecimalValue(DecimalString(a)) == a;
  }

  // ---------------------------------------------------------------------------
  // ASCII case mapping: the part of Python's str.lower / str.title modelled

  predicate IsUpper(c: char)
  {
    'A' <= c <= 'Z'
  }

  predicate IsLower(c: char)
  {
    'a' <= c <= 'z'
  }

  predicate IsLetter(c: char)
  {
    IsUpper(c) || IsLower(c)
  }

  function LowerChar(c: char): (d: char)
    ensures !IsUpper(d)
    ensures IsLetter(c) <==> IsLetter(d)
  {
    if IsUpper(c) then (c as int + 32) as char else c
  }

  function UpperChar(c: char): (d: char)
    ensures !IsLower(d)
    ensures IsLetter(c) <==> IsLetter(d)
  {
    if IsLower(c) then (c as int - 32) as char else c
  }

  /** Python's `s.lower()` on ASCII letters; every other character is kept. */
  function Lower(s: string): (r: string)
    ensures |r| == |s|
    ensures forall k :: 0 <= k < |s| ==> !IsUpper(r[k])
    ensures forall k :: 0 <= k < |s| && !IsUpper(s[k]) ==> r[k] == s[k]
    ensures forall k :: 0 <= k < |s| && IsUpper(s[k]) ==> IsLower(r[k]) && UpperChar(r[k]) == s[k]
  {
    seq(|s|, k requires 0 <= k < |s| => LowerChar(s[k]))
  }

  /** Lower-casing twice is lower-casing once. */
  lemma LowerIdempotent(s: string)
    ensures Lower(Lower(s)) == Lower(s)
  {
  }

  /** The scan behind `str.title()`: `afterLetter` says whether the character
      before `s` was a cased (here: ASCII letter) character. */
  function TitleFrom(s: string, afterLetter: bool): (r: string)
    ensures |r| == |s|
    ensures forall k :: 0 <= k < |s| && !IsLetter(s[k]) ==> r[k] == s[k]
    ensures forall k :: 0 <= k < |s| && IsLetter(s[k]) && (if k == 0 then afterLetter else IsLetter(s[k - 1])) ==> r[k] == LowerChar(s[k])
    ensures forall k :: 0 <= k < |s| && IsLetter(s[k]) && !(if k == 0 then afterLetter else IsLetter(s[k - 1])) ==> r[k] == UpperChar(s[k])
    decreases |s|
  {
    if |s| == 0 then []
    else
      var c := s[0];
      var d := if !IsLetter(c) then c else if afterLetter then LowerChar(c) else UpperChar(c);
      [d] + TitleFrom(s[1..], IsLetter(c))
  }

  /** Python's `s.title()` on ASCII: a letter that starts a run of letters is
      upper-cased, every other letter lower-cased, non-letters kept. */
  function Title(s: string): (r: string)
    ensures |r| == |s|
    ensures forall k :: 0 <= k < |s| && !IsLetter(s[k]) ==> r[k] == s[k]
    ensures forall k :: 0 <= k < |s| && IsLetter(s[k]) && k > 0 && IsLetter(s[k - 1]) ==> r[k] == LowerChar(s[k])
    ensures forall k :: 0 <= k < |s| && IsLetter(s[k]) && (k == 0 || !IsLetter(s[k - 1])) ==> r[k] == UpperChar(s[k])
  {
    TitleFrom(s, false)
  }
}
