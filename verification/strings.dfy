/** The handful of Python `str` operations the add-ons rely on, written out
    over `seq<char>`: `split()` on whitespace, `strip()`, `lower()`,
    `startswith`, `split(c)[0]`, `replace(p, "")`, `int()` and `float()` on
    plain decimal text, and the code-point ordering of `<` on strings.

    Only ASCII case folding and ASCII whitespace are modelled. */
module Strings {
  import opened Wrappers

  /** The characters Python's argument-less `split()` and `strip()` treat
      as whitespace, restricted to ASCII. */
  predicate IsSpace(c: char) {
    c == ' ' || c == '\t' || c == '\n' || c == '\r' || c == '\U{B}' || c == '\U{C}'
  }

  predicate NoSpace(s: string) {
    forall i :: 0 <= i < |s| ==> !IsSpace(s[i])
  }

  predicate IsDigit(c: char) {
    '0' <= c <= '9'
  }

  predicate AllDigits(s: string) {
    forall i :: 0 <= i < |s| ==> IsDigit(s[i])
  }

  // ---------------------------------------------------------------------
  // Prefixes and single-character splits
  // ---------------------------------------------------------------------

  predicate StartsWith(s: string, prefix: string) {
    |prefix| <= |s| && s[..|prefix|] == prefix
  }

  /** `s.split(c)[0]`: the text before the first `c`, or all of `s`. */
  function Before(s: string, c: char): (r: string)
    ensures c !in r
    ensures |r| <= |s| && r == s[..|r|]
    ensures |r| < |s| ==> s[|r|] == c
  {
    if |s| == 0 then ""
    else if s[0] == c then ""
    else [s[0]] + Before(s[1..], c)
  }

  /** `s.split(c, 1)[1]`: the text after the first `c`. */
  function After(s: string, c: char): (r: string)
    requires c in s
    ensures s == Before(s, c) + [c] + r
  {
    if s[0] == c then s[1..] else After(s[1..], c)
  }

  // ---------------------------------------------------------------------
  // lower() and replace(pattern, "")
  // ---------------------------------------------------------------------

  function LowerChar(c: char): char {
    if 'A' <= c <= 'Z' then (c as int + 32) as char else c
  }

  /** `s.lower()` for ASCII letters. */
  function Lower(s: string): (r: string)
    ensures |r| == |s|
    ensures forall i :: 0 <= i < |s| ==> r[i] == LowerChar(s[i])
  {
    if |s| == 0 then "" else [LowerChar(s[0])] + Lower(s[1..])
  }

  lemma LowerIdempotent(s: string)
    ensures Lower(Lower(s)) == Lower(s)
  {
  }

  /** `s.replace(pattern, "")`: every non-overlapping occurrence of
      `pattern`, found left to right, is deleted; the text left behind is
      not searched again. */
  function RemoveAll(s: string, pattern: string): (r: string)
    requires |pattern| > 0
    ensures |r| <= |s|
    decreases |s|
  {
    if |s| == 0 then ""
    else if StartsWith(s, pattern) then RemoveAll(s[|pattern|..], pattern)
    else [s[0]] + RemoveAll(s[1..], pattern)
  }

  predicate Occurs(pattern: string, s: string) {
    exists i :: 0 <= i <= |s| - |pattern| && StartsWith(s[i..], pattern)
  }

  /** A string in which the pattern never occurs comes back unchanged. */
  lemma {:induction false} RemoveAllAbsent(s: string, pattern: string)
    requires |pattern| > 0
    requires !Occurs(pattern, s)
    ensures RemoveAll(s, pattern) == s
    decreases |s|
  {
    if |s| > 0 {
      assert s[0..] == s;
      assert !StartsWith(s, pattern);
      forall i | 0 <= i <= |s[1..]| - |pattern|
        ensures !StartsWith(s[1..][i..], pattern)
      {
        assert s[1..][i..] == s[i + 1..];
      }
      RemoveAllAbsent(s[1..], pattern);
    }
  }

  /** Deleting a pattern from a word followed by the pattern deletes exactly
      that trailing copy when the word itself is free of it. */
  lemma {:induction false} RemoveAllSuffix(w: string, pattern: string)
    requires |pattern| > 0
    requires forall i :: 0 <= i < |w| ==> !StartsWith((w + pattern)[i..], pattern)
    ensures RemoveAll(w + pattern, pattern) == w
    decreases |w|
  {
    if |w| == 0 {
      assert w + pattern == pattern;
      assert pattern[|pattern|..] == "";
    } else {
      assert !StartsWith((w + pattern)[0..], pattern);
      assert (w + pattern)[0..] == w + pattern;
      assert (w + pattern)[1..] == w[1..] + pattern;
      forall i | 0 <= i < |w[1..]|
        ensures !StartsWith((w[1..] + pattern)[i..], pattern)
      {
        assert (w[1..] + pattern)[i..] == (w + pattern)[i + 1..];
      }
      RemoveAllSuffix(w[1..], pattern);
      assert [w[0]] + w[1..] == w;
    }
  }

  // ---------------------------------------------------------------------
  // strip() and split()
  // ---------------------------------------------------------------------

  /** `s.lstrip()`. */
  function TrimLeft(s: string): (r: string)
    ensures |r| <= |s|
    ensures |r| > 0 ==> !IsSpace(r[0])
  {
    if |s| > 0 && IsSpace(s[0]) then TrimLeft(s[1..]) else s
  }

  /** `s.rstrip()`. */
  function TrimRight(s: string): (r: string)
    ensures |r| <= |s|
    ensures |r| > 0 ==> !IsSpace(r[|r| - 1])
  {
    if |s| > 0 && IsSpace(s[|s| - 1]) then TrimRight(s[..|s| - 1]) else s
  }

  /** `lstrip` drops a prefix of whitespace only. */
  lemma {:induction false} TrimLeftSlice(s: string)
    ensures TrimLeft(s) == s[|s| - |TrimLeft(s)|..]
    ensures forall i :: 0 <= i < |s| - |TrimLeft(s)| ==> IsSpace(s[i])
    decreases |s|
  {
    if |s| > 0 && IsSpace(s[0]) {
      TrimLeftSlice(s[1..]);
      assert forall i :: 1 <= i < |s| - |TrimLeft(s)| ==> s[i] == s[1..][i - 1];
    }
  }

  /** `rstrip` drops a suffix of whitespace only. */
  lemma {:induction false} TrimRightSlice(s: string)
    ensures TrimRight(s) == s[..|TrimRight(s)|]
    ensures forall i :: |TrimRight(s)| <= i < |s| ==> IsSpace(s[i])
    decreases |s|
  {
    if |s| > 0 && IsSpace(s[|s| - 1]) {
      var p := s[..|s| - 1];
      TrimRightSlice(p);
      assert p[..|TrimRight(p)|] == s[..|TrimRight(p)|];
      assert forall i :: |TrimRight(s)| <= i < |p| ==> s[i] == p[i];
    }
  }

  /** `r` occurs in `s` starting at index `k`. */
  predicate SliceAt(s: string, r: string, k: int) {
    0 <= k <= |s| - |r| && r == s[k..k + |r|]
  }

  /** `s.strip()`. */
  function Strip(s: string): (r: string)
    ensures |r| <= |s|
    ensures |r| > 0 ==> !IsSpace(r[|r| - 1])
  {
    TrimRight(TrimLeft(s))
  }

  /** `strip()` keeps a contiguous piece of the text that neither starts
      nor ends with whitespace, dropping only whitespace around it. */
  lemma StripSlice(s: string)
    ensures SliceAt(s, Strip(s), |s| - |TrimLeft(s)|)
    ensures |Strip(s)| > 0 ==> !IsSpace(Strip(s)[0])
    ensures forall i :: 0 <= i < |s| - |TrimLeft(s)| ==> IsSpace(s[i])
    ensures forall i :: |s| - |TrimLeft(s)| + |Strip(s)| <= i < |s| ==> IsSpace(s[i])
  {
    var t := TrimLeft(s);
    var r := Strip(s);
    var k := |s| - |t|;
    TrimLeftSlice(s);
    TrimRightSlice(t);
    assert t == s[k..];
    assert r == t[..|r|];
    assert r == s[k..k + |r|];
    if |r| > 0 {
      assert r[0] == t[0];
    }
    forall i | k + |r| <= i < |s|
      ensures IsSpace(s[i])
    {
      assert s[i] == t[i - k];
    }
  }

  lemma StripNoSpace(s: string)
    requires NoSpace(s)
    ensures Strip(s) == s
  {
  }

  /** The leading run of non-space characters of `s`. */
  function Word(s: string): (r: string)
    ensures |r| <= |s|
  {
    if |s| == 0 || IsSpace(s[0]) then "" else [s[0]] + Word(s[1..])
  }

  /** The word is a prefix without whitespace, ended by whitespace or by
      the end of the text. */
  lemma {:induction false} WordFacts(s: string)
    ensures Word(s) == s[..|Word(s)|] && NoSpace(Word(s))
    ensures |Word(s)| < |s| ==> IsSpace(s[|Word(s)|])
    decreases |s|
  {
    if |s| > 0 && !IsSpace(s[0]) {
      WordFacts(s[1..]);
      var w := Word(s[1..]);
      assert Word(s) == [s[0]] + w;
      assert forall i :: 0 < i < |Word(s)| ==> Word(s)[i] == w[i - 1];
    }
  }

  /** `s.split()`: the maximal runs of non-space characters, in order. */
  function Fields(s: string): seq<string>
    decreases |s|
  {
    var t := TrimLeft(s);
    if |t| == 0 then []
    else
      var w := Word(t);
      WordNonEmpty(t);
      [w] + Fields(t[|w|..])
  }

  /** Every field is a non-empty run without whitespace. */
  lemma {:induction false} FieldsAreWords(s: string)
    ensures IsWordList(Fields(s))
    decreases |s|
  {
    var t := TrimLeft(s);
    if |t| > 0 {
      var w := Word(t);
      WordNonEmpty(t);
      WordFacts(t);
      FieldsAreWords(t[|w|..]);
      var r := Fields(s);
      assert r == [w] + Fields(t[|w|..]);
      assert forall i :: 0 < i < |r| ==> r[i] == Fields(t[|w|..])[i - 1];
    }
  }

  lemma WordNonEmpty(t: string)
    requires |t| > 0 && !IsSpace(t[0])
    ensures |Word(t)| > 0
  {
  }

  /** `" ".join(words)`. */
  function Unwords(words: seq<string>): string {
    if |words| == 0 then ""
    else if |words| == 1 then words[0]
    else words[0] + " " + Unwords(words[1..])
  }

  predicate IsWordList(words: seq<string>) {
    forall i :: 0 <= i < |words| ==> |words[i]| > 0 && NoSpace(words[i])
  }

  lemma {:induction false} WordOfJoin(w: string, rest: string)
    requires NoSpace(w)
    requires |rest| > 0 && IsSpace(rest[0])
    ensures Word(w + rest) == w
    decreases |w|
  {
    if |w| == 0 {
      assert w + rest == rest;
    } else {
      assert (w + rest)[1..] == w[1..] + rest;
      WordOfJoin(w[1..], rest);
      assert [w[0]] + w[1..] == w;
    }
  }

  lemma {:induction false} WordWhole(w: string)
    requires NoSpace(w)
    ensures Word(w) == w
    decreases |w|
  {
    if |w| > 0 {
      WordWhole(w[1..]);
      assert [w[0]] + w[1..] == w;
    }
  }

  /** One step of `split()`: a word followed by nothing or by whitespace. */
  lemma FieldsStep(w: string, tail: string)
    requires |w| > 0 && NoSpace(w)
    requires |tail| == 0 || IsSpace(tail[0])
    ensures Fields(w + tail) == [w] + Fields(tail)
  {
    var s := w + tail;
    assert s[0] == w[0];
    assert TrimLeft(s) == s;
    if |tail| == 0 {
      assert s == w;
      WordWhole(w);
    } else {
      WordOfJoin(w, tail);
    }
    assert s[|w|..] == tail;
  }

  lemma FieldsLeadingSpace(u: string)
    ensures Fields(" " + u) == Fields(u)
  {
    assert (" " + u)[1..] == u;
    assert TrimLeft(" " + u) == TrimLeft(u);
  }

  /** Splitting a space-joined list of words gives the words back. */
  lemma {:induction false} FieldsOfUnwords(words: seq<string>)
    requires IsWordList(words)
    ensures Fields(Unwords(words)) == words
    decreases |words|
  {
    if |words| == 1 {
      FieldsStep(words[0], "");
      assert words[0] + "" == words[0];
    } else if |words| > 1 {
      var w := words[0];
      var u := Unwords(words[1..]);
      assert IsWordList(words[1..]);
      assert Unwords(words) == w + (" " + u);
      FieldsStep(w, " " + u);
      FieldsLeadingSpace(u);
      FieldsOfUnwords(words[1..]);
      assert words == [w] + words[1..];
    }
  }

  // ---------------------------------------------------------------------
  // int() and float() on decimal text
  // ---------------------------------------------------------------------

  function DigitValue(c: char): nat
    requires IsDigit(c)
  {
    c as int - '0' as int
  }

  /** The value of a run of decimal digits, most significant first. */
  function DigitsValue(s: string): nat
    requires AllDigits(s)
  {
    if |s| == 0 then 0 else DigitsValue(s[..|s| - 1]) * 10 + DigitValue(s[|s| - 1])
  }

  function Pow10(n: nat): (r: nat)
    ensures r >= 1
  {
    if n == 0 then 1 else 10 * Pow10(n - 1)
  }

  /** A leading `+` or `-` and the text after it. */
  function SplitSign(s: string): (bool, string) {
    if |s| > 0 && (s[0] == '-' || s[0] == '+') then (s[0] == '-', s[1..]) else (false, s)
  }

  /** Python's `int(text)` on plain decimal text: surrounding whitespace,
      an optional sign and at least one digit; anything else raises. */
  function ParseInt(text: string): (r: Option<int>)
    ensures r.Some? ==> |Strip(text)| > 0
  {
    var (negative, digits) := SplitSign(Strip(text));
    if |digits| == 0 || !AllDigits(digits) then None
    else
      var v: int := DigitsValue(digits);
      Some(if negative then -v else v)
  }

  /** Python's `float(text)` on decimal text with an optional fraction:
      `"45000"`, `"1.5"`, `"2."`, `".5"`, with sign and surrounding
      whitespace; anything else raises. */
  function ParseFloat(text: string): (r: Option<real>)
    ensures r.Some? ==> |Strip(text)| > 0
  {
    var (negative, body) := SplitSign(Strip(text));
    var whole := Before(body, '.');
    var frac := if '.' in body then After(body, '.') else "";
    if |whole| + |frac| == 0 || !AllDigits(whole) || !AllDigits(frac) then None
    else
      var v := DigitsValue(whole) as real + DigitsValue(frac) as real / Pow10(|frac|) as real;
      Some(if negative then -v else v)
  }

  /** `str(n)` for a natural number. */
  function ShowNat(n: nat): (r: string)
    ensures |r| > 0 && AllDigits(r)
  {
    if n < 10 then [('0' as int + n) as char]
    else ShowNat(n / 10) + [('0' as int + n % 10) as char]
  }

  lemma {:induction false} DigitsOfShowNat(n: nat)
    ensures DigitsValue(ShowNat(n)) == n
  {
    var s := ShowNat(n);
    if n >= 10 {
      DigitsOfShowNat(n / 10);
      assert s[..|s| - 1] == ShowNat(n / 10);
    }
  }

  lemma ShowNatNoSpace(n: nat)
    ensures NoSpace(ShowNat(n)) && '.' !in ShowNat(n)
  {
    var s := ShowNat(n);
    forall i | 0 <= i < |s| ensures !IsSpace(s[i]) && s[i] != '.' {
      assert IsDigit(s[i]);
    }
  }

  /** `int(str(n)) == n`. */
  lemma ParseIntShowNat(n: nat)
    ensures ParseInt(ShowNat(n)) == Some(n)
  {
    var s := ShowNat(n);
    ShowNatNoSpace(n);
    StripNoSpace(s);
    assert Strip(s) == s;
    DigitsOfShowNat(n);
    assert IsDigit(s[0]);
    assert SplitSign(s) == (false, s);
  }

  /** `float(str(n)) == n`. */
  lemma ParseFloatShowNat(n: nat)
    ensures ParseFloat(ShowNat(n)) == Some(n as real)
  {
    var s := ShowNat(n);
    ShowNatNoSpace(n);
    StripNoSpace(s);
    DigitsOfShowNat(n);
    assert IsDigit(s[0]);
    assert SplitSign(s) == (false, s);
    var whole := Before(s, '.');
    assert |whole| == |s|;
    assert whole == s;
    var v := DigitsValue(s) as real + DigitsValue("") as real / Pow10(0) as real;
    assert v == n as real;
  }

  // ---------------------------------------------------------------------
  // String ordering
  // ---------------------------------------------------------------------

  /** Python's `a < b` on strings: code-point lexicographic order, a proper
      prefix ordered first. */
  predicate LexLess(a: string, b: string) {
    if |a| == 0 then |b| > 0
    else if |b| == 0 then false
    else if a[0] != b[0] then a[0] < b[0]
    else LexLess(a[1..], b[1..])
  }

  lemma {:induction false} LexLessIrreflexive(a: string)
    ensures !LexLess(a, a)
  {
    if |a| > 0 {
      LexLessIrreflexive(a[1..]);
    }
  }

  lemma {:induction false} LexLessTransitive(a: string, b: string, c: string)
    requires LexLess(a, b) && LexLess(b, c)
    ensures LexLess(a, c)
  {
    if |a| > 0 && |b| > 0 && |c| > 0 && a[0] == b[0] && b[0] == c[0] {
      LexLessTransitive(a[1..], b[1..], c[1..]);
    }
  }

  lemma {:induction false} LexLessTotal(a: string, b: string)
    ensures a == b || LexLess(a, b) || LexLess(b, a)
  {
    if |a| > 0 && |b| > 0 && a[0] == b[0] {
      LexLessTotal(a[1..], b[1..]);
      if a[1..] == b[1..] {
        assert a == [a[0]] + a[1..] && b == [b[0]] + b[1..];
      }
    }
  }
}
