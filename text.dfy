/**
 * The pieces of Rust's string library the modelled code relies on: `trim`,
 * `trim_start_matches` / `trim_end_matches` with a single character,
 * `starts_with`, `replace(pat, "")`, decimal formatting of an unsigned integer,
 * and the ordering `String` sorts by.
 */
module Text {

  // ---------------------------------------------------------------------------
  // Whitespace and `str::trim`
  // ---------------------------------------------------------------------------

  /** `char::is_whitespace`: the characters with the Unicode White_Space property. */
  predicate IsWhitespace(c: char)
  {
    || ('\U{9}' <= c <= '\U{D}')
    || c == '\U{20}'
    || c == '\U{85}'
    || c == '\U{A0}'
    || c == '\U{1680}'
    || ('\U{2000}' <= c <= '\U{200A}')
    || c == '\U{2028}'
    || c == '\U{2029}'
    || c == '\U{202F}'
    || c == '\U{205F}'
    || c == '\U{3000}'
  }

  predicate AllWhitespace(s: string)
  {
    forall i :: 0 <= i < |s| ==> IsWhitespace(s[i])
  }

  /** `str::trim_start`: the suffix left after dropping leading whitespace. */
  function TrimStart(s: string): (r: string)
    ensures |r| <= |s| && r == s[|s| - |r|..]
    ensures r != [] ==> !IsWhitespace(r[0])
    ensures AllWhitespace(s[..|s| - |r|])
  {
    if s != [] && IsWhitespace(s[0]) then
      var r := TrimStart(s[1..]);
      WhitespaceCons(s[0], s[1..][..|s[1..]| - |r|]);
      assert s[..|s| - |r|] == [s[0]] + s[1..][..|s[1..]| - |r|];
      r
    else s
  }

  /** `str::trim_end`: the prefix left after dropping trailing whitespace. */
  function TrimEnd(s: string): (r: string)
    ensures |r| <= |s| && r == s[..|r|]
    ensures r != [] ==> !IsWhitespace(r[|r| - 1])
    ensures AllWhitespace(s[|r|..])
  {
    if s != [] && IsWhitespace(s[|s| - 1]) then
      var t := s[..|s| - 1];
      var r := TrimEnd(t);
      WhitespaceSnoc(t[|r|..], s[|s| - 1]);
      assert s[|r|..] == t[|r|..] + [s[|s| - 1]];
      assert s[..|r|] == t[..|r|];
      r
    else s
  }

  lemma WhitespaceCons(c: char, s: string)
    requires IsWhitespace(c) && AllWhitespace(s)
    ensures AllWhitespace([c] + s)
  {
  }

  lemma WhitespaceSnoc(s: string, c: char)
    requires AllWhitespace(s) && IsWhitespace(c)
    ensures AllWhitespace(s + [c])
  {
  }

  /** `str::trim`: a slice of the text with neither leading nor trailing whitespace. */
  function Trim(s: string): (r: string)
    ensures |r| <= |s|
    ensures r != [] ==> !IsWhitespace(r[0]) && !IsWhitespace(r[|r| - 1])
  {
    TrimEnd(TrimStart(s))
  }

  /** A trimmed line is empty exactly when the line was whitespace only. */
  lemma TrimEmptyIffWhitespace(s: string)
    ensures Trim(s) == [] <==> AllWhitespace(s)
  {
    var t := TrimStart(s);
    if Trim(s) == [] {
      assert AllWhitespace(t[0..]);
      assert s == s[..|s| - |t|] + t;
    } else {
      var u := Trim(s);
      assert u == t[..|u|];
      assert !IsWhitespace(s[|s| - |t|]);
    }
  }

  /** The trimmed text sits inside the original line, with only whitespace around it. */
  lemma TrimIsInfix(s: string)
    ensures exists i, j :: 0 <= i <= j <= |s| && Trim(s) == s[i..j]
              && AllWhitespace(s[..i]) && AllWhitespace(s[j..])
  {
    var t := TrimStart(s);
    var r := TrimEnd(t);
    var i := |s| - |t|;
    var j := i + |r|;
    assert r == t[..|r|] && t == s[i..];
    assert AllWhitespace(s[..i]);
    assert t[|r|..] == s[j..];
    assert AllWhitespace(s[j..]);
    assert r == s[i..j];
    assert Trim(s) == r;
  }

  // ---------------------------------------------------------------------------
  // `trim_start_matches(c)` / `trim_end_matches(c)` / `starts_with`
  // ---------------------------------------------------------------------------

  /** `str::trim_start_matches(c)`: drop every leading `c`. */
  function TrimStartMatches(s: string, c: char): (r: string)
    ensures |r| <= |s| && r == s[|s| - |r|..]
    ensures r != [] ==> r[0] != c
    ensures forall i :: 0 <= i < |s| - |r| ==> s[i] == c
  {
    if s != [] && s[0] == c then TrimStartMatches(s[1..], c) else s
  }

  /** `str::trim_end_matches(c)`: drop every trailing `c`. */
  function TrimEndMatches(s: string, c: char): (r: string)
    ensures |r| <= |s| && r == s[..|r|]
    ensures r != [] ==> r[|r| - 1] != c
    ensures forall i :: |r| <= i < |s| ==> s[i] == c
  {
    if s != [] && s[|s| - 1] == c then TrimEndMatches(s[..|s| - 1], c) else s
  }

  /** `n` copies of the character `c`. */
  function Repeat(c: char, n: nat): (r: string)
    ensures |r| == n && forall i :: 0 <= i < n ==> r[i] == c
  {
    if n == 0 then [] else [c] + Repeat(c, n - 1)
  }

  /** Leading `c`s, however many, are all removed. */
  lemma {:induction false} TrimStartMatchesPadded(s: string, c: char, n: nat)
    ensures TrimStartMatches(Repeat(c, n) + s, c) == TrimStartMatches(s, c)
  {
    if n > 0 {
      RepeatCons(c, n, s);
      TrimStartMatchesStep(Repeat(c, n) + s, c);
      TrimStartMatchesPadded(s, c, n - 1);
    } else {
      assert Repeat(c, n) + s == s;
    }
  }

  lemma RepeatCons(c: char, n: nat, s: string)
    requires n > 0
    ensures |Repeat(c, n) + s| > 0 && (Repeat(c, n) + s)[0] == c
    ensures (Repeat(c, n) + s)[1..] == Repeat(c, n - 1) + s
  {
    assert Repeat(c, n) == [c] + Repeat(c, n - 1);
  }

  lemma TrimStartMatchesStep(t: string, c: char)
    requires |t| > 0 && t[0] == c
    ensures TrimStartMatches(t, c) == TrimStartMatches(t[1..], c)
  {
  }

  /** Trailing `c`s, however many, are all removed. */
  lemma {:induction false} TrimEndMatchesPadded(s: string, c: char, n: nat)
    ensures TrimEndMatches(s + Repeat(c, n), c) == TrimEndMatches(s, c)
  {
    if n > 0 {
      assert Repeat(c, n) == Repeat(c, n - 1) + [c] by {
        assert forall i :: 0 <= i < n ==> Repeat(c, n)[i] == (Repeat(c, n - 1) + [c])[i];
      }
      assert (s + Repeat(c, n))[|s + Repeat(c, n)| - 1] == c;
      assert (s + Repeat(c, n))[..|s + Repeat(c, n)| - 1] == s + Repeat(c, n - 1);
      TrimEndMatchesPadded(s, c, n - 1);
    } else {
      assert s + Repeat(c, n) == s;
    }
  }

  predicate StartsWith(s: string, prefix: string)
  {
    |prefix| <= |s| && s[..|prefix|] == prefix
  }

  predicate EndsWith(s: string, suffix: string)
  {
    |suffix| <= |s| && s[|s| - |suffix|..] == suffix
  }

  lemma EndsWithAppend(s: string, suffix: string)
    ensures EndsWith(s + suffix, suffix)
  {
    assert (s + suffix)[|s|..] == suffix;
  }

  // ---------------------------------------------------------------------------
  // `str::replace(pat, "")`
  // ---------------------------------------------------------------------------

  /**
   * `s.replace(pat, "")`: every non-overlapping occurrence of `pat`, scanning
   * from the left, is removed; the text is not rescanned after a removal.
   */
  function RemoveAll(s: string, pat: string): (r: string)
    requires pat != []
    ensures |r| <= |s|
    decreases |s|
  {
    if |s| < |pat| then s
    else if s[..|pat|] == pat then RemoveAll(s[|pat|..], pat)
    else [s[0]] + RemoveAll(s[1..], pat)
  }

  predicate Contains(s: string, pat: string)
  {
    exists i :: 0 <= i <= |s| && StartsWith(s[i..], pat)
  }

  /** Text without an occurrence of the pattern is left as it is. */
  lemma {:induction false} RemoveAllAbsent(s: string, pat: string)
    requires pat != [] && !Contains(s, pat)
    ensures RemoveAll(s, pat) == s
    decreases |s|
  {
    if |s| >= |pat| {
      assert s[0..] == s;
      assert !Contains(s[1..], pat) by {
        forall i | 0 <= i <= |s[1..]|
          ensures !StartsWith(s[1..][i..], pat)
        {
          assert s[1..][i..] == s[i + 1..];
        }
      }
      RemoveAllAbsent(s[1..], pat);
    }
  }

  /** A leading occurrence is removed and the rest is scanned on. */
  lemma RemoveAllPrefix(pat: string, rest: string)
    requires pat != []
    ensures RemoveAll(pat + rest, pat) == RemoveAll(rest, pat)
  {
    assert (pat + rest)[..|pat|] == pat;
    assert (pat + rest)[|pat|..] == rest;
  }

  // ---------------------------------------------------------------------------
  // Decimal formatting of an unsigned integer (`format!("{}", n)`)
  // ---------------------------------------------------------------------------

  function DigitChar(d: nat): (c: char)
    requires d < 10
    ensures '0' <= c <= '9'
  {
    ['0', '1', '2', '3', '4', '5', '6', '7', '8', '9'][d]
  }

  function DigitValue(c: char): nat
  {
    if '0' <= c <= '9' then (c as int - '0' as int) as nat else 0
  }

  /** The number that a string of decimal digits denotes. */
  function DecimalValue(s: string): nat
  {
    if s == [] then 0 else DecimalValue(s[..|s| - 1]) * 10 + DigitValue(s[|s| - 1])
  }

  function NatToString(n: nat): (r: string)
    ensures r != []
    ensures forall i :: 0 <= i < |r| ==> '0' <= r[i] <= '9'
    ensures |r| > 1 ==> r[0] != '0'
  {
    if n < 10 then [DigitChar(n)] else NatToString(n / 10) + [DigitChar(n % 10)]
  }

  /** The decimal text of `n` reads back as `n`. */
  lemma {:induction false} NatToStringValue(n: nat)
    ensures DecimalValue(NatToString(n)) == n
  {
    var r := NatToString(n);
    if n < 10 {
      assert r[..0] == [];
      assert DigitValue(DigitChar(n)) == n;
    } else {
      NatToStringValue(n / 10);
      assert r[..|r| - 1] == NatToString(n / 10);
      assert DigitValue(DigitChar(n % 10)) == n % 10;
    }
  }

  // ---------------------------------------------------------------------------
  // The order `String` sorts by
  // ---------------------------------------------------------------------------

  /**
   * Lexicographic order on characters. Rust compares strings by their UTF-8
   * bytes, which orders them exactly as comparing code points does.
   */
  predicate Less(a: string, b: string)
  {
    if a == [] then b != []
    else if b == [] then false
    else if a[0] != b[0] then a[0] < b[0]
    else Less(a[1..], b[1..])
  }

  lemma {:induction false} LessIrreflexive(a: string)
    ensures !Less(a, a)
  {
    if a != [] {
      LessIrreflexive(a[1..]);
    }
  }

  lemma {:induction false} LessTotal(a: string, b: string)
    requires a != b
    ensures Less(a, b) || Less(b, a)
  {
    if a != [] && b != [] && a[0] == b[0] {
      assert a == [a[0]] + a[1..] && b == [b[0]] + b[1..];
      LessTotal(a[1..], b[1..]);
    }
  }

  lemma {:induction false} LessAsymmetric(a: string, b: string)
    requires Less(a, b)
    ensures !Less(b, a)
  {
    if a != [] && b != [] && a[0] == b[0] {
      LessAsymmetric(a[1..], b[1..]);
    }
  }

  lemma {:induction false} LessTransitive(a: string, b: string, c: string)
    requires Less(a, b) && Less(b, c)
    ensures Less(a, c)
  {
    if a != [] && a[0] == b[0] && b[0] == c[0] {
      LessTransitive(a[1..], b[1..], c[1..]);
    }
  }

  predicate StrictlySorted(s: seq<string>)
  {
    forall i, j :: 0 <= i < j < |s| ==> Less(s[i], s[j])
  }

  /** Insert a new element at its place in a strictly sorted sequence. */
  function InsertSorted(s: seq<string>, x: string): (r: seq<string>)
    requires StrictlySorted(s) && x !in s
    ensures StrictlySorted(r) && |r| == |s| + 1
    ensures forall y :: y in r <==> y in s || y == x
  {
    if s == [] then [x]
    else if Less(x, s[0]) then
      assert forall j :: 0 < j < |s| ==> Less(x, s[j]) by {
        forall j | 0 < j < |s| ensures Less(x, s[j]) { LessTransitive(x, s[0], s[j]); }
      }
      [x] + s
    else
      var tail := s[1..];
      assert StrictlySorted(tail);
      var rest := InsertSorted(tail, x);
      assert Less(s[0], x) by { LessTotal(x, s[0]); }
      assert forall y :: y in rest ==> Less(s[0], y) by {
        forall y | y in rest ensures Less(s[0], y) {
          if y != x {
            var j :| 0 <= j < |tail| && tail[j] == y;
            assert s[j + 1] == y;
          }
        }
      }
      [s[0]] + rest
  }

  /**
   * Two strictly sorted sequences with the same elements are equal: a sorted
   * listing of a set does not depend on the order the set was enumerated in.
   */
  lemma {:induction false} SortedUnique(s: seq<string>, t: seq<string>)
    requires StrictlySorted(s) && StrictlySorted(t)
    requires forall x :: x in s <==> x in t
    ensures s == t
  {
    assert s != [] ==> s[0] in t;
    assert t != [] ==> t[0] in s;
    if s != [] && t != [] {
      if s[0] != t[0] {
        assert s[0] in t && t[0] in s;
        var i :| 0 <= i < |t| && t[i] == s[0];
        var j :| 0 <= j < |s| && s[j] == t[0];
        assert i > 0 && j > 0;
        assert Less(t[0], s[0]) && Less(s[0], t[0]);
        LessAsymmetric(t[0], s[0]);
      }
      assert StrictlySorted(s[1..]) && StrictlySorted(t[1..]);
      forall x ensures x in s[1..] <==> x in t[1..] {
        if x in s[1..] {
          var k :| 0 <= k < |s[1..]| && s[1..][k] == x;
          assert Less(s[0], x);
          LessIrreflexive(x);
          assert x in t && x != t[0];
          var m :| 0 <= m < |t| && t[m] == x;
          assert m > 0;
          assert t[1..][m - 1] == x;
        }
        if x in t[1..] {
          var k :| 0 <= k < |t[1..]| && t[1..][k] == x;
          assert Less(t[0], x);
          LessIrreflexive(x);
          assert x in s && x != s[0];
          var m :| 0 <= m < |s| && s[m] == x;
          assert m > 0;
          assert s[1..][m - 1] == x;
        }
      }
      SortedUnique(s[1..], t[1..]);
    }
  }

  /**
   * Collect the elements of a set (in whatever order enumeration yields them)
   * and sort them: `keys().cloned().collect()` followed by `sort()`.
   */
  method SortedList(keys: set<string>) returns (s: seq<string>)
    ensures StrictlySorted(s)
    ensures forall x :: x in s <==> x in keys
    ensures |s| == |keys|
  {
    s := [];
    var todo := keys;
    while todo != {}
      invariant todo <= keys
      invariant StrictlySorted(s)
      invariant forall x :: x in s <==> x in keys && x !in todo
      invariant |s| + |todo| == |keys|
      decreases |todo|
    {
      var x :| x in todo;
      s := InsertSorted(s, x);
      todo := todo - {x};
    }
  }
}
