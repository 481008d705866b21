/**
 * The two pieces of Python's string library the client relies on: `str(n)` for an
 * integer `n` (decimal text) and `s.replace(old, new)` (every non-overlapping
 * occurrence of `old`, scanned left to right, replaced by `new`).
 */
module Text {

  predicate IsDigit(c: char) {
    '0' <= c <= '9'
  }

  function DigitChar(d: nat): (c: char)
    requires d < 10
    ensures IsDigit(c)
  {
    ('0' as int + d) as char
  }

  function DigitValue(c: char): (d: nat)
    requires IsDigit(c)
    ensures d < 10
  {
    c as int - '0' as int
  }

  predicate AllDigits(s: string) {
    forall i :: 0 <= i < |s| ==> IsDigit(s[i])
  }

  /** Decimal digits of a natural number, most significant first, without leading zeros. */
  function NatToDecimal(n: nat): (s: string)
    ensures 0 < |s| && AllDigits(s)
    ensures n == 0 <==> s == "0"
    ensures n > 0 ==> s[0] != '0'
    decreases n
  {
    if n < 10 then [DigitChar(n)] else NatToDecimal(n / 10) + [DigitChar(n % 10)]
  }

  /** Python's `str(n)` for an `int`: an optional minus sign followed by the digits of `|n|`. */
  function Decimal(n: int): (s: string)
    ensures 0 < |s|
    ensures n < 0 <==> s[0] == '-'
    ensures forall i :: 0 <= i < |s| ==> IsDigit(s[i]) || (i == 0 && s[i] == '-')
    ensures n == 0 <==> s == "0"
    ensures n > 0 ==> s[0] != '0'
    ensures n < 0 ==> 1 < |s| && s[1] != '0'
  {
    if n < 0 then "-" + NatToDecimal(-n) else NatToDecimal(n)
  }

  /** Value of a string of decimal digits (the inverse of NatToDecimal). */
  function ParseNat(s: string): nat
    requires AllDigits(s)
  {
    if s == [] then 0 else ParseNat(s[..|s| - 1]) * 10 + DigitValue(s[|s| - 1])
  }

  /** Value of an optionally signed decimal string, as Python's `int(s)` reads it. */
  function ParseDecimal(s: string): int
    requires 0 < |s|
    requires s[0] == '-' ==> AllDigits(s[1..])
    requires s[0] != '-' ==> AllDigits(s)
  {
    if s[0] == '-' then -(ParseNat(s[1..]) as int) else ParseNat(s)
  }

  lemma {:induction false} NatToDecimalRoundTrip(n: nat)
    ensures ParseNat(NatToDecimal(n)) == n
    decreases n
  {
    if n >= 10 {
      var s := NatToDecimal(n);
      NatToDecimalRoundTrip(n / 10);
      assert s[..|s| - 1] == NatToDecimal(n / 10);
    }
  }

  /** `str` on integers loses nothing: reading the text back gives the same number. */
  lemma {:induction false} DecimalRoundTrip(n: int)
    ensures var s := Decimal(n); (s[0] == '-' ==> AllDigits(s[1..])) && (s[0] != '-' ==> AllDigits(s))
    ensures ParseDecimal(Decimal(n)) == n
  {
    if n < 0 {
      NatToDecimalRoundTrip(-n);
      assert Decimal(n)[1..] == NatToDecimal(-n);
    } else {
      NatToDecimalRoundTrip(n);
    }
  }

  /** `pat` occurs in `s` starting at index `i`. */
  predicate OccursAt(s: string, pat: string, i: int) {
    0 <= i && i + |pat| <= |s| && s[i..i + |pat|] == pat
  }

  /** Python's `pat in s`. */
  predicate Occurs(s: string, pat: string) {
    exists i | 0 <= i <= |s| - |pat| :: OccursAt(s, pat, i)
  }

  /** No character of `rep` appears in `pat`. */
  predicate Disjoint(pat: string, rep: string) {
    forall i :: 0 <= i < |pat| ==> pat[i] !in rep
  }

  /**
   * Python's `s.replace(pat, rep)` for a non-empty `pat`: scanning from the left, each
   * occurrence of `pat` is replaced by `rep` and the scan resumes after it. A shorter
   * replacement never lengthens the text and a longer one never shortens it;
   * ReplaceAbsent and ReplaceFirstOccurrence state what happens away from and at an
   * occurrence.
   */
  function Replace(s: string, pat: string, rep: string): (r: string)
    requires 0 < |pat|
    ensures |rep| <= |pat| ==> |r| <= |s|
    ensures |rep| >= |pat| ==> |r| >= |s|
    ensures |rep| == |pat| ==> |r| == |s|
    decreases |s|
  {
    if |s| < |pat| then s
    else if s[..|pat|] == pat then rep + Replace(s[|pat|..], pat, rep)
    else [s[0]] + Replace(s[1..], pat, rep)
  }

  /** A string without the pattern comes back from `replace` unchanged. */
  lemma {:induction false} ReplaceAbsent(s: string, pat: string, rep: string)
    requires 0 < |pat|
    requires !Occurs(s, pat)
    ensures Replace(s, pat, rep) == s
    decreases |s|
  {
    if |s| >= |pat| {
      assert !OccursAt(s, pat, 0);
      AbsentInSuffix(s, pat, 1);
      ReplaceAbsent(s[1..], pat, rep);
      assert [s[0]] + s[1..] == s;
    }
  }

  /** An absence at index `i + k` of `s` is an absence at index `i` of `s[k..]`. */
  lemma AbsentAfterDrop(s: string, pat: string, k: nat, i: int)
    requires k <= |s|
    requires !OccursAt(s, pat, i + k)
    ensures !OccursAt(s[k..], pat, i)
  {
    if 0 <= i && i + |pat| <= |s| - k {
      assert s[k..][i..i + |pat|] == s[i + k..i + k + |pat|];
    }
  }

  /** An absence of `pat` in `s` is an absence in every suffix of `s`. */
  lemma AbsentInSuffix(s: string, pat: string, k: nat)
    requires k <= |s|
    requires !Occurs(s, pat)
    ensures !Occurs(s[k..], pat)
  {
    forall i | 0 <= i <= |s[k..]| - |pat| ensures !OccursAt(s[k..], pat, i) {
      assert !OccursAt(s, pat, i + k);
      AbsentAfterDrop(s, pat, k, i);
    }
  }

  /**
   * Text before the first occurrence is kept, that occurrence becomes `rep`, and
   * the scan goes on after it.
   */
  lemma {:induction false} ReplaceFirstOccurrence(a: string, pat: string, b: string, rep: string)
    requires 0 < |pat|
    requires forall i :: 0 <= i < |a| ==> !OccursAt(a + pat + b, pat, i)
    ensures Replace(a + pat + b, pat, rep) == a + rep + Replace(b, pat, rep)
    decreases |a|
  {
    var s := a + pat + b;
    if a == [] {
      assert s == pat + b;
      assert s[..|pat|] == pat;
      assert s[|pat|..] == b;
    } else {
      assert !OccursAt(s, pat, 0);
      assert s[1..] == a[1..] + pat + b;
      forall i | 0 <= i < |a[1..]| ensures !OccursAt(a[1..] + pat + b, pat, i) {
        assert !OccursAt(s, pat, i + 1);
        AbsentAfterDrop(s, pat, 1, i);
      }
      ReplaceFirstOccurrence(a[1..], pat, b, rep);
      assert [a[0]] + (a[1..] + rep + Replace(b, pat, rep)) == a + rep + Replace(b, pat, rep);
    }
  }

  /**
   * Until it emits a character of `rep`, `replace` copies its input: the output's first
   * `k` characters either are the input's first `k` or include a character of `rep`.
   */
  lemma {:induction false} ReplaceKeepsPrefix(u: string, pat: string, rep: string, k: nat)
    requires 0 < |pat| && 0 < |rep|
    requires k <= |Replace(u, pat, rep)|
    ensures || (k <= |u| && Replace(u, pat, rep)[..k] == u[..k])
            || (exists j :: 0 <= j < k && Replace(u, pat, rep)[j] in rep)
    decreases |u|
  {
    var r := Replace(u, pat, rep);
    if |u| < |pat| {
    } else if u[..|pat|] == pat {
      if k > 0 {
        assert r[0] == rep[0];
        assert r[0] in rep;
      }
    } else if k > 0 {
      var r' := Replace(u[1..], pat, rep);
      assert r == [u[0]] + r';
      ReplaceKeepsPrefix(u[1..], pat, rep, k - 1);
      if exists j :: 0 <= j < k - 1 && r'[j] in rep {
        var j :| 0 <= j < k - 1 && r'[j] in rep;
        assert r[j + 1] == r'[j];
      } else {
        assert r[..k] == [u[0]] + r'[..k - 1];
        assert u[..k] == [u[0]] + u[1..][..k - 1];
      }
    }
  }

  /** A character of `rep` among the first `|p| - 1` of `t` keeps `p` from starting `[c] + t`. */
  lemma FrontHoldsRep(c: char, t: string, rep: string, p: string, j: nat)
    requires Disjoint(p, rep)
    requires j + 1 < |p| && j < |t| && t[j] in rep
    ensures !OccursAt([c] + t, p, 0)
  {
    var u := [c] + t;
    if |p| <= |u| {
      assert u[..|p|][j + 1] == t[j];
      assert p[j + 1] !in rep;
    }
  }

  /** If `t` begins like `s[1..]`, then `[s[0]] + t` begins like `s`, which does not start with `p`. */
  lemma FrontCopied(s: string, t: string, p: string)
    requires 0 < |s| && 0 < |p| && |p| <= |s| && |p| - 1 <= |t|
    requires t[..|p| - 1] == s[1..][..|p| - 1]
    requires !OccursAt(s, p, 0)
    ensures !OccursAt([s[0]] + t, p, 0)
  {
    var u := [s[0]] + t;
    assert u[..|p|] == [s[0]] + t[..|p| - 1];
    assert s[..|p|] == [s[0]] + s[1..][..|p| - 1];
  }

  /**
   * If `s` does not start with `p`, then neither does the output of a `replace` that
   * drops nothing before its first step: `[s[0]] + Replace(s[1..], q, rep)`, provided
   * `rep` is non-empty and shares no character with `p`.
   */
  lemma NoOccurrenceAtFront(s: string, q: string, rep: string, p: string)
    requires 0 < |q| && 0 < |rep| && 0 < |p|
    requires Disjoint(p, rep)
    requires 0 < |s| && !OccursAt(s, p, 0)
    ensures !OccursAt([s[0]] + Replace(s[1..], q, rep), p, 0)
  {
    var r' := Replace(s[1..], q, rep);
    if |p| <= 1 + |r'| {
      ReplaceKeepsPrefix(s[1..], q, rep, |p| - 1);
      if exists j :: 0 <= j < |p| - 1 && r'[j] in rep {
        var j :| 0 <= j < |p| - 1 && r'[j] in rep;
        FrontHoldsRep(s[0], r', rep, p, j);
      } else {
        FrontCopied(s, r', p);
      }
    }
  }

  /** Text disjoint from `p` put in front of a string without `p` does not create one. */
  lemma PrependDisjointLeavesNone(rep: string, r': string, p: string)
    requires 0 < |p| && Disjoint(p, rep)
    requires !Occurs(r', p)
    ensures !Occurs(rep + r', p)
  {
    var r := rep + r';
    var m := |p|;
    forall i | 0 <= i <= |r| - m ensures !OccursAt(r, p, i) {
      if i < |rep| {
        assert r[i] == rep[i];
        assert p[0] !in rep;
        assert r[i..i + m][0] == r[i];
      } else {
        assert r[i..i + m] == r'[i - |rep|..i - |rep| + m];
        assert !OccursAt(r', p, i - |rep|);
      }
    }
  }

  /** One character in front of a string without `p` creates no `p` if none starts there. */
  lemma PrependCharLeavesNone(c: char, r': string, p: string)
    requires !Occurs(r', p)
    requires !OccursAt([c] + r', p, 0)
    ensures !Occurs([c] + r', p)
  {
    var r := [c] + r';
    var m := |p|;
    forall i | 1 <= i <= |r| - m ensures !OccursAt(r, p, i) {
      assert r[i..i + m] == r'[i - 1..i - 1 + m];
      assert !OccursAt(r', p, i - 1);
    }
  }

  /**
   * Replacing `q` by text that is non-empty and disjoint from `p` leaves no occurrence of
   * `p` in the output, if there was none in the input or if `p` is `q` itself.
   */
  lemma {:induction false} ReplaceLeavesNone(s: string, q: string, rep: string, p: string)
    requires 0 < |q| && 0 < |rep| && 0 < |p|
    requires Disjoint(p, rep)
    requires p == q || !Occurs(s, p)
    ensures !Occurs(Replace(s, q, rep), p)
    decreases |s|
  {
    if |s| < |q| {
      assert Replace(s, q, rep) == s;
      assert p == q ==> |s| < |p|;
    } else if s[..|q|] == q {
      if p != q {
        AbsentInSuffix(s, p, |q|);
      }
      ReplaceLeavesNone(s[|q|..], q, rep, p);
      PrependDisjointLeavesNone(rep, Replace(s[|q|..], q, rep), p);
    } else {
      if p != q {
        AbsentInSuffix(s, p, 1);
      }
      assert !OccursAt(s, p, 0);
      ReplaceLeavesNone(s[1..], q, rep, p);
      NoOccurrenceAtFront(s, q, rep, p);
      PrependCharLeavesNone(s[0], Replace(s[1..], q, rep), p);
    }
  }
}
