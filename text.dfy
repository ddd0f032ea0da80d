/**
 * The few Python string operations the lookup wrapper relies on, written
 * out as functions on `string` (a `seq<char>`): `str.replace`, `str.ljust`,
 * the slice `s[0:n]` and the decimal rendering of a non-negative `int`.
 */
module Text {

  /** `n` space characters. */
  function Spaces(n: nat): (r: string)
    ensures |r| == n
    ensures forall i :: 0 <= i < n ==> r[i] == ' '
  {
    seq(n, _ => ' ')
  }

  /**
   * `s.ljust(width)`: `s` followed by enough spaces to reach `width`
   * characters; a longer `s` is returned whole, never truncated.
   */
  function LeftJustify(s: string, width: nat): (r: string)
    ensures |r| == if |s| < width then width else |s|
    ensures r[..|s|] == s
    ensures forall i :: |s| <= i < |r| ==> r[i] == ' '
  {
    if |s| < width then s + Spaces(width - |s|) else s
  }

  /** The slice `s[0:n]`: the first `n` characters, or all of `s` if it is shorter. */
  function Head(s: string, n: nat): (r: string)
    ensures |r| == if |s| < n then |s| else n
    ensures r == s[..|r|]
  {
    if |s| <= n then s else s[..n]
  }

  /** `pat` occurs in `s` starting at index `i`. */
  predicate OccursAt(s: string, i: nat, pat: string)
  {
    i + |pat| <= |s| && s[i..i + |pat|] == pat
  }

  /**
   * `s.replace(pat, rep)` for a non-empty `pat`: every occurrence of `pat`,
   * found left to right without overlapping, is replaced by `rep`.
   */
  function ReplaceAll(s: string, pat: string, rep: string): (r: string)
    requires pat != ""
    ensures |rep| == |pat| ==> |r| == |s|
    ensures rep == pat ==> r == s
    decreases |s|
  {
    if |s| < |pat| then s
    else if s[..|pat|] == pat then
      assert s == s[..|pat|] + s[|pat|..];
      rep + ReplaceAll(s[|pat|..], pat, rep)
    else
      assert s == [s[0]] + s[1..];
      [s[0]] + ReplaceAll(s[1..], pat, rep)
  }

  /** A string in which `pat` does not occur is left unchanged by the replacement. */
  lemma {:induction false} ReplaceAllAbsent(s: string, pat: string, rep: string)
    requires pat != ""
    requires forall i: nat :: !OccursAt(s, i, pat)
    ensures ReplaceAll(s, pat, rep) == s
  {
    if |s| >= |pat| {
      assert !OccursAt(s, 0, pat);
      assert s[..|pat|] != pat;
      forall i: nat ensures !OccursAt(s[1..], i, pat) {
        assert !OccursAt(s, i + 1, pat);
        if i + |pat| <= |s[1..]| {
          assert s[1..][i..i + |pat|] == s[i + 1..i + 1 + |pat|];
        }
      }
      ReplaceAllAbsent(s[1..], pat, rep);
      assert [s[0]] + s[1..] == s;
    }
  }

  /** An occurrence in `t` is an occurrence in `p + t`, shifted by `|p|`. */
  lemma OccursAtShift(p: string, t: string, i: nat, pat: string)
    requires OccursAt(t, i, pat)
    ensures OccursAt(p + t, |p| + i, pat)
  {
    assert (p + t)[|p| + i..|p| + i + |pat|] == t[i..i + |pat|];
  }

  /**
   * A string in which `pat` occurs only once, at the end of `x`, has that
   * one occurrence replaced and nothing else changed.
   */
  lemma {:induction false} ReplaceAllOnce(x: string, pat: string, y: string, rep: string)
    requires pat != ""
    requires forall i: nat :: i != |x| ==> !OccursAt(x + pat + y, i, pat)
    ensures ReplaceAll(x + pat + y, pat, rep) == x + rep + y
    decreases |x|
  {
    var s := x + pat + y;
    if x == [] {
      assert s == pat + y;
      assert s[..|pat|] == pat && s[|pat|..] == y;
      forall i: nat | OccursAt(y, i, pat) ensures false {
        OccursAtShift(pat, y, i, pat);
      }
      ReplaceAllAbsent(y, pat, rep);
    } else {
      var t := x[1..] + pat + y;
      assert s == [x[0]] + t;
      assert !OccursAt(s, 0, pat);
      forall i: nat | i != |x[1..]| && OccursAt(t, i, pat) ensures false {
        OccursAtShift([x[0]], t, i, pat);
      }
      ReplaceAllOnce(x[1..], pat, y, rep);
      assert [x[0]] + (x[1..] + rep + y) == x + rep + y;
    }
  }

  /**
   * Replacing one character by another is a map over the characters: the
   * length is kept and each character is replaced on its own.
   */
  lemma {:induction false} ReplaceCharAt(s: string, c: char, d: char)
    ensures |ReplaceAll(s, [c], [d])| == |s|
    ensures forall i :: 0 <= i < |s| ==>
      ReplaceAll(s, [c], [d])[i] == if s[i] == c then d else s[i]
  {
    if |s| > 0 {
      ReplaceCharAt(s[1..], c, d);
      var r := ReplaceAll(s, [c], [d]);
      var head := if s[0] == c then [d] else [s[0]];
      assert s[..1] == [s[0]];
      assert r == head + ReplaceAll(s[1..], [c], [d]);
      forall i | 1 <= i < |s| ensures r[i] == if s[i] == c then d else s[i] {
        assert r[i] == ReplaceAll(s[1..], [c], [d])[i - 1];
        assert s[1..][i - 1] == s[i];
      }
    }
  }

  /** `'0'` .. `'9'`. */
  predicate IsDigit(c: char)
  {
    '0' <= c <= '9'
  }

  predicate AllDigits(s: string)
  {
    forall i :: 0 <= i < |s| ==> IsDigit(s[i])
  }

  /** `str(n)` for an `int` `n >= 0`: its decimal digits, most significant first. */
  function NatToDecimal(n: nat): (r: string)
    ensures r != [] && AllDigits(r)
    ensures n == 0 <==> r == "0"
    ensures |r| > 1 ==> r[0] != '0'
    decreases n
  {
    if n < 10 then [('0' as int + n) as char]
    else NatToDecimal(n / 10) + [('0' as int + n % 10) as char]
  }

  /** The number a string of decimal digits denotes. */
  function DecimalValue(s: string): nat
    requires AllDigits(s)
  {
    if s == [] then 0
    else DecimalValue(s[..|s| - 1]) * 10 + (s[|s| - 1] as int - '0' as int)
  }

  /** Reading back the decimal text of `n` gives `n`. */
  lemma {:induction false} DecimalRoundTrip(n: nat)
    ensures DecimalValue(NatToDecimal(n)) == n
  {
    var r := NatToDecimal(n);
    if n >= 10 {
      DecimalRoundTrip(n / 10);
      assert r[..|r| - 1] == NatToDecimal(n / 10);
    } else {
      assert r[..|r| - 1] == [];
    }
  }
}
