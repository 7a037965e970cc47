/** The few JavaScript string operations the questionnaire relies on. */
module Strings {

  /** `s` begins with `prefix`. */
  predicate StartsWith(s: string, prefix: string) {
    |prefix| <= |s| && s[..|prefix|] == prefix
  }

  /** `s` has `pat` at position `i`. */
  predicate OccursAt(s: string, pat: string, i: int) {
    0 <= i && i + |pat| <= |s| && s[i..i + |pat|] == pat
  }

  /** A slice of `s[1..]` is the slice of `s` one position further on. */
  lemma SliceOfTail(s: string, i: nat, n: nat)
    requires 0 < |s| && i + n < |s|
    ensures s[1..][i..i + n] == s[i + 1..i + 1 + n]
  {
    var a := s[1..][i..i + n];
    var b := s[i + 1..i + 1 + n];
    forall k | 0 <= k < n
      ensures a[k] == b[k]
    {
    }
  }

  /** `String.prototype.includes`: `pat` occurs somewhere in `s`, computed by a left-to-right scan. */
  function Includes(s: string, pat: string): (r: bool)
    ensures r <==> exists i :: 0 <= i <= |s| - |pat| && OccursAt(s, pat, i)
    decreases |s|
  {
    if StartsWith(s, pat) then
      assert OccursAt(s, pat, 0);
      true
    else if |s| == 0 then
      false
    else
      var rest := Includes(s[1..], pat);
      if rest then
        var j :| 0 <= j <= |s[1..]| - |pat| && OccursAt(s[1..], pat, j);
        assert OccursAt(s, pat, j + 1) by {
          SliceOfTail(s, j, |pat|);
        }
        true
      else
        assert forall i :: 1 <= i <= |s| - |pat| ==> !OccursAt(s, pat, i) by {
          forall i | 1 <= i <= |s| - |pat|
            ensures !OccursAt(s, pat, i)
          {
            SliceOfTail(s, i - 1, |pat|);
            assert !OccursAt(s[1..], pat, i - 1);
          }
        }
        assert !OccursAt(s, pat, 0);
        false
  }

  /** Index of the first occurrence of `pat` in `s`, or -1 (`String.prototype.indexOf`). */
  function IndexOf(s: string, pat: string): (r: int)
    ensures r == -1 || 0 <= r <= |s| - |pat|
    ensures r >= 0 ==> OccursAt(s, pat, r)
    ensures r >= 0 ==> forall i :: 0 <= i < r ==> !OccursAt(s, pat, i)
    ensures r == -1 ==> forall i :: 0 <= i <= |s| - |pat| ==> !OccursAt(s, pat, i)
    decreases |s|
  {
    if StartsWith(s, pat) then 0
    else if |s| == 0 then -1
    else
      var k := IndexOf(s[1..], pat);
      if k == -1 then
        assert forall i :: 1 <= i <= |s| - |pat| ==> !OccursAt(s, pat, i) by {
          forall i | 1 <= i <= |s| - |pat|
            ensures !OccursAt(s, pat, i)
          {
            SliceOfTail(s, i - 1, |pat|);
            assert !OccursAt(s[1..], pat, i - 1);
          }
        }
        -1
      else
        assert OccursAt(s, pat, k + 1) by {
          SliceOfTail(s, k, |pat|);
        }
        assert forall i :: 1 <= i < k + 1 ==> !OccursAt(s, pat, i) by {
          forall i | 1 <= i < k + 1
            ensures !OccursAt(s, pat, i)
          {
            SliceOfTail(s, i - 1, |pat|);
            assert !OccursAt(s[1..], pat, i - 1);
          }
        }
        k + 1
  }

  /** `s.replace(pat, rep)` with a string pattern: only the FIRST occurrence is replaced. */
  function ReplaceFirst(s: string, pat: string, rep: string): (r: string)
    ensures IndexOf(s, pat) == -1 ==> r == s
    ensures IndexOf(s, pat) >= 0 ==>
      var i := IndexOf(s, pat);
      |r| == |s| - |pat| + |rep| &&
      r[..i] == s[..i] && r[i..i + |rep|] == rep && r[i + |rep|..] == s[i + |pat|..]
  {
    var i := IndexOf(s, pat);
    if i == -1 then s else s[..i] + rep + s[i + |pat|..]
  }

  /** Total length of a list of strings. */
  function TotalLength(xs: seq<string>): nat {
    if |xs| == 0 then 0 else TotalLength(xs[..|xs| - 1]) + |xs[|xs| - 1]|
  }

  /**
   * `xs.join(sep)`: the elements separated by `sep`; the empty list joins to "". The
   * result is as long as the elements plus one separator between each pair, and begins
   * and ends with the first and the last element.
   */
  function Join(xs: seq<string>, sep: string): (r: string)
    ensures |xs| == 0 ==> r == ""
    ensures |xs| == 1 ==> r == xs[0]
    ensures |r| == TotalLength(xs) + (if |xs| == 0 then 0 else (|xs| - 1) * |sep|)
    ensures |xs| > 0 ==> StartsWith(r, xs[0]) && r[|r| - |xs[|xs| - 1]|..] == xs[|xs| - 1]
    decreases |xs|
  {
    if |xs| == 0 then ""
    else if |xs| == 1 then xs[0]
    else
      var init := Join(xs[..|xs| - 1], sep);
      var r := init + sep + xs[|xs| - 1];
      assert r[..|xs[0]|] == init[..|xs[0]|];
      r
  }

  /** Every element occurs in the joined string. */
  lemma {:induction false} JoinMentionsEach(xs: seq<string>, sep: string, i: nat)
    requires i < |xs|
    ensures Includes(Join(xs, sep), xs[i])
  {
    var j := Join(xs, sep);
    if |xs| == 1 {
      assert OccursAt(j, xs[i], 0);
    } else if i == |xs| - 1 {
      assert OccursAt(j, xs[i], |j| - |xs[i]|);
    } else {
      var init := Join(xs[..|xs| - 1], sep);
      assert j == init + sep + xs[|xs| - 1];
      JoinMentionsEach(xs[..|xs| - 1], sep, i);
      var k :| 0 <= k <= |init| - |xs[i]| && OccursAt(init, xs[i], k);
      assert j[k..k + |xs[i]|] == init[k..k + |xs[i]|];
      assert OccursAt(j, xs[i], k);
    }
  }

  /** Decimal digit of `d`. */
  function DigitChar(d: nat): (c: char)
    requires d < 10
    ensures '0' <= c <= '9' && (c as int) - ('0' as int) == d
  {
    ['0', '1', '2', '3', '4', '5', '6', '7', '8', '9'][d]
  }

  /** Value of a string of decimal digits. */
  function DigitsValue(s: string): int
    requires forall i :: 0 <= i < |s| ==> '0' <= s[i] <= '9'
  {
    if |s| == 0 then 0
    else 10 * DigitsValue(s[..|s| - 1]) + ((s[|s| - 1] as int) - ('0' as int))
  }

  /** Decimal rendering of a natural number, as JavaScript prints an integral number. */
  function NatToString(n: nat): (r: string)
    ensures |r| >= 1
    ensures forall i :: 0 <= i < |r| ==> '0' <= r[i] <= '9'
    ensures DigitsValue(r) == n
    ensures |r| > 1 ==> r[0] != '0'
  {
    if n < 10 then [DigitChar(n)]
    else
      var prefix := NatToString(n / 10);
      var r := prefix + [DigitChar(n % 10)];
      assert r[..|r| - 1] == prefix;
      r
  }

  /** Every character is a decimal digit. */
  predicate IsDigits(s: string) {
    forall i :: 0 <= i < |s| ==> '0' <= s[i] <= '9'
  }

  /**
   * Decimal rendering of an integer, as JavaScript prints an integral number: the digits
   * of its magnitude, without leading zeros, after a '-' for negatives.
   */
  function IntToString(n: int): (r: string)
    ensures n >= 0 ==> IsDigits(r) && DigitsValue(r) == n && |r| >= 1 && (|r| > 1 ==> r[0] != '0')
    ensures n < 0 ==> |r| >= 2 && r[0] == '-' && IsDigits(r[1..]) && DigitsValue(r[1..]) == -n
    ensures n < 0 && |r| > 2 ==> r[1] != '0'
  {
    if n >= 0 then NatToString(n)
    else
      var r := "-" + NatToString(-n);
      assert r[1..] == NatToString(-n);
      r
  }
}
