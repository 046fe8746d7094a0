/**
 * The few QString / QStringList operations the device helper relies on:
 * QStringList::join, QString::contains, QString::mid, ASCII lower-casing and
 * decimal conversions between numbers and text.
 */
module Strings {
  import opened Wrappers

  /** QStringList::join: the elements with `sep` between consecutive ones. */
  function Join(l: seq<string>, sep: string): string
  {
    if |l| == 0 then ""
    else if |l| == 1 then l[0]
    else l[0] + sep + Join(l[1..], sep)
  }

  /** QString::contains (case-sensitive): `w` occurs somewhere in `s`. */
  predicate Contains(s: string, w: string)
  {
    exists p :: 0 <= p <= |s| - |w| && OccursAt(s, w, p)
  }

  /** `w` occurs in `s` starting at position `p`. */
  predicate OccursAt(s: string, w: string, p: int)
    requires 0 <= p <= |s| - |w|
  {
    s[p..p + |w|] == w
  }

  /** QString::mid(start): the suffix from `start` on, empty when `s` is shorter. */
  function Mid(s: string, start: nat): (r: string)
    ensures |s| >= start ==> s == s[..start] + r
    ensures |s| <= start ==> r == ""
  {
    if |s| >= start then s[start..] else ""
  }

  /** Each character of an occurrence is the matching character of `w`. */
  lemma OccurrenceAt(s: string, w: string, p: int, j: int)
    requires 0 <= p <= |s| - |w| && OccursAt(s, w, p)
    requires p <= j < p + |w|
    ensures s[j] == w[j - p]
  {
    assert s[p..p + |w|][j - p] == s[j];
  }

  /** Characters `w` never uses: the two characters of the separator ", ". */
  predicate AvoidsSeparator(w: string)
  {
    forall i :: 0 <= i < |w| ==> w[i] != ',' && w[i] != ' '
  }

  /**
   * A word without ',' or ' ' occurs in `a + ", " + b` exactly when it
   * occurs in `a` or in `b`: no occurrence can straddle the separator.
   */
  lemma ContainsAroundSeparator(a: string, b: string, w: string)
    requires |w| > 0 && AvoidsSeparator(w)
    ensures Contains(a + ", " + b, w) <==> Contains(a, w) || Contains(b, w)
  {
    var s := a + ", " + b;
    if Contains(a, w) {
      var p :| 0 <= p <= |a| - |w| && OccursAt(a, w, p);
      assert s[p..p + |w|] == a[p..p + |w|];
      assert OccursAt(s, w, p);
    }
    if Contains(b, w) {
      var p :| 0 <= p <= |b| - |w| && OccursAt(b, w, p);
      var q := |a| + 2 + p;
      assert s[q..q + |w|] == b[p..p + |w|];
      assert OccursAt(s, w, q);
    }
    if Contains(s, w) {
      var p :| 0 <= p <= |s| - |w| && OccursAt(s, w, p);
      if p + |w| <= |a| {
        assert a[p..p + |w|] == s[p..p + |w|];
        assert OccursAt(a, w, p);
      } else if p >= |a| + 2 {
        var q := p - |a| - 2;
        assert b[q..q + |w|] == s[p..p + |w|];
        assert OccursAt(b, w, q);
      } else {
        // the occurrence covers position |a| (',') or position |a| + 1 (' ')
        OccurrenceAt(s, w, p, if p <= |a| then |a| else p);
        assert false;
      }
    }
  }

  /**
   * The media-compatibility test: a separator-free word occurs in the list
   * joined with ", " exactly when it occurs in one of the elements.
   */
  lemma {:induction false} JoinContains(l: seq<string>, w: string)
    requires |w| > 0 && AvoidsSeparator(w)
    ensures Contains(Join(l, ", "), w) <==> exists i :: 0 <= i < |l| && Contains(l[i], w)
  {
    if |l| == 0 {
      assert !Contains("", w);
    } else if |l| == 1 {
    } else {
      JoinContains(l[1..], w);
      ContainsAroundSeparator(l[0], Join(l[1..], ", "), w);
      if exists i :: 0 <= i < |l[1..]| && Contains(l[1..][i], w) {
        var i :| 0 <= i < |l[1..]| && Contains(l[1..][i], w);
        assert Contains(l[i + 1], w);
      }
      if exists i :: 0 <= i < |l| && Contains(l[i], w) {
        var i :| 0 <= i < |l| && Contains(l[i], w);
        if i > 0 {
          assert l[1..][i - 1] == l[i];
        }
      }
    }
  }

  /** ASCII part of QString::toLower. */
  function ToLowerAscii(s: string): (r: string)
    ensures |r| == |s|
    ensures forall i :: 0 <= i < |s| ==> ('A' <= s[i] <= 'Z' ==> r[i] as int == s[i] as int + 32)
    ensures forall i :: 0 <= i < |s| ==> !('A' <= s[i] <= 'Z') ==> r[i] == s[i]
  {
    if |s| == 0 then ""
    else
      var c := s[0];
      [if 'A' <= c <= 'Z' then (c as int + 32) as char else c] + ToLowerAscii(s[1..])
  }

  predicate IsDigit(c: char)
  {
    '0' <= c <= '9'
  }

  /** Decimal text of a natural number, most significant digit first. */
  function NatToString(n: nat): (r: string)
    ensures |r| > 0
    ensures forall i :: 0 <= i < |r| ==> IsDigit(r[i])
    decreases n
  {
    if n < 10 then [('0' as int + n) as char]
    else NatToString(n / 10) + [('0' as int + n % 10) as char]
  }

  /** QString::number for a signed integer. */
  function IntToString(i: int): string
  {
    if i < 0 then "-" + NatToString(-i) else NatToString(i)
  }

  /** Value of a non-empty string of decimal digits; None for anything else. */
  function ParseDecimal(s: string): (r: Option<nat>)
    ensures r.Some? <==> |s| > 0 && forall i :: 0 <= i < |s| ==> IsDigit(s[i])
    decreases |s|
  {
    if |s| == 0 then None
    else if !IsDigit(s[|s| - 1]) then None
    else if |s| == 1 then Some(s[0] as int - '0' as int)
    else
      match ParseDecimal(s[..|s| - 1])
      case None => None
      case Some(v) => Some(10 * v + (s[|s| - 1] as int - '0' as int))
  }
}
