/**
  Literal pattern search and splitting on strings.

  This is the part of `String.split(pattern, -1)` that the URL replacement
  relies on, for a pattern that matches itself literally: the string is cut at
  every leftmost, non-overlapping occurrence of the pattern, and empty leading
  and trailing pieces are kept.
 */
module Patterns {
  import opened Results

  /** `pat` occurs in `s` starting at index `k`. */
  predicate OccursAt(s: string, pat: string, k: int) {
    0 <= k && k + |pat| <= |s| && s[k..k + |pat|] == pat
  }

  /** `pat` occurs somewhere in `s`. */
  ghost predicate Occurs(s: string, pat: string) {
    exists k :: OccursAt(s, pat, k)
  }

  /** `s` holds two occurrences of `pat` that do not overlap. */
  ghost predicate OccursTwice(s: string, pat: string) {
    exists k, m :: OccursAt(s, pat, k) && OccursAt(s, pat, m) && k + |pat| <= m
  }

  lemma OccursAtTail(s: string, pat: string, k: nat)
    requires 1 <= |s|
    ensures OccursAt(s[1..], pat, k) <==> OccursAt(s, pat, k + 1)
  {
    if 0 <= k && k + 1 + |pat| <= |s| {
      assert s[1..][k..k + |pat|] == s[k + 1..k + 1 + |pat|];
    }
  }

  lemma OccursAtSuffix(s: string, pat: string, d: nat, k: nat)
    requires d <= |s|
    ensures OccursAt(s[d..], pat, k) <==> OccursAt(s, pat, d + k)
  {
    if 0 <= k && d + k + |pat| <= |s| {
      assert s[d..][k..k + |pat|] == s[d + k..d + k + |pat|];
    }
  }

  lemma OccursAtPrefix(s: string, pat: string, d: nat, k: int)
    requires d <= |s|
    requires k + |pat| <= d
    ensures OccursAt(s[..d], pat, k) <==> OccursAt(s, pat, k)
  {
    if 0 <= k {
      assert s[..d][k..k + |pat|] == s[k..k + |pat|];
    }
  }

  /** The leftmost index at which `pat` occurs in `s`, if any. */
  function IndexOf(s: string, pat: string): (r: Option<nat>)
    requires |pat| > 0
    ensures r.Some? ==> OccursAt(s, pat, r.value)
    ensures r.Some? ==> forall k :: 0 <= k < r.value ==> !OccursAt(s, pat, k)
    ensures r.None? <==> !Occurs(s, pat)
    decreases |s|
  {
    if |s| < |pat| then
      assert forall k :: !OccursAt(s, pat, k);
      None
    else if s[..|pat|] == pat then
      assert OccursAt(s, pat, 0);
      Some(0)
    else
      var rest := IndexOf(s[1..], pat);
      forall k: nat ensures OccursAt(s[1..], pat, k) <==> OccursAt(s, pat, k + 1) {
        OccursAtTail(s, pat, k);
      }
      match rest
      case None =>
        assert forall k :: !OccursAt(s, pat, k) by {
          forall k ensures !OccursAt(s, pat, k) {
            if k >= 1 {
              assert !OccursAt(s[1..], pat, k - 1);
            }
          }
        }
        None
      case Some(k) =>
        assert forall m :: 0 <= m < k + 1 ==> !OccursAt(s, pat, m) by {
          forall m | 0 <= m < k + 1 ensures !OccursAt(s, pat, m) {
            if m >= 1 {
              assert !OccursAt(s[1..], pat, m - 1);
            }
          }
        }
        Some(k + 1)
  }

  /**
    Glues pieces back together with `pat` between neighbours: the inverse of
    `Split`.
   */
  function Join(pieces: seq<string>, pat: string): string
    requires |pieces| >= 1
  {
    if |pieces| == 1 then pieces[0] else pieces[0] + pat + Join(pieces[1..], pat)
  }

  /**
    Cuts `s` at every leftmost non-overlapping occurrence of `pat`. The
    pieces never contain `pat`, there is one more piece than cuts, and gluing
    them back with `pat` gives `s` again.
   */
  function Split(s: string, pat: string): (r: seq<string>)
    requires |pat| > 0
    ensures |r| >= 1
    ensures Join(r, pat) == s
    ensures forall i :: 0 <= i < |r| ==> !Occurs(r[i], pat)
    ensures |r| == 1 <==> !Occurs(s, pat)
    decreases |s|
  {
    match IndexOf(s, pat)
    case None => [s]
    case Some(k) =>
      var rest := Split(s[k + |pat|..], pat);
      CutAtLeftmost(s, pat, k, rest);
      [s[..k]] + rest
  }

  /** One step of `Split`: cutting at the leftmost occurrence keeps its contract. */
  lemma CutAtLeftmost(s: string, pat: string, k: nat, rest: seq<string>)
    requires |pat| > 0
    requires OccursAt(s, pat, k)
    requires forall m :: 0 <= m < k ==> !OccursAt(s, pat, m)
    requires |rest| >= 1 && Join(rest, pat) == s[k + |pat|..]
    requires forall i :: 0 <= i < |rest| ==> !Occurs(rest[i], pat)
    ensures var r := [s[..k]] + rest;
      && |r| >= 2
      && Join(r, pat) == s
      && (forall i :: 0 <= i < |r| ==> !Occurs(r[i], pat))
      && Occurs(s, pat)
  {
    var r := [s[..k]] + rest;
    LeftmostPrefixFree(s, pat, k);
    JoinCons(s[..k], rest, pat);
    assert s == s[..k] + pat + s[k + |pat|..];
    assert forall i :: 1 <= i < |r| ==> r[i] == rest[i - 1];
  }

  /** The text before the leftmost occurrence does not contain the pattern. */
  lemma LeftmostPrefixFree(s: string, pat: string, k: nat)
    requires |pat| > 0 && k <= |s|
    requires forall m :: 0 <= m < k ==> !OccursAt(s, pat, m)
    ensures !Occurs(s[..k], pat)
  {
    forall m | OccursAt(s[..k], pat, m) ensures false {
      OccursAtPrefix(s, pat, k, m);
    }
  }

  lemma JoinCons(x: string, rest: seq<string>, pat: string)
    requires |rest| >= 1
    ensures Join([x] + rest, pat) == x + pat + Join(rest, pat)
  {
    assert ([x] + rest)[1..] == rest;
  }

  /** Splitting yields more than two pieces exactly when `pat` occurs twice. */
  lemma SplitMoreThanTwo(s: string, pat: string)
    requires |pat| > 0
    ensures |Split(s, pat)| > 2 <==> OccursTwice(s, pat)
  {
    if IndexOf(s, pat).Some? {
      var k := IndexOf(s, pat).value;
      var tail := s[k + |pat|..];
      assert |Split(s, pat)| == 1 + |Split(tail, pat)|;
      if Occurs(tail, pat) {
        SecondOccurrence(s, pat, k);
      }
      if OccursTwice(s, pat) {
        OccurrenceAfterLeftmost(s, pat, k);
      }
    }
  }

  lemma SecondOccurrence(s: string, pat: string, k: nat)
    requires OccursAt(s, pat, k)
    requires Occurs(s[k + |pat|..], pat)
    ensures OccursTwice(s, pat)
  {
    var m :| OccursAt(s[k + |pat|..], pat, m);
    OccursAtSuffix(s, pat, k + |pat|, m);
    assert OccursAt(s, pat, k + |pat| + m);
  }

  lemma OccurrenceAfterLeftmost(s: string, pat: string, k: nat)
    requires OccursAt(s, pat, k)
    requires forall m :: 0 <= m < k ==> !OccursAt(s, pat, m)
    requires OccursTwice(s, pat)
    ensures Occurs(s[k + |pat|..], pat)
  {
    var a, b :| OccursAt(s, pat, a) && OccursAt(s, pat, b) && a + |pat| <= b;
    OccursAtSuffix(s, pat, k + |pat|, b - k - |pat|);
    assert OccursAt(s[k + |pat|..], pat, b - k - |pat|);
  }

  /** A string lacking one of the pattern's characters does not contain it. */
  lemma NoOccurrenceWithout(s: string, pat: string, c: char)
    requires c in pat && c !in s
    ensures !Occurs(s, pat)
  {
    var i :| 0 <= i < |pat| && pat[i] == c;
    forall k | 0 <= k && k + |pat| <= |s| ensures !OccursAt(s, pat, k) {
      assert s[k..k + |pat|][i] == s[k + i] != c;
    }
  }

  /** A string without `pat` has no prefix holding it. */
  lemma NoOccurrenceInPrefix(m: string, r: string, pat: string)
    requires !Occurs(m + r, pat)
    ensures !Occurs(m, pat)
  {
    forall k | 0 <= k && k + |pat| <= |m| ensures !OccursAt(m, pat, k) {
      assert !OccursAt(m + r, pat, k);
      assert (m + r)[k..k + |pat|] == m[k..k + |pat|];
    }
  }

  /** A string without `pat` has no suffix holding it. */
  lemma NoOccurrenceInSuffix(l: string, m: string, pat: string)
    requires !Occurs(l + m, pat)
    ensures !Occurs(m, pat)
  {
    forall k | 0 <= k && k + |pat| <= |m| ensures !OccursAt(m, pat, k) {
      assert !OccursAt(l + m, pat, |l| + k);
      assert (l + m)[|l| + k..|l| + k + |pat|] == m[k..k + |pat|];
    }
  }

  /**
    A string with one occurrence of `pat`, no occurrence starting before it
    and none after it, splits into the text before and the text after.
   */
  lemma SplitAround(before: string, pat: string, after: string)
    requires |pat| > 0
    requires !Occurs(before + pat[..|pat| - 1], pat) && !Occurs(after, pat)
    ensures Split(before + pat + after, pat) == [before, after]
  {
    var s := before + pat + after;
    var k := |before|;
    assert s[k..k + |pat|] == pat;
    assert OccursAt(s, pat, k);
    var head := before + pat[..|pat| - 1];
    assert s[..k + |pat| - 1] == head;
    forall m | 0 <= m < k ensures !OccursAt(s, pat, m) {
      OccursAtPrefix(s, pat, k + |pat| - 1, m);
      assert !OccursAt(head, pat, m);
    }
    var r := IndexOf(s, pat);
    assert r.Some? && OccursAt(s, pat, r.value);
    assert r == Some(k);
    assert s[k + |pat|..] == after;
    var rest := Split(after, pat);
    assert |rest| == 1 && Join(rest, pat) == rest[0];
  }
}
