/**
  The encoder on the templates of its unit tests, in every iteration order of
  their maps, and the iteration-order dependence of its duplicate check.
 */
module UrlReplacementExamples {
  import opened Results
  import opened Patterns
  import opened UrlReplacement
  import opened UrlReplacementProofs

  /** No occurrence of `pat` starts inside `before`, when `pat` follows it. */
  ghost predicate NoEarlierStart(before: string, pat: string)
    requires |pat| > 0
  {
    !Occurs(before + pat[..|pat| - 1], pat)
  }

  lemma {:induction false} FirstMatchFromIs(segs: seq<string>, pat: string, i: nat, j: nat)
    requires |pat| > 0 && i % 2 == 0 && j % 2 == 0 && i <= j < |segs|
    requires forall k :: i <= k < j && k % 2 == 0 ==> !Occurs(segs[k], pat)
    requires Occurs(segs[j], pat)
    ensures FirstMatchFrom(segs, pat, i) == Some(j)
    decreases j - i
  {
    if i < j {
      assert !Occurs(segs[i], pat);
      FirstMatchFromIs(segs, pat, i + 2, j);
    }
  }

  /** `Replace` on a list whose first even segment holding `pat` is `segs[j] == before + pat + after`. */
  lemma ReplaceAt(segs: seq<string>, pat: string, v: string, j: nat, before: string, after: string)
    requires |pat| > 0 && j % 2 == 0 && j < |segs|
    requires forall k :: 0 <= k < j && k % 2 == 0 ==> !Occurs(segs[k], pat)
    requires segs[j] == before + pat + after
    requires NoEarlierStart(before, pat) && !Occurs(after, pat)
    ensures Replace(segs, pat, v) == Ok(segs[..j] + [before, v, after] + segs[j + 1..])
  {
    assert OccursAt(segs[j], pat, |before|) by {
      assert segs[j][|before|..|before| + |pat|] == pat;
    }
    FirstMatchFromIs(segs, pat, 0, j);
    ReplaceFromAt(segs, pat, v, 0, j, before, after);
  }

  /** A template with one placeholder. */
  lemma OnePart(a0: string, a1: string, n: string, v: string, values: map<string, Value>)
    requires n in values && ReplacementText(values[n]) == Some(v)
    requires NoEarlierStart(a0, Pattern(n)) && !Occurs(a1, Pattern(n))
    ensures Substitute([a0 + Pattern(n) + a1], values, [n]) == Ok([a0, v, a1])
  {
    var segs := [a0 + Pattern(n) + a1];
    ReplaceAt(segs, Pattern(n), v, 0, a0, a1);
    assert segs[..0] + [a0, v, a1] + segs[1..] == [a0, v, a1];
    assert [n][1..] == [];
  }

  /** One round of the substitution: the part taken first is replaced, then the rest follow. */
  lemma SubstituteStep(segs: seq<string>, next: seq<string>, values: map<string, Value>, order: seq<string>, v: string)
    requires forall n :: n in order ==> n in values
    requires |order| > 0 && ReplacementText(values[order[0]]) == Some(v)
    requires Replace(segs, Pattern(order[0]), v) == Ok(next)
    ensures Substitute(segs, values, order) == Substitute(next, values, order[1..])
  {
  }

  /** Cutting the only segment around `v`. */
  lemma ReplaceOneOfOne(b: string, p: string, a: string, v: string)
    requires |p| > 0 && NoEarlierStart(b, p) && !Occurs(a, p)
    ensures Replace([b + p + a], p, v) == Ok([b, v, a])
  {
    var s := [b + p + a];
    ReplaceAt(s, p, v, 0, b, a);
    assert s[..0] + [b, v, a] + s[1..] == [b, v, a];
  }

  lemma ReplaceFirstOfThree(b: string, p: string, a: string, x: string, y: string, v: string)
    requires |p| > 0 && NoEarlierStart(b, p) && !Occurs(a, p)
    ensures Replace([b + p + a, x, y], p, v) == Ok([b, v, a, x, y])
  {
    var s := [b + p + a, x, y];
    ReplaceAt(s, p, v, 0, b, a);
    assert s[..0] + [b, v, a] + s[1..] == [b, v, a, x, y];
  }

  lemma ReplaceLastOfThree(c: string, x: string, b: string, p: string, a: string, v: string)
    requires |p| > 0 && !Occurs(c, p) && NoEarlierStart(b, p) && !Occurs(a, p)
    ensures Replace([c, x, b + p + a], p, v) == Ok([c, x, b, v, a])
  {
    var s := [c, x, b + p + a];
    ReplaceAt(s, p, v, 2, b, a);
    assert s[..2] + [b, v, a] + s[3..] == [c, x, b, v, a];
  }

  lemma ReplaceFirstOfFive(b: string, p: string, a: string, x: string, y: string, z: string, w: string, v: string)
    requires |p| > 0 && NoEarlierStart(b, p) && !Occurs(a, p)
    ensures Replace([b + p + a, x, y, z, w], p, v) == Ok([b, v, a, x, y, z, w])
  {
    var s := [b + p + a, x, y, z, w];
    ReplaceAt(s, p, v, 0, b, a);
    assert s[..0] + [b, v, a] + s[1..] == [b, v, a, x, y, z, w];
  }

  lemma ReplaceMiddleOfFive(c: string, x: string, b: string, p: string, a: string, y: string, z: string, v: string)
    requires |p| > 0 && !Occurs(c, p) && NoEarlierStart(b, p) && !Occurs(a, p)
    ensures Replace([c, x, b + p + a, y, z], p, v) == Ok([c, x, b, v, a, y, z])
  {
    var s := [c, x, b + p + a, y, z];
    ReplaceAt(s, p, v, 2, b, a);
    assert s[..2] + [b, v, a] + s[3..] == [c, x, b, v, a, y, z];
  }

  lemma ReplaceLastOfFive(c: string, x: string, d: string, y: string, b: string, p: string, a: string, v: string)
    requires |p| > 0 && !Occurs(c, p) && !Occurs(d, p) && NoEarlierStart(b, p) && !Occurs(a, p)
    ensures Replace([c, x, d, y, b + p + a], p, v) == Ok([c, x, d, y, b, v, a])
  {
    var s := [c, x, d, y, b + p + a];
    ReplaceAt(s, p, v, 4, b, a);
    assert s[..4] + [b, v, a] + s[5..] == [c, x, d, y, b, v, a];
  }

  /**
    Each of three placeholders occurs once in the template
    `a0 + p1 + a1 + p2 + a2 + p3 + a3`, at its own place: no occurrence
    starts before it and none lies in the text after it.
   */
  ghost predicate OncePlaced(a0: string, a1: string, a2: string, a3: string, p1: string, p2: string, p3: string) {
    && |p1| > 0 && |p2| > 0 && |p3| > 0
    && NoEarlierStart(a0, p1) && !Occurs(a1 + p2 + a2 + p3 + a3, p1)
    && NoEarlierStart(a0 + p1 + a1, p2) && !Occurs(a2 + p3 + a3, p2)
    && NoEarlierStart(a0 + p1 + a1 + p2 + a2, p3) && !Occurs(a3, p3)
  }

  /** What `OncePlaced` says about the shorter pieces a partial substitution leaves. */
  lemma OncePlacedPieces(a0: string, a1: string, a2: string, a3: string, p1: string, p2: string, p3: string)
    requires OncePlaced(a0, a1, a2, a3, p1, p2, p3)
    ensures !Occurs(a1, p1) && !Occurs(a1 + p2 + a2, p1)
    ensures !Occurs(a0, p2) && NoEarlierStart(a1, p2) && !Occurs(a2, p2)
    ensures !Occurs(a0, p3) && !Occurs(a1, p3) && !Occurs(a0 + p1 + a1, p3)
    ensures NoEarlierStart(a2, p3) && NoEarlierStart(a1 + p2 + a2, p3)
  {
    var q2, q3 := p2[..|p2| - 1], p3[..|p3| - 1];
    assert a1 + p2 + a2 + p3 + a3 == (a1 + p2 + a2) + (p3 + a3);
    NoOccurrenceInPrefix(a1 + p2 + a2, p3 + a3, p1);
    assert a1 + p2 + a2 == a1 + (p2 + a2);
    NoOccurrenceInPrefix(a1, p2 + a2, p1);

    assert a0 + p1 + a1 + q2 == a0 + (p1 + a1 + q2);
    NoOccurrenceInPrefix(a0, p1 + a1 + q2, p2);
    assert a0 + p1 + a1 + q2 == (a0 + p1) + (a1 + q2);
    NoOccurrenceInSuffix(a0 + p1, a1 + q2, p2);
    assert a2 + p3 + a3 == a2 + (p3 + a3);
    NoOccurrenceInPrefix(a2, p3 + a3, p2);

    var l3 := a0 + p1 + a1 + p2 + a2 + q3;
    assert l3 == (a0 + p1 + a1) + (p2 + a2 + q3);
    NoOccurrenceInPrefix(a0 + p1 + a1, p2 + a2 + q3, p3);
    assert a0 + p1 + a1 == a0 + (p1 + a1);
    NoOccurrenceInPrefix(a0, p1 + a1, p3);
    NoOccurrenceInSuffix(a0 + p1, a1, p3);
    assert l3 == (a0 + p1) + (a1 + p2 + a2 + q3);
    NoOccurrenceInSuffix(a0 + p1, a1 + p2 + a2 + q3, p3);
    assert a1 + p2 + a2 + q3 == (a1 + p2) + (a2 + q3);
    NoOccurrenceInSuffix(a1 + p2, a2 + q3, p3);
  }

  /** The replacements made when the three parts are taken in the order 1, 2, 3. */
  lemma Steps123(a0: string, a1: string, a2: string, a3: string, p1: string, p2: string, p3: string,
                 v1: string, v2: string, v3: string)
    requires OncePlaced(a0, a1, a2, a3, p1, p2, p3)
    ensures Replace([a0 + p1 + a1 + p2 + a2 + p3 + a3], p1, v1) == Ok([a0, v1, a1 + p2 + a2 + p3 + a3])
    ensures Replace([a0, v1, a1 + p2 + a2 + p3 + a3], p2, v2) == Ok([a0, v1, a1, v2, a2 + p3 + a3])
    ensures Replace([a0, v1, a1, v2, a2 + p3 + a3], p3, v3) == Ok([a0, v1, a1, v2, a2, v3, a3])
  {
    OncePlacedPieces(a0, a1, a2, a3, p1, p2, p3);
    var r1 := a1 + p2 + a2 + p3 + a3;
    assert a0 + p1 + a1 + p2 + a2 + p3 + a3 == a0 + p1 + r1;
    ReplaceOneOfOne(a0, p1, r1, v1);
    assert r1 == a1 + p2 + (a2 + p3 + a3);
    ReplaceLastOfThree(a0, v1, a1, p2, a2 + p3 + a3, v2);
    ReplaceLastOfFive(a0, v1, a1, v2, a2, p3, a3, v3);
  }

  lemma Order123(a0: string, a1: string, a2: string, a3: string, n1: string, n2: string, n3: string,
                 v1: string, v2: string, v3: string, values: map<string, Value>)
    requires n1 in values && ReplacementText(values[n1]) == Some(v1)
    requires n2 in values && ReplacementText(values[n2]) == Some(v2)
    requires n3 in values && ReplacementText(values[n3]) == Some(v3)
    requires OncePlaced(a0, a1, a2, a3, Pattern(n1), Pattern(n2), Pattern(n3))
    ensures Substitute([a0 + Pattern(n1) + a1 + Pattern(n2) + a2 + Pattern(n3) + a3], values, [n1, n2, n3])
         == Ok([a0, v1, a1, v2, a2, v3, a3])
  {
    var p1, p2, p3 := Pattern(n1), Pattern(n2), Pattern(n3);
    Steps123(a0, a1, a2, a3, p1, p2, p3, v1, v2, v3);
    SubstituteThree([a0 + p1 + a1 + p2 + a2 + p3 + a3], [a0, v1, a1 + p2 + a2 + p3 + a3],
                    [a0, v1, a1, v2, a2 + p3 + a3], [a0, v1, a1, v2, a2, v3, a3],
                    n1, n2, n3, v1, v2, v3, values);
  }

  /** The replacements made when the three parts are taken in the order 1, 3, 2. */
  lemma Steps132(a0: string, a1: string, a2: string, a3: string, p1: string, p2: string, p3: string,
                 v1: string, v2: string, v3: string)
    requires OncePlaced(a0, a1, a2, a3, p1, p2, p3)
    ensures Replace([a0 + p1 + a1 + p2 + a2 + p3 + a3], p1, v1) == Ok([a0, v1, a1 + p2 + a2 + p3 + a3])
    ensures Replace([a0, v1, a1 + p2 + a2 + p3 + a3], p3, v3) == Ok([a0, v1, a1 + p2 + a2, v3, a3])
    ensures Replace([a0, v1, a1 + p2 + a2, v3, a3], p2, v2) == Ok([a0, v1, a1, v2, a2, v3, a3])
  {
    OncePlacedPieces(a0, a1, a2, a3, p1, p2, p3);
    var r1 := a1 + p2 + a2 + p3 + a3;
    assert a0 + p1 + a1 + p2 + a2 + p3 + a3 == a0 + p1 + r1;
    ReplaceOneOfOne(a0, p1, r1, v1);
    ReplaceLastOfThree(a0, v1, a1 + p2 + a2, p3, a3, v3);
    ReplaceMiddleOfFive(a0, v1, a1, p2, a2, v3, a3, v2);
  }

  lemma Order132(a0: string, a1: string, a2: string, a3: string, n1: string, n2: string, n3: string,
                 v1: string, v2: string, v3: string, values: map<string, Value>)
    requires n1 in values && ReplacementText(values[n1]) == Some(v1)
    requires n2 in values && ReplacementText(values[n2]) == Some(v2)
    requires n3 in values && ReplacementText(values[n3]) == Some(v3)
    requires OncePlaced(a0, a1, a2, a3, Pattern(n1), Pattern(n2), Pattern(n3))
    ensures Substitute([a0 + Pattern(n1) + a1 + Pattern(n2) + a2 + Pattern(n3) + a3], values, [n1, n3, n2])
         == Ok([a0, v1, a1, v2, a2, v3, a3])
  {
    var p1, p2, p3 := Pattern(n1), Pattern(n2), Pattern(n3);
    Steps132(a0, a1, a2, a3, p1, p2, p3, v1, v2, v3);
    SubstituteThree([a0 + p1 + a1 + p2 + a2 + p3 + a3], [a0, v1, a1 + p2 + a2 + p3 + a3],
                    [a0, v1, a1 + p2 + a2, v3, a3], [a0, v1, a1, v2, a2, v3, a3],
                    n1, n3, n2, v1, v3, v2, values);
  }

  /** The replacements made when the three parts are taken in the order 2, 1, 3. */
  lemma Steps213(a0: string, a1: string, a2: string, a3: string, p1: string, p2: string, p3: string,
                 v1: string, v2: string, v3: string)
    requires OncePlaced(a0, a1, a2, a3, p1, p2, p3)
    ensures Replace([a0 + p1 + a1 + p2 + a2 + p3 + a3], p2, v2) == Ok([a0 + p1 + a1, v2, a2 + p3 + a3])
    ensures Replace([a0 + p1 + a1, v2, a2 + p3 + a3], p1, v1) == Ok([a0, v1, a1, v2, a2 + p3 + a3])
    ensures Replace([a0, v1, a1, v2, a2 + p3 + a3], p3, v3) == Ok([a0, v1, a1, v2, a2, v3, a3])
  {
    OncePlacedPieces(a0, a1, a2, a3, p1, p2, p3);
    var l2, r2 := a0 + p1 + a1, a2 + p3 + a3;
    assert a0 + p1 + a1 + p2 + a2 + p3 + a3 == l2 + p2 + r2;
    ReplaceOneOfOne(l2, p2, r2, v2);
    ReplaceFirstOfThree(a0, p1, a1, v2, r2, v1);
    ReplaceLastOfFive(a0, v1, a1, v2, a2, p3, a3, v3);
  }

  lemma Order213(a0: string, a1: string, a2: string, a3: string, n1: string, n2: string, n3: string,
                 v1: string, v2: string, v3: string, values: map<string, Value>)
    requires n1 in values && ReplacementText(values[n1]) == Some(v1)
    requires n2 in values && ReplacementText(values[n2]) == Some(v2)
    requires n3 in values && ReplacementText(values[n3]) == Some(v3)
    requires OncePlaced(a0, a1, a2, a3, Pattern(n1), Pattern(n2), Pattern(n3))
    ensures Substitute([a0 + Pattern(n1) + a1 + Pattern(n2) + a2 + Pattern(n3) + a3], values, [n2, n1, n3])
         == Ok([a0, v1, a1, v2, a2, v3, a3])
  {
    var p1, p2, p3 := Pattern(n1), Pattern(n2), Pattern(n3);
    Steps213(a0, a1, a2, a3, p1, p2, p3, v1, v2, v3);
    SubstituteThree([a0 + p1 + a1 + p2 + a2 + p3 + a3], [a0 + p1 + a1, v2, a2 + p3 + a3],
                    [a0, v1, a1, v2, a2 + p3 + a3], [a0, v1, a1, v2, a2, v3, a3],
                    n2, n1, n3, v2, v1, v3, values);
  }

  /** The replacements made when the three parts are taken in the order 2, 3, 1. */
  lemma Steps231(a0: string, a1: string, a2: string, a3: string, p1: string, p2: string, p3: string,
                 v1: string, v2: string, v3: string)
    requires OncePlaced(a0, a1, a2, a3, p1, p2, p3)
    ensures Replace([a0 + p1 + a1 + p2 + a2 + p3 + a3], p2, v2) == Ok([a0 + p1 + a1, v2, a2 + p3 + a3])
    ensures Replace([a0 + p1 + a1, v2, a2 + p3 + a3], p3, v3) == Ok([a0 + p1 + a1, v2, a2, v3, a3])
    ensures Replace([a0 + p1 + a1, v2, a2, v3, a3], p1, v1) == Ok([a0, v1, a1, v2, a2, v3, a3])
  {
    OncePlacedPieces(a0, a1, a2, a3, p1, p2, p3);
    var l2, r2 := a0 + p1 + a1, a2 + p3 + a3;
    assert a0 + p1 + a1 + p2 + a2 + p3 + a3 == l2 + p2 + r2;
    ReplaceOneOfOne(l2, p2, r2, v2);
    ReplaceLastOfThree(l2, v2, a2, p3, a3, v3);
    ReplaceFirstOfFive(a0, p1, a1, v2, a2, v3, a3, v1);
  }

  lemma Order231(a0: string, a1: string, a2: string, a3: string, n1: string, n2: string, n3: string,
                 v1: string, v2: string, v3: string, values: map<string, Value>)
    requires n1 in values && ReplacementText(values[n1]) == Some(v1)
    requires n2 in values && ReplacementText(values[n2]) == Some(v2)
    requires n3 in values && ReplacementText(values[n3]) == Some(v3)
    requires OncePlaced(a0, a1, a2, a3, Pattern(n1), Pattern(n2), Pattern(n3))
    ensures Substitute([a0 + Pattern(n1) + a1 + Pattern(n2) + a2 + Pattern(n3) + a3], values, [n2, n3, n1])
         == Ok([a0, v1, a1, v2, a2, v3, a3])
  {
    var p1, p2, p3 := Pattern(n1), Pattern(n2), Pattern(n3);
    Steps231(a0, a1, a2, a3, p1, p2, p3, v1, v2, v3);
    SubstituteThree([a0 + p1 + a1 + p2 + a2 + p3 + a3], [a0 + p1 + a1, v2, a2 + p3 + a3],
                    [a0 + p1 + a1, v2, a2, v3, a3], [a0, v1, a1, v2, a2, v3, a3],
                    n2, n3, n1, v2, v3, v1, values);
  }

  /** The replacements made when the three parts are taken in the order 3, 1, 2. */
  lemma Steps312(a0: string, a1: string, a2: string, a3: string, p1: string, p2: string, p3: string,
                 v1: string, v2: string, v3: string)
    requires OncePlaced(a0, a1, a2, a3, p1, p2, p3)
    ensures Replace([a0 + p1 + a1 + p2 + a2 + p3 + a3], p3, v3) == Ok([a0 + p1 + a1 + p2 + a2, v3, a3])
    ensures Replace([a0 + p1 + a1 + p2 + a2, v3, a3], p1, v1) == Ok([a0, v1, a1 + p2 + a2, v3, a3])
    ensures Replace([a0, v1, a1 + p2 + a2, v3, a3], p2, v2) == Ok([a0, v1, a1, v2, a2, v3, a3])
  {
    OncePlacedPieces(a0, a1, a2, a3, p1, p2, p3);
    var l3 := a0 + p1 + a1 + p2 + a2;
    ReplaceOneOfOne(l3, p3, a3, v3);
    assert l3 == a0 + p1 + (a1 + p2 + a2);
    ReplaceFirstOfThree(a0, p1, a1 + p2 + a2, v3, a3, v1);
    ReplaceMiddleOfFive(a0, v1, a1, p2, a2, v3, a3, v2);
  }

  lemma Order312(a0: string, a1: string, a2: string, a3: string, n1: string, n2: string, n3: string,
                 v1: string, v2: string, v3: string, values: map<string, Value>)
    requires n1 in values && ReplacementText(values[n1]) == Some(v1)
    requires n2 in values && ReplacementText(values[n2]) == Some(v2)
    requires n3 in values && ReplacementText(values[n3]) == Some(v3)
    requires OncePlaced(a0, a1, a2, a3, Pattern(n1), Pattern(n2), Pattern(n3))
    ensures Substitute([a0 + Pattern(n1) + a1 + Pattern(n2) + a2 + Pattern(n3) + a3], values, [n3, n1, n2])
         == Ok([a0, v1, a1, v2, a2, v3, a3])
  {
    var p1, p2, p3 := Pattern(n1), Pattern(n2), Pattern(n3);
    Steps312(a0, a1, a2, a3, p1, p2, p3, v1, v2, v3);
    SubstituteThree([a0 + p1 + a1 + p2 + a2 + p3 + a3], [a0 + p1 + a1 + p2 + a2, v3, a3],
                    [a0, v1, a1 + p2 + a2, v3, a3], [a0, v1, a1, v2, a2, v3, a3],
                    n3, n1, n2, v3, v1, v2, values);
  }

  /** The replacements made when the three parts are taken in the order 3, 2, 1. */
  lemma Steps321(a0: string, a1: string, a2: string, a3: string, p1: string, p2: string, p3: string,
                 v1: string, v2: string, v3: string)
    requires OncePlaced(a0, a1, a2, a3, p1, p2, p3)
    ensures Replace([a0 + p1 + a1 + p2 + a2 + p3 + a3], p3, v3) == Ok([a0 + p1 + a1 + p2 + a2, v3, a3])
    ensures Replace([a0 + p1 + a1 + p2 + a2, v3, a3], p2, v2) == Ok([a0 + p1 + a1, v2, a2, v3, a3])
    ensures Replace([a0 + p1 + a1, v2, a2, v3, a3], p1, v1) == Ok([a0, v1, a1, v2, a2, v3, a3])
  {
    OncePlacedPieces(a0, a1, a2, a3, p1, p2, p3);
    var l2, l3 := a0 + p1 + a1, a0 + p1 + a1 + p2 + a2;
    ReplaceOneOfOne(l3, p3, a3, v3);
    assert l3 == l2 + p2 + a2;
    ReplaceFirstOfThree(l2, p2, a2, v3, a3, v2);
    ReplaceFirstOfFive(a0, p1, a1, v2, a2, v3, a3, v1);
  }

  lemma Order321(a0: string, a1: string, a2: string, a3: string, n1: string, n2: string, n3: string,
                 v1: string, v2: string, v3: string, values: map<string, Value>)
    requires n1 in values && ReplacementText(values[n1]) == Some(v1)
    requires n2 in values && ReplacementText(values[n2]) == Some(v2)
    requires n3 in values && ReplacementText(values[n3]) == Some(v3)
    requires OncePlaced(a0, a1, a2, a3, Pattern(n1), Pattern(n2), Pattern(n3))
    ensures Substitute([a0 + Pattern(n1) + a1 + Pattern(n2) + a2 + Pattern(n3) + a3], values, [n3, n2, n1])
         == Ok([a0, v1, a1, v2, a2, v3, a3])
  {
    var p1, p2, p3 := Pattern(n1), Pattern(n2), Pattern(n3);
    Steps321(a0, a1, a2, a3, p1, p2, p3, v1, v2, v3);
    SubstituteThree([a0 + p1 + a1 + p2 + a2 + p3 + a3], [a0 + p1 + a1 + p2 + a2, v3, a3],
                    [a0 + p1 + a1, v2, a2, v3, a3], [a0, v1, a1, v2, a2, v3, a3],
                    n3, n2, n1, v3, v2, v1, values);
  }

  /** A list naming each of three different names exactly once is one of their six orders. */
  lemma OrdersOfThree(order: seq<string>, n1: string, n2: string, n3: string)
    requires n1 != n2 && n1 != n3 && n2 != n3
    requires Enumerates(order, {n1, n2, n3})
    ensures || order == [n1, n2, n3] || order == [n1, n3, n2]
            || order == [n2, n1, n3] || order == [n2, n3, n1]
            || order == [n3, n1, n2] || order == [n3, n2, n1]
  {
    DistinctCountsOnce(order);
    assert multiset(order) == multiset{n1, n2, n3};
    assert |order| == |multiset(order)| == 3;
    assert order == [order[0], order[1], order[2]];
    assert order[0] in {n1, n2, n3} && order[1] in {n1, n2, n3} && order[2] in {n1, n2, n3};
  }

  /**
    A template with three placeholders, each occurring once at its own
    place, substitutes to the same seven segments whatever order the parts
    are taken in.
   */
  lemma ThreeParts(t: string, a0: string, a1: string, a2: string, a3: string, n1: string, n2: string, n3: string,
                   v1: string, v2: string, v3: string, values: map<string, Value>, order: seq<string>)
    requires n1 in values && ReplacementText(values[n1]) == Some(v1)
    requires n2 in values && ReplacementText(values[n2]) == Some(v2)
    requires n3 in values && ReplacementText(values[n3]) == Some(v3)
    requires n1 != n2 && n1 != n3 && n2 != n3 && Enumerates(order, {n1, n2, n3})
    requires t == a0 + Pattern(n1) + a1 + Pattern(n2) + a2 + Pattern(n3) + a3
    requires OncePlaced(a0, a1, a2, a3, Pattern(n1), Pattern(n2), Pattern(n3))
    ensures Substitute([t], values, order) == Ok([a0, v1, a1, v2, a2, v3, a3])
  {
    OrdersOfThree(order, n1, n2, n3);
    if order == [n1, n2, n3] {
      Order123(a0, a1, a2, a3, n1, n2, n3, v1, v2, v3, values);
    } else if order == [n1, n3, n2] {
      Order132(a0, a1, a2, a3, n1, n2, n3, v1, v2, v3, values);
    } else if order == [n2, n1, n3] {
      Order213(a0, a1, a2, a3, n1, n2, n3, v1, v2, v3, values);
    } else if order == [n2, n3, n1] {
      Order231(a0, a1, a2, a3, n1, n2, n3, v1, v2, v3, values);
    } else if order == [n3, n1, n2] {
      Order312(a0, a1, a2, a3, n1, n2, n3, v1, v2, v3, values);
    } else {
      Order321(a0, a1, a2, a3, n1, n2, n3, v1, v2, v3, values);
    }
  }

  /** Three rounds of the substitution, one per part, in the given order. */
  lemma SubstituteThree(s0: seq<string>, s1: seq<string>, s2: seq<string>, s3: seq<string>,
                        n1: string, n2: string, n3: string, v1: string, v2: string, v3: string,
                        values: map<string, Value>)
    requires n1 in values && ReplacementText(values[n1]) == Some(v1)
    requires n2 in values && ReplacementText(values[n2]) == Some(v2)
    requires n3 in values && ReplacementText(values[n3]) == Some(v3)
    requires Replace(s0, Pattern(n1), v1) == Ok(s1)
    requires Replace(s1, Pattern(n2), v2) == Ok(s2)
    requires Replace(s2, Pattern(n3), v3) == Ok(s3)
    ensures Substitute(s0, values, [n1, n2, n3]) == Ok(s3)
  {
    var order := [n1, n2, n3];
    assert order[1..] == [n2, n3] && order[1..][1..] == [n3];
    SubstituteStep(s0, s1, values, order, v1);
    SubstituteStep(s1, s2, values, [n2, n3], v2);
    SubstituteStep(s2, s3, values, [n3], v3);
  }

  /** Once the key sets agree, `Transform` is the concatenation of what `Substitute` built. */
  lemma TransformOfSubstitute(t: Transformer, baseUri: string, values: map<string, Value>, order: seq<string>,
                              segs: seq<string>)
    requires Enumerates(order, values.Keys) && values.Keys == t.partNames
    requires Substitute([baseUri], values, order) == Ok(segs)
    ensures Transform(t, baseUri, values, order) == Ok(Concat(segs))
  {
  }

  /** No occurrence of `pat` starts inside `before` when `pat[i]` is not in `before + pat[..i]`. */
  lemma NoEarlierStartBy(before: string, pat: string, i: nat)
    requires i < |pat| && pat[i] !in before + pat[..i]
    ensures NoEarlierStart(before, pat)
  {
    var s := before + pat[..|pat| - 1];
    var h := before + pat[..i];
    forall k | 0 <= k && k + |pat| <= |s| ensures !OccursAt(s, pat, k) {
      assert s[k + i] == h[k + i];
      assert s[k..k + |pat|][i] == s[k + i];
    }
  }

  /**
    The placeholders of `part1`, `part2` and `part3`, in that order, each
    occur once in a template whose pieces hold none of the digits of a later
    name, and whose first piece holds no closing parenthesis.
   */
  lemma PartsOncePlaced(a0: string, a1: string, a2: string, a3: string)
    requires ')' !in a0 && '2' !in a0 && '3' !in a0
    requires '1' !in a1 + a2 + a3 && '2' !in a1 + a2 + a3 && '3' !in a1 + a2 + a3
    ensures OncePlaced(a0, a1, a2, a3, Pattern("part1"), Pattern("part2"), Pattern("part3"))
  {
    FirstPartOnce(a0, a1, a2, a3);
    SecondPartOnce(a0, a1, a2, a3);
    ThirdPartOnce(a0, a1, a2, a3);
  }

  lemma FirstPartOnce(a0: string, a1: string, a2: string, a3: string)
    requires ')' !in a0 && '1' !in a1 + a2 + a3
    ensures NoEarlierStart(a0, Pattern("part1"))
    ensures !Occurs(a1 + Pattern("part2") + a2 + Pattern("part3") + a3, Pattern("part1"))
  {
    var p1, p2, p3 := Pattern("part1"), Pattern("part2"), Pattern("part3");
    assert p1 == "(part1)" && p2 == "(part2)" && p3 == "(part3)";
    assert ')' !in a0 + p1[..6] by { assert p1[..6] == "(part1"; }
    NoEarlierStartBy(a0, p1, 6);
    assert '1' !in a1 + p2 + a2 + p3 + a3;
    NoOccurrenceWithout(a1 + p2 + a2 + p3 + a3, p1, '1');
  }

  lemma SecondPartOnce(a0: string, a1: string, a2: string, a3: string)
    requires '2' !in a0 && '2' !in a1 + a2 + a3
    ensures NoEarlierStart(a0 + Pattern("part1") + a1, Pattern("part2"))
    ensures !Occurs(a2 + Pattern("part3") + a3, Pattern("part2"))
  {
    var p1, p2, p3 := Pattern("part1"), Pattern("part2"), Pattern("part3");
    assert p1 == "(part1)" && p2 == "(part2)" && p3 == "(part3)";
    assert '2' !in a0 + p1 + a1 + p2[..5] by { assert p2[..5] == "(part"; }
    NoEarlierStartBy(a0 + p1 + a1, p2, 5);
    assert '2' !in a2 + p3 + a3;
    NoOccurrenceWithout(a2 + p3 + a3, p2, '2');
  }

  lemma ThirdPartOnce(a0: string, a1: string, a2: string, a3: string)
    requires '3' !in a0 && '3' !in a1 + a2 + a3
    ensures NoEarlierStart(a0 + Pattern("part1") + a1 + Pattern("part2") + a2, Pattern("part3"))
    ensures !Occurs(a3, Pattern("part3"))
  {
    var p1, p2, p3 := Pattern("part1"), Pattern("part2"), Pattern("part3");
    assert p1 == "(part1)" && p2 == "(part2)" && p3 == "(part3)";
    assert '3' !in a0 + p1 + a1 + p2 + a2 + p3[..5] by { assert p3[..5] == "(part"; }
    NoEarlierStartBy(a0 + p1 + a1 + p2 + a2, p3, 5);
    NoOccurrenceWithout(a3, p3, '3');
  }

  /** The template shared by most of the unit tests. */
  const Template := "o1/A(part1)B(part2)/(part3)"

  /** A map over the three part names of the unit tests. */
  lemma ThreeKeys(values: map<string, Value>, x1: Value, x2: Value, x3: Value)
    requires values == map["part1" := x1, "part2" := x2, "part3" := x3]
    ensures values.Keys == {"part1", "part2", "part3"}
  {
    assert values.Keys == {"part1", "part2", "part3"};
  }

  /** `Template` as its pieces and placeholders. */
  lemma TemplatePieces()
    ensures "o1/A" + Pattern("part1") + "B" + Pattern("part2") + "/" + Pattern("part3") + "" == Template
  {
  }

  /** Each placeholder of `Template` occurs there once, at its own place. */
  lemma TemplateOnce()
    ensures OncePlaced("o1/A", "B", "/", "", Pattern("part1"), Pattern("part2"), Pattern("part3"))
  {
    PartsOncePlaced("o1/A", "B", "/", "");
  }

  /** `Template`, its parts taken in any order, whatever their simple values. */
  lemma TemplateSubstitute(values: map<string, Value>, order: seq<string>, v1: string, v2: string, v3: string)
    requires "part1" in values && ReplacementText(values["part1"]) == Some(v1)
    requires "part2" in values && ReplacementText(values["part2"]) == Some(v2)
    requires "part3" in values && ReplacementText(values["part3"]) == Some(v3)
    requires Enumerates(order, {"part1", "part2", "part3"})
    ensures Substitute([Template], values, order) == Ok(["o1/A", v1, "B", v2, "/", v3, ""])
  {
    TemplatePieces();
    TemplateOnce();
    ThreeParts(Template, "o1/A", "B", "/", "", "part1", "part2", "part3", v1, v2, v3, values, order);
  }

  lemma ConcatSeven(a0: string, v1: string, a1: string, v2: string, a2: string, v3: string, a3: string)
    ensures Concat([a0, v1, a1, v2, a2, v3, a3]) == a0 + (v1 + (a1 + (v2 + (a2 + (v3 + a3)))))
  {
    assert Concat([a3]) == a3 by { assert [a3][1..] == []; }
    assert Concat([v3, a3]) == v3 + a3 by { assert [v3, a3][1..] == [a3]; }
    assert Concat([a2, v3, a3]) == a2 + Concat([v3, a3]) by { assert [a2, v3, a3][1..] == [v3, a3]; }
    assert Concat([v2, a2, v3, a3]) == v2 + Concat([a2, v3, a3]) by { assert [v2, a2, v3, a3][1..] == [a2, v3, a3]; }
    assert Concat([a1, v2, a2, v3, a3]) == a1 + Concat([v2, a2, v3, a3])
      by { assert [a1, v2, a2, v3, a3][1..] == [v2, a2, v3, a3]; }
    assert Concat([v1, a1, v2, a2, v3, a3]) == v1 + Concat([a1, v2, a2, v3, a3])
      by { assert [v1, a1, v2, a2, v3, a3][1..] == [a1, v2, a2, v3, a3]; }
    assert Concat([a0, v1, a1, v2, a2, v3, a3]) == a0 + Concat([v1, a1, v2, a2, v3, a3])
      by { assert [a0, v1, a1, v2, a2, v3, a3][1..] == [v1, a1, v2, a2, v3, a3]; }
  }

  /**
    `Template` with any three simple values, taken in any order: each
    placeholder gives way to its value, and a value that spells another
    placeholder stays as it is.
   */
  lemma TemplateCase(t: Transformer, values: map<string, Value>, order: seq<string>, v1: string, v2: string, v3: string)
    requires t == Transformer({"part1", "part2", "part3"})
    requires values.Keys == {"part1", "part2", "part3"} && Enumerates(order, values.Keys)
    requires ReplacementText(values["part1"]) == Some(v1)
    requires ReplacementText(values["part2"]) == Some(v2)
    requires ReplacementText(values["part3"]) == Some(v3)
    ensures Transform(t, Template, values, order) == Ok("o1/A" + (v1 + ("B" + (v2 + ("/" + v3)))))
  {
    TemplateSubstitute(values, order, v1, v2, v3);
    TransformOfSubstitute(t, Template, values, order, ["o1/A", v1, "B", v2, "/", v3, ""]);
    ConcatSeven("o1/A", v1, "B", v2, "/", v3, "");
    assert v3 + "" == v3;
  }

  /** `Template` with the values "tutu", "titi" and "toto". */
  lemma RegularCase(t: Transformer, values: map<string, Value>, order: seq<string>)
    requires t == Transformer({"part1", "part2", "part3"})
    requires values == map["part1" := Text("tutu"), "part2" := Text("titi"), "part3" := Text("toto")]
    requires Enumerates(order, values.Keys)
    ensures Transform(t, Template, values, order) == Ok("o1/AtutuBtiti/toto")
  {
    ThreeKeys(values, Text("tutu"), Text("titi"), Text("toto"));
    TemplateCase(t, values, order, "tutu", "titi", "toto");
    RegularText();
  }

  lemma RegularText()
    ensures "o1/A" + ("tutu" + ("B" + ("titi" + ("/" + "toto")))) == "o1/AtutuBtiti/toto"
  {
  }

  /** `Template` with the values "3", "14" and "159". */
  lemma NumericCase(t: Transformer, values: map<string, Value>, order: seq<string>)
    requires t == Transformer({"part1", "part2", "part3"})
    requires values == map["part1" := Text("3"), "part2" := Text("14"), "part3" := Text("159")]
    requires Enumerates(order, values.Keys)
    ensures Transform(t, Template, values, order) == Ok("o1/A3B14/159")
  {
    ThreeKeys(values, Text("3"), Text("14"), Text("159"));
    TemplateCase(t, values, order, "3", "14", "159");
    NumericText();
  }

  lemma NumericText()
    ensures "o1/A" + ("3" + ("B" + ("14" + ("/" + "159")))) == "o1/A3B14/159"
  {
  }

  /** `Template` with three empty elements: every placeholder disappears. */
  lemma EmptyValuesCase(t: Transformer, values: map<string, Value>, order: seq<string>)
    requires t == Transformer({"part1", "part2", "part3"})
    requires values == map["part1" := Empty, "part2" := Empty, "part3" := Empty]
    requires Enumerates(order, values.Keys)
    ensures Transform(t, Template, values, order) == Ok("o1/AB/")
  {
    ThreeKeys(values, Empty, Empty, Empty);
    TemplateCase(t, values, order, "", "", "");
    assert "o1/A" + ("" + ("B" + ("" + ("/" + "")))) == "o1/AB/";
  }

  /** A template that starts and ends with a placeholder. */
  const Ends := "(part1)B(part2)/(part3)"

  /** `Ends` as its pieces and placeholders. */
  lemma EndsPieces()
    ensures "" + Pattern("part1") + "B" + Pattern("part2") + "/" + Pattern("part3") + "" == Ends
  {
  }

  /** Each placeholder of `Ends` occurs there once, at its own place. */
  lemma EndsOnce()
    ensures OncePlaced("", "B", "/", "", Pattern("part1"), Pattern("part2"), Pattern("part3"))
  {
    PartsOncePlaced("", "B", "/", "");
  }

  lemma EndsSubstitute(values: map<string, Value>, order: seq<string>, v1: string, v2: string, v3: string)
    requires "part1" in values && ReplacementText(values["part1"]) == Some(v1)
    requires "part2" in values && ReplacementText(values["part2"]) == Some(v2)
    requires "part3" in values && ReplacementText(values["part3"]) == Some(v3)
    requires Enumerates(order, {"part1", "part2", "part3"})
    ensures Substitute([Ends], values, order) == Ok(["", v1, "B", v2, "/", v3, ""])
  {
    EndsPieces();
    EndsOnce();
    ThreeParts(Ends, "", "B", "/", "", "part1", "part2", "part3", v1, v2, v3, values, order);
  }

  /** `Ends` with any three simple values, taken in any order: the empty first and last pieces vanish. */
  lemma EndsAny(t: Transformer, values: map<string, Value>, order: seq<string>, v1: string, v2: string, v3: string)
    requires t == Transformer({"part1", "part2", "part3"})
    requires values.Keys == {"part1", "part2", "part3"} && Enumerates(order, values.Keys)
    requires ReplacementText(values["part1"]) == Some(v1)
    requires ReplacementText(values["part2"]) == Some(v2)
    requires ReplacementText(values["part3"]) == Some(v3)
    ensures Transform(t, Ends, values, order) == Ok(v1 + ("B" + (v2 + ("/" + v3))))
  {
    EndsSubstitute(values, order, v1, v2, v3);
    TransformOfSubstitute(t, Ends, values, order, ["", v1, "B", v2, "/", v3, ""]);
    ConcatSeven("", v1, "B", v2, "/", v3, "");
    assert "" + (v1 + ("B" + (v2 + ("/" + (v3 + ""))))) == v1 + ("B" + (v2 + ("/" + v3)));
  }

  /** `Ends` with the values "3", "14" and "159". */
  lemma EndsCase(t: Transformer, values: map<string, Value>, order: seq<string>)
    requires t == Transformer({"part1", "part2", "part3"})
    requires values == map["part1" := Text("3"), "part2" := Text("14"), "part3" := Text("159")]
    requires Enumerates(order, values.Keys)
    ensures Transform(t, Ends, values, order) == Ok("3B14/159")
  {
    ThreeKeys(values, Text("3"), Text("14"), Text("159"));
    EndsAny(t, values, order, "3", "14", "159");
    EndsText();
  }

  lemma EndsText()
    ensures "3" + ("B" + ("14" + ("/" + "159"))) == "3B14/159"
  {
  }

  lemma SinglePartSubstitute(values: map<string, Value>, v: string)
    requires "part1" in values && ReplacementText(values["part1"]) == Some(v)
    ensures Substitute(["(part1)"], values, ["part1"]) == Ok(["", v, ""])
  {
    assert "" + Pattern("part1") + "" == "(part1)";
    assert "" + Pattern("part1")[..|Pattern("part1")| - 1] == "(part1";
    NoOccurrenceWithout("(part1", "(part1)", ')');
    NoOccurrenceWithout("", "(part1)", '(');
    OnePart("", "", "part1", v, values);
  }

  lemma ConcatThree(a0: string, v: string, a1: string)
    ensures Concat([a0, v, a1]) == a0 + (v + a1)
  {
    assert Concat([a1]) == a1 by { assert [a1][1..] == []; }
    assert Concat([v, a1]) == v + a1 by { assert [v, a1][1..] == [a1]; }
    assert Concat([a0, v, a1]) == a0 + Concat([v, a1]) by { assert [a0, v, a1][1..] == [v, a1]; }
  }

  /** A template holding only a placeholder encodes to the value alone. */
  lemma SinglePartCase(t: Transformer, values: map<string, Value>, v: string)
    requires t == Transformer({"part1"}) && values == map["part1" := Text(v)]
    ensures Enumerates(["part1"], values.Keys)
    ensures Transform(t, "(part1)", values, ["part1"]) == Ok(v)
  {
    assert values.Keys == {"part1"};
    SinglePartSubstitute(values, v);
    TransformOfSubstitute(t, "(part1)", values, ["part1"], ["", v, ""]);
    ConcatThree("", v, "");
    assert "" + (v + "") == v;
  }

  /** The template of the unit tests with every placeholder doubled in parentheses. */
  const Parenthesised := "o1/A((part1))B((part2))/((part3))"

  /** `Parenthesised` as its pieces and placeholders. */
  lemma ParenthesisedPieces()
    ensures "o1/A(" + Pattern("part1") + ")B(" + Pattern("part2") + ")/(" + Pattern("part3") + ")" == Parenthesised
  {
  }

  /** Each placeholder of `Parenthesised` occurs there once, at its own place. */
  lemma ParenthesisedOnce()
    ensures OncePlaced("o1/A(", ")B(", ")/(", ")", Pattern("part1"), Pattern("part2"), Pattern("part3"))
  {
    PartsOncePlaced("o1/A(", ")B(", ")/(", ")");
  }

  lemma ParenthesisedSubstitute(values: map<string, Value>, order: seq<string>, v1: string, v2: string, v3: string)
    requires "part1" in values && ReplacementText(values["part1"]) == Some(v1)
    requires "part2" in values && ReplacementText(values["part2"]) == Some(v2)
    requires "part3" in values && ReplacementText(values["part3"]) == Some(v3)
    requires Enumerates(order, {"part1", "part2", "part3"})
    ensures Substitute([Parenthesised], values, order) == Ok(["o1/A(", v1, ")B(", v2, ")/(", v3, ")"])
  {
    ParenthesisedPieces();
    ParenthesisedOnce();
    ThreeParts(Parenthesised, "o1/A(", ")B(", ")/(", ")", "part1", "part2", "part3", v1, v2, v3, values, order);
  }

  /** Only the inner parentheses of `((n))` belong to the placeholder: the outer ones stay, in any order. */
  lemma ParenthesisedAny(t: Transformer, values: map<string, Value>, order: seq<string>, v1: string, v2: string, v3: string)
    requires t == Transformer({"part1", "part2", "part3"})
    requires values.Keys == {"part1", "part2", "part3"} && Enumerates(order, values.Keys)
    requires ReplacementText(values["part1"]) == Some(v1)
    requires ReplacementText(values["part2"]) == Some(v2)
    requires ReplacementText(values["part3"]) == Some(v3)
    ensures Transform(t, Parenthesised, values, order) == Ok("o1/A(" + (v1 + (")B(" + (v2 + (")/(" + (v3 + ")"))))))
  {
    ParenthesisedSubstitute(values, order, v1, v2, v3);
    TransformOfSubstitute(t, Parenthesised, values, order, ["o1/A(", v1, ")B(", v2, ")/(", v3, ")"]);
    ConcatSeven("o1/A(", v1, ")B(", v2, ")/(", v3, ")");
  }

  /** The parenthesised template with the values "3", "14" and "159". */
  lemma ParenthesisedCase(t: Transformer, values: map<string, Value>, order: seq<string>)
    requires t == Transformer({"part1", "part2", "part3"})
    requires values == map["part1" := Text("3"), "part2" := Text("14"), "part3" := Text("159")]
    requires Enumerates(order, values.Keys)
    ensures Transform(t, Parenthesised, values, order) == Ok("o1/A(3)B(14)/(159)")
  {
    ThreeKeys(values, Text("3"), Text("14"), Text("159"));
    ParenthesisedAny(t, values, order, "3", "14", "159");
    ParenthesisedText();
  }

  lemma ParenthesisedText()
    ensures "o1/A(" + ("3" + (")B(" + ("14" + (")/(" + ("159" + ")"))))) == "o1/A(3)B(14)/(159)"
  {
  }

  /** An empty template has nowhere to put a part: a null value fails first, a text value next. */
  lemma MissingPatternCase(t: Transformer)
    requires t == Transformer({"part1"})
    ensures Enumerates(["part1"], map["part1" := Null].Keys)
    ensures Transform(t, "", map["part1" := Null], ["part1"]) == Err(SimpleTypeExpected("part1"))
    ensures Transform(t, "", map["part1" := Text("x")], ["part1"]) == Err(InvalidUriPattern)
  {
    assert map["part1" := Null].Keys == {"part1"};
    assert map["part1" := Text("x")].Keys == {"part1"};
    NoOccurrenceWithout("", Pattern("part1"), '(');
  }

  /** A structured element is not a simple value. */
  lemma ComplexTypeCase(t: Transformer)
    requires t == Transformer({"part1"})
    ensures Enumerates(["part1"], map["part1" := Complex].Keys)
    ensures Transform(t, "(part1)", map["part1" := Complex], ["part1"]) == Err(SimpleTypeExpected("part1"))
  {
    assert map["part1" := Complex].Keys == {"part1"};
  }

  /** The duplicate template of the order-dependence example. */
  const Duplicated := "(a)(b)(a)"

  /** Placing `(b)` second in `Duplicated`: it occurs once, after `(a)`. */
  lemma DuplicatedSecondPart()
    ensures Pattern("b") == "(b)" && Pattern("a") == "(a)"
    ensures Duplicated == "(a)" + "(b)" + "(a)"
    ensures NoEarlierStart("(a)", "(b)") && !Occurs("(a)", "(b)")
  {
    var s := "(a)(b";
    assert "(a)" + "(b)"[..2] == s;
    forall k | 0 <= k && k + 3 <= |s| ensures !OccursAt(s, "(b)", k) {
      assert s[k..k + 3][1] == s[k + 1] != 'b';
    }
    NoOccurrenceWithout("(a)", "(b)", 'b');
  }

  lemma DuplicatedKeys(values: map<string, Value>, x: string, y: string)
    requires values == map["a" := Text(x), "b" := Text(y)]
    ensures values.Keys == {"a", "b"}
    ensures Enumerates(["a", "b"], values.Keys) && Enumerates(["b", "a"], values.Keys)
  {
    assert values.Keys == {"a", "b"};
  }

  /** Taking `a` first: both copies of `(a)` lie in the one segment there is. */
  lemma DuplicatedAFirst(t: Transformer, values: map<string, Value>, x: string)
    requires values.Keys == t.partNames && values.Keys == {"a", "b"} && ReplacementText(values["a"]) == Some(x)
    requires Enumerates(["a", "b"], values.Keys)
    ensures Transform(t, Duplicated, values, ["a", "b"]) == Err(InvalidUriPattern)
  {
    assert Pattern("a") == "(a)";
    assert OccursAt(Duplicated, "(a)", 0) && OccursAt(Duplicated, "(a)", 6);
    TransformRejectsDuplicateOfFirstPart(t, Duplicated, values, ["a", "b"]);
  }

  /** Two rounds of the substitution, one per part, in the given order. */
  lemma SubstituteTwo(s0: seq<string>, s1: seq<string>, s2: seq<string>, n1: string, n2: string,
                      v1: string, v2: string, values: map<string, Value>)
    requires n1 in values && ReplacementText(values[n1]) == Some(v1)
    requires n2 in values && ReplacementText(values[n2]) == Some(v2)
    requires Replace(s0, Pattern(n1), v1) == Ok(s1)
    requires Replace(s1, Pattern(n2), v2) == Ok(s2)
    ensures Substitute(s0, values, [n1, n2]) == Ok(s2)
  {
    assert [n1, n2][1..] == [n2] && [n2][1..] == [];
    SubstituteStep(s0, s1, values, [n1, n2], v1);
    SubstituteStep(s1, s2, values, [n2], v2);
  }

  lemma SeparateCopies(p: string, q: string, y: string)
    requires |q| > 0 && NoEarlierStart(p, q) && !Occurs(p, q)
    ensures Replace([p + q + p], q, y) == Ok([p, y, p])
  {
    var s0 := [p + q + p];
    ReplaceAt(s0, q, y, 0, p, p);
    assert s0[..0] + [p, y, p] + s0[1..] == [p, y, p];
  }

  lemma ReplaceFirstCopy(p: string, x: string, y: string)
    requires |p| > 0
    ensures Replace([p, y, p], p, x) == Ok(["", x, "", y, p])
  {
    var s1 := [p, y, p];
    assert "" + p + "" == p;
    assert !Occurs("" + p[..|p| - 1], p);
    ReplaceAt(s1, p, x, 0, "", "");
    assert s1[..0] + ["", x, ""] + s1[1..] == ["", x, "", y, p];
  }

  /** Template `(na)(nb)(na)` taking `nb` first: `(nb)` separates the copies of `(na)`. */
  lemma SeparatedCopies(na: string, nb: string, x: string, y: string, values: map<string, Value>)
    requires na in values && ReplacementText(values[na]) == Some(x)
    requires nb in values && ReplacementText(values[nb]) == Some(y)
    requires NoEarlierStart(Pattern(na), Pattern(nb)) && !Occurs(Pattern(na), Pattern(nb))
    ensures Substitute([Pattern(na) + Pattern(nb) + Pattern(na)], values, [nb, na])
         == Ok(["", x, "", y, Pattern(na)])
  {
    SeparateCopies(Pattern(na), Pattern(nb), y);
    ReplaceFirstCopy(Pattern(na), x, y);
    SubstituteTwo([Pattern(na) + Pattern(nb) + Pattern(na)], [Pattern(na), y, Pattern(na)],
                  ["", x, "", y, Pattern(na)], nb, na, y, x, values);
  }

  /** Taking `b` first in `Duplicated`. */
  lemma DuplicatedBFirst(values: map<string, Value>, x: string, y: string)
    requires "a" in values && ReplacementText(values["a"]) == Some(x)
    requires "b" in values && ReplacementText(values["b"]) == Some(y)
    ensures Substitute([Duplicated], values, ["b", "a"]) == Ok(["", x, "", y, "(a)"])
  {
    DuplicatedSecondPart();
    SeparatedCopies("a", "b", x, y, values);
  }

  lemma DuplicatedBFirstTransform(t: Transformer, values: map<string, Value>, x: string, y: string)
    requires values.Keys == t.partNames && Enumerates(["b", "a"], values.Keys)
    requires "a" in values && ReplacementText(values["a"]) == Some(x)
    requires "b" in values && ReplacementText(values["b"]) == Some(y)
    ensures Transform(t, Duplicated, values, ["b", "a"]) == Ok(x + (y + "(a)"))
  {
    DuplicatedBFirst(values, x, y);
    TransformOfSubstitute(t, Duplicated, values, ["b", "a"], ["", x, "", y, "(a)"]);
    DuplicatedConcat(x, y);
  }

  lemma DuplicatedConcat(x: string, y: string)
    ensures Concat(["", x, "", y, "(a)"]) == x + (y + "(a)")
  {
    ConcatFive("", x, "", y, "(a)");
    assert "" + (x + ("" + (y + "(a)"))) == x + (y + "(a)");
  }

  /**
    `Duplicated` repeats `(a)`. Taking `a` first finds both copies in one
    segment and fails; taking `b` first splits them into two segments, so `a`
    replaces the first copy and the second stays in the result. Both orders
    enumerate the same map.
   */
  lemma DuplicateDependsOnOrder(t: Transformer, values: map<string, Value>, x: string, y: string)
    requires t == Transformer({"a", "b"}) && values == map["a" := Text(x), "b" := Text(y)]
    ensures Enumerates(["a", "b"], values.Keys) && Enumerates(["b", "a"], values.Keys)
    ensures Transform(t, Duplicated, values, ["a", "b"]) == Err(InvalidUriPattern)
    ensures Transform(t, Duplicated, values, ["b", "a"]) == Ok(x + (y + "(a)"))
  {
    DuplicatedKeys(values, x, y);
    DuplicatedAFirst(t, values, x);
    DuplicatedBFirstTransform(t, values, x, y);
  }

  lemma ConcatFive(a0: string, v1: string, a1: string, v2: string, a2: string)
    ensures Concat([a0, v1, a1, v2, a2]) == a0 + (v1 + (a1 + (v2 + a2)))
  {
    assert Concat([a2]) == a2 by { assert [a2][1..] == []; }
    assert Concat([v2, a2]) == v2 + a2 by { assert [v2, a2][1..] == [a2]; }
    assert Concat([a1, v2, a2]) == a1 + Concat([v2, a2]) by { assert [a1, v2, a2][1..] == [v2, a2]; }
    assert Concat([v1, a1, v2, a2]) == v1 + Concat([a1, v2, a2]) by { assert [v1, a1, v2, a2][1..] == [a1, v2, a2]; }
    assert Concat([a0, v1, a1, v2, a2]) == a0 + Concat([v1, a1, v2, a2])
      by { assert [a0, v1, a1, v2, a2][1..] == [v1, a1, v2, a2]; }
  }
}
