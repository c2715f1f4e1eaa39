/**
  Properties of the URL replacement that relate several calls: the segment
  list keeps its shape, inserted values are never rescanned, a failing part
  fails whatever the iteration order, and the final URL gives the template
  back once every inserted value is replaced by its placeholder.
 */
module UrlReplacementProofs {
  import opened Results
  import opened Patterns
  import opened UrlReplacement

  /**
    The template a segment list stands for: the even segments with, between
    neighbours, the placeholder of the part named for the odd slot there.
   */
  function Rebuild(segs: seq<string>, names: seq<string>): string
    requires |segs| == 2 * |names| + 1
    decreases |names|, 1
  {
    segs[0] + Placeholders(segs, names)
  }

  /** What `Rebuild` puts after the first segment. */
  function Placeholders(segs: seq<string>, names: seq<string>): string
    requires |segs| == 2 * |names| + 1
    decreases |names|, 0
  {
    if names == [] then "" else Pattern(names[0]) + Rebuild(segs[2..], names[1..])
  }

  /** Odd slot `k` of `segs` holds the text of the part `names[k]`. */
  ghost predicate Filled(segs: seq<string>, names: seq<string>, values: map<string, Value>) {
    && |segs| == 2 * |names| + 1
    && forall k :: 0 <= k < |names| ==>
         names[k] in values && ReplacementText(values[names[k]]) == Some(segs[2 * k + 1])
  }

  /** Two segment lists of the same length with the same not yet substituted text. */
  ghost predicate SameTemplate(a: seq<string>, b: seq<string>) {
    |a| == |b| && forall k :: 0 <= k < |a| && k % 2 == 0 ==> a[k] == b[k]
  }

  lemma Associate(b: string, p: string, a: string, rest: string)
    ensures b + (p + (a + rest)) == (b + p + a) + rest
  {
  }

  /**
    Cutting segment `j` around an inserted value and naming the new slot
    `n` does not change the template, when the cut removed `n`'s placeholder.
   */
  lemma {:induction false} RebuildSplice(segs: seq<string>, names: seq<string>, j: nat, b: string, v: string, a: string, n: string)
    requires |segs| == 2 * |names| + 1
    requires j < |segs| && j % 2 == 0
    requires segs[j] == b + Pattern(n) + a
    ensures Rebuild(segs[..j] + [b, v, a] + segs[j + 1..], names[..j / 2] + [n] + names[j / 2..]) == Rebuild(segs, names)
    decreases j
  {
    var r := segs[..j] + [b, v, a] + segs[j + 1..];
    var names' := names[..j / 2] + [n] + names[j / 2..];
    if j == 0 {
      assert r[2..] == [a] + segs[1..];
      assert names' == [n] + names;
      if names != [] {
        assert ([a] + segs[1..])[2..] == segs[2..];
      }
      assert Rebuild(r[2..], names) == a + Placeholders(segs, names);
      assert Placeholders([a] + segs[1..], names) == Placeholders(segs, names);
      Associate(b, Pattern(n), a, Placeholders(segs, names));
    } else {
      var tail := segs[2..];
      var m := (j - 2) / 2;
      assert names'[0] == names[0];
      assert names'[1..] == names[1..][..m] + [n] + names[1..][m..];
      assert r[0] == segs[0];
      assert r[2..] == tail[..j - 2] + [b, v, a] + tail[j - 1..];
      RebuildSplice(tail, names[1..], j - 2, b, v, a, n);
    }
  }

  /** A successful `Replace` at position `j` is a splice of three entries into the list. */
  lemma ReplaceShape(segs: seq<string>, pat: string, v: string)
    requires |pat| > 0 && |segs| % 2 == 1
    requires Replace(segs, pat, v).Ok?
    ensures FirstMatch(segs, pat).Some?
    ensures var j := FirstMatch(segs, pat).value;
      var r := Replace(segs, pat, v).value;
      r == segs[..j] + [r[j], v, r[j + 2]] + segs[j + 1..] && segs[j] == r[j] + pat + r[j + 2]
  {
    var j := FirstMatch(segs, pat).value;
    var r := Replace(segs, pat, v).value;
    assert r[..j] == segs[..j] && r[j + 3..] == segs[j + 1..];
    assert r == r[..j] + [r[j], r[j + 1], r[j + 2]] + r[j + 3..];
  }

  /** Splicing a value of part `n` into slot `j / 2` keeps a list filled. */
  lemma FilledSplice(segs: seq<string>, names: seq<string>, values: map<string, Value>, j: nat, b: string, v: string, a: string, n: string)
    requires Filled(segs, names, values)
    requires j < |segs| && j % 2 == 0
    requires n in values && ReplacementText(values[n]) == Some(v)
    ensures Filled(segs[..j] + [b, v, a] + segs[j + 1..], names[..j / 2] + [n] + names[j / 2..], values)
  {
    var r := segs[..j] + [b, v, a] + segs[j + 1..];
    var names' := names[..j / 2] + [n] + names[j / 2..];
    forall k | 0 <= k < |names'|
      ensures names'[k] in values && ReplacementText(values[names'[k]]) == Some(r[2 * k + 1])
    {
      if k < j / 2 {
        assert names'[k] == names[k] && r[2 * k + 1] == segs[2 * k + 1];
      } else if k == j / 2 {
        assert names'[k] == n && r[2 * k + 1] == v;
      } else {
        assert names'[k] == names[k - 1];
        assert r[2 * k + 1] == segs[2 * (k - 1) + 1];
      }
    }
  }

  lemma InsertCount(names: seq<string>, i: nat, n: string)
    requires i <= |names|
    ensures multiset(names[..i] + [n] + names[i..]) == multiset(names) + multiset{n}
  {
    assert names == names[..i] + names[i..];
  }

  /** One successful `Replace` on a filled list keeps it filled and keeps its template. */
  lemma ReplaceKeepsTemplate(segs: seq<string>, names: seq<string>, values: map<string, Value>, n: string, text: string)
    requires Filled(segs, names, values)
    requires n in values && ReplacementText(values[n]) == Some(text)
    requires Replace(segs, Pattern(n), text).Ok?
    ensures FirstMatch(segs, Pattern(n)).Some?
    ensures var j := FirstMatch(segs, Pattern(n)).value;
      var names' := names[..j / 2] + [n] + names[j / 2..];
      && Filled(Replace(segs, Pattern(n), text).value, names', values)
      && Rebuild(Replace(segs, Pattern(n), text).value, names') == Rebuild(segs, names)
      && multiset(names') == multiset(names) + multiset{n}
  {
    var pat := Pattern(n);
    ReplaceShape(segs, pat, text);
    var j := FirstMatch(segs, pat).value;
    var r := Replace(segs, pat, text).value;
    RebuildSplice(segs, names, j, r[j], text, r[j + 2], n);
    FilledSplice(segs, names, values, j, r[j], text, r[j + 2], n);
    InsertCount(names, j / 2, n);
  }

  /** A successful substitution starts with a successful `Replace` of the first part. */
  lemma SubstituteFirst(segs: seq<string>, values: map<string, Value>, order: seq<string>)
    requires forall n :: n in order ==> n in values
    requires |order| > 0 && Substitute(segs, values, order).Ok?
    ensures ReplacementText(values[order[0]]).Some?
    ensures Replace(segs, Pattern(order[0]), ReplacementText(values[order[0]]).value).Ok?
    ensures Substitute(segs, values, order)
         == Substitute(Replace(segs, Pattern(order[0]), ReplacementText(values[order[0]]).value).value, values, order[1..])
  {
  }

  /** The inductive step of `SubstituteKeepsTemplate`, from the list after the first `Replace`. */
  lemma KeepsTemplateStep(segs: seq<string>, names: seq<string>, next: seq<string>, mid: seq<string>,
                          r: seq<string>, values: map<string, Value>, order: seq<string>)
    requires |order| > 0 && Filled(segs, names, values) && Filled(next, mid, values)
    requires Rebuild(next, mid) == Rebuild(segs, names) && multiset(mid) == multiset(names) + multiset{order[0]}
    requires exists names': seq<string> ::
      Filled(r, names', values) && Rebuild(r, names') == Rebuild(next, mid)
      && multiset(names') == multiset(mid) + multiset(order[1..])
    ensures exists names': seq<string> ::
      Filled(r, names', values) && Rebuild(r, names') == Rebuild(segs, names)
      && multiset(names') == multiset(names) + multiset(order)
  {
    var names' :| Filled(r, names', values) && Rebuild(r, names') == Rebuild(next, mid)
                  && multiset(names') == multiset(mid) + multiset(order[1..]);
    assert multiset(order) == multiset{order[0]} + multiset(order[1..]) by {
      assert order == [order[0]] + order[1..];
    }
  }

  /**
    Substituting a list of parts into a filled list gives a filled list
    standing for the same template, each substituted part owning one more slot.
   */
  lemma {:induction false} SubstituteKeepsTemplate(segs: seq<string>, names: seq<string>, values: map<string, Value>, order: seq<string>)
    requires Filled(segs, names, values)
    requires forall n :: n in order ==> n in values
    requires Substitute(segs, values, order).Ok?
    ensures exists names': seq<string> ::
      && Filled(Substitute(segs, values, order).value, names', values)
      && Rebuild(Substitute(segs, values, order).value, names') == Rebuild(segs, names)
      && multiset(names') == multiset(names) + multiset(order)
    decreases |order|
  {
    if order == [] {
      assert Filled(segs, names, values) && multiset(names) == multiset(names) + multiset(order);
    } else {
      var n := order[0];
      SubstituteFirst(segs, values, order);
      var text := ReplacementText(values[n]).value;
      var next := Replace(segs, Pattern(n), text).value;
      ReplaceKeepsTemplate(segs, names, values, n, text);
      var j := FirstMatch(segs, Pattern(n)).value;
      var mid := names[..j / 2] + [n] + names[j / 2..];
      SubstituteKeepsTemplate(next, mid, values, order[1..]);
      KeepsTemplateStep(segs, names, next, mid, Substitute(segs, values, order).value, values, order);
    }
  }

  /** The multiset of a list without repeats counts each of its elements once. */
  lemma {:induction false} DistinctCountsOnce(order: seq<string>)
    requires forall i, j :: 0 <= i < j < |order| ==> order[i] != order[j]
    ensures forall n :: multiset(order)[n] == if n in order then 1 else 0
  {
    if order != [] {
      var tail := order[1..];
      assert forall i, j :: 0 <= i < j < |tail| ==> tail[i] != tail[j] by {
        forall i, j | 0 <= i < j < |tail| ensures tail[i] != tail[j] {
          assert tail[i] == order[i + 1] && tail[j] == order[j + 1];
        }
      }
      DistinctCountsOnce(tail);
      assert order == [order[0]] + tail;
      assert order[0] !in tail;
    }
  }

  /**
    The round trip: a successful encoding is the concatenation of a segment
    list whose odd slots hold the parts' texts verbatim, one slot for every
    declared part, and putting each part's placeholder back in its slot
    gives the template.
   */
  lemma TransformRoundTrip(t: Transformer, baseUri: string, values: map<string, Value>, order: seq<string>)
    requires Enumerates(order, values.Keys)
    requires Transform(t, baseUri, values, order).Ok?
    ensures values.Keys == t.partNames
    ensures exists segs: seq<string>, names: seq<string> ::
      && Concat(segs) == Transform(t, baseUri, values, order).value
      && Filled(segs, names, values)
      && Rebuild(segs, names) == baseUri
      && forall n :: multiset(names)[n] == if n in t.partNames then 1 else 0
  {
    assert values.Keys == t.partNames;
    var segs := Substitute([baseUri], values, order).value;
    assert Transform(t, baseUri, values, order).value == Concat(segs);
    assert Filled([baseUri], [], values);
    SubstituteKeepsTemplate([baseUri], [], values, order);
    var names :| && Filled(segs, names, values)
                 && Rebuild(segs, names) == Rebuild([baseUri], [])
                 && multiset(names) == multiset([]) + multiset(order);
    assert Rebuild([baseUri], []) == baseUri + "" == baseUri;
    assert multiset(names) == multiset(order);
    DistinctCountsOnce(order);
    assert forall n :: multiset(names)[n] == if n in t.partNames then 1 else 0;
  }

  /** Every placeholder put back by `Rebuild` occurs in the template it gives. */
  lemma {:induction false} RebuildHoldsPlaceholders(segs: seq<string>, names: seq<string>, k: nat)
    requires |segs| == 2 * |names| + 1
    requires k < |names|
    ensures Occurs(Rebuild(segs, names), Pattern(names[k]))
    decreases k
  {
    var s := Rebuild(segs, names);
    var p := Pattern(names[0]);
    var tail := Rebuild(segs[2..], names[1..]);
    assert Placeholders(segs, names) == p + tail;
    assert s == segs[0] + (p + tail);
    if k == 0 {
      assert s[|segs[0]|..|segs[0]| + |p|] == p;
      assert OccursAt(s, p, |segs[0]|);
    } else {
      RebuildHoldsPlaceholders(segs[2..], names[1..], k - 1);
      assert names[1..][k - 1] == names[k];
      var m :| OccursAt(tail, Pattern(names[k]), m);
      assert s[|segs[0]| + |p|..] == tail;
      OccursAtSuffix(s, Pattern(names[k]), |segs[0]| + |p|, m);
    }
  }

  /**
    A successful encoding found every declared placeholder in the template;
    so a template missing one fails, whatever the iteration order.
   */
  lemma TransformRejectsMissingPlaceholder(t: Transformer, baseUri: string, values: map<string, Value>, order: seq<string>, n: string)
    requires Enumerates(order, values.Keys)
    requires n in t.partNames && !Occurs(baseUri, Pattern(n))
    ensures Transform(t, baseUri, values, order).Err?
  {
    if Transform(t, baseUri, values, order).Ok? {
      TransformRoundTrip(t, baseUri, values, order);
      var segs: seq<string>, names: seq<string> :|
        && Filled(segs, names, values)
        && Rebuild(segs, names) == baseUri
        && forall x :: multiset(names)[x] == if x in t.partNames then 1 else 0;
      assert Filled(segs, names, values);
      assert |segs| == 2 * |names| + 1;
      assert multiset(names)[n] == 1;
      assert n in names;
      var k :| 0 <= k < |names| && names[k] == n;
      RebuildHoldsPlaceholders(segs, names, k);
    }
  }

  /** Substitution fails when one of the listed parts has no simple text. */
  lemma {:induction false} SubstituteRejectsNonSimple(segs: seq<string>, values: map<string, Value>, order: seq<string>, n: string)
    requires forall x :: x in order ==> x in values
    requires n in order && ReplacementText(values[n]).None?
    ensures Substitute(segs, values, order).Err?
    decreases |order|
  {
    if order[0] != n {
      var text := ReplacementText(values[order[0]]);
      if text.Some? && Replace(segs, Pattern(order[0]), text.value).Ok? {
        SubstituteRejectsNonSimple(Replace(segs, Pattern(order[0]), text.value).value, values, order[1..], n);
      }
    }
  }

  /** A part that is structured or missing makes the encoding fail, whatever the iteration order. */
  lemma TransformRejectsNonSimple(t: Transformer, baseUri: string, values: map<string, Value>, order: seq<string>, n: string)
    requires Enumerates(order, values.Keys)
    requires n in values && (values[n].Complex? || values[n].Null?)
    ensures Transform(t, baseUri, values, order).Err?
  {
    if values.Keys == t.partNames {
      SubstituteRejectsNonSimple([baseUri], values, order, n);
    }
  }

  /** The part taken first fails when its placeholder occurs twice in the template. */
  lemma TransformRejectsDuplicateOfFirstPart(t: Transformer, baseUri: string, values: map<string, Value>, order: seq<string>)
    requires Enumerates(order, values.Keys) && values.Keys == t.partNames
    requires |order| > 0 && ReplacementText(values[order[0]]).Some?
    requires OccursTwice(baseUri, Pattern(order[0]))
    ensures Transform(t, baseUri, values, order) == Err(InvalidUriPattern)
  {
    var pat := Pattern(order[0]);
    var a, b :| OccursAt(baseUri, pat, a) && OccursAt(baseUri, pat, b) && a + |pat| <= b;
    assert OccursAt([baseUri][0], pat, a);
    assert FirstMatch([baseUri], pat) == Some(0);
  }

  /** The scan for the first matching segment only reads even positions. */
  lemma {:induction false} FirstMatchIgnoresValues(segs: seq<string>, segs2: seq<string>, pat: string, i: nat)
    requires |pat| > 0 && i % 2 == 0
    requires SameTemplate(segs, segs2)
    ensures FirstMatchFrom(segs, pat, i) == FirstMatchFrom(segs2, pat, i)
    decreases |segs| - i
  {
    if i < |segs| && IndexOf(segs[i], pat).None? {
      FirstMatchIgnoresValues(segs, segs2, pat, i + 2);
    }
  }

  /** The substitution loop from position `i` on only reads even positions. */
  lemma {:induction false} ReplaceFromIgnoresValues(segs: seq<string>, segs2: seq<string>, pat: string, v: string, i: nat)
    requires |pat| > 0 && i % 2 == 0
    requires SameTemplate(segs, segs2)
    ensures ReplaceFrom(segs, pat, v, i).Ok? <==> ReplaceFrom(segs2, pat, v, i).Ok?
    ensures ReplaceFrom(segs, pat, v, i).Ok? ==>
      SameTemplate(ReplaceFrom(segs, pat, v, i).value, ReplaceFrom(segs2, pat, v, i).value)
    decreases |segs| - i
  {
    if i < |segs| {
      var matches := Split(segs[i], pat);
      assert segs2[i] == segs[i];
      if |matches| == 1 {
        if i != |segs| - 1 {
          ReplaceFromIgnoresValues(segs, segs2, pat, v, i + 2);
        }
      } else if |matches| == 2 {
        var r := segs[..i] + [matches[0], v, matches[1]] + segs[i + 1..];
        var r2 := segs2[..i] + [matches[0], v, matches[1]] + segs2[i + 1..];
        forall k | 0 <= k < |r| && k % 2 == 0 ensures r[k] == r2[k] {
          if k < i {
            assert r[k] == segs[k] && r2[k] == segs2[k];
          } else if k > i + 2 {
            assert r[k] == segs[k - 2] && r2[k] == segs2[k - 2];
          }
        }
      }
    }
  }

  /**
    Inserted values are never rescanned: the outcome of `Replace` and the
    template text it leaves do not depend on what the odd slots hold.
   */
  lemma ReplaceIgnoresValues(segs: seq<string>, segs2: seq<string>, pat: string, v: string)
    requires |pat| > 0
    requires SameTemplate(segs, segs2)
    ensures Replace(segs, pat, v).Ok? <==> Replace(segs2, pat, v).Ok?
    ensures Replace(segs, pat, v).Ok? ==> SameTemplate(Replace(segs, pat, v).value, Replace(segs2, pat, v).value)
  {
    ReplaceFromIgnoresValues(segs, segs2, pat, v, 0);
  }

  /** The same for a whole sequence of parts: values already inserted never change the outcome. */
  lemma {:induction false} SubstituteIgnoresValues(segs: seq<string>, segs2: seq<string>, values: map<string, Value>, order: seq<string>)
    requires forall n :: n in order ==> n in values
    requires SameTemplate(segs, segs2)
    ensures Substitute(segs, values, order).Ok? <==> Substitute(segs2, values, order).Ok?
    decreases |order|
  {
    if order != [] {
      var text := ReplacementText(values[order[0]]);
      if text.Some? {
        ReplaceIgnoresValues(segs, segs2, Pattern(order[0]), text.value);
        if Replace(segs, Pattern(order[0]), text.value).Ok? {
          SubstituteIgnoresValues(Replace(segs, Pattern(order[0]), text.value).value,
                                  Replace(segs2, Pattern(order[0]), text.value).value, values, order[1..]);
        }
      }
    }
  }

  /** The loop moves past an even segment without `pat` that is not the last entry. */
  lemma ReplaceFromSkip(segs: seq<string>, pat: string, v: string, i: nat)
    requires |pat| > 0 && i % 2 == 0 && i + 1 < |segs|
    requires !Occurs(segs[i], pat)
    ensures ReplaceFrom(segs, pat, v, i) == ReplaceFrom(segs, pat, v, i + 2)
  {
    assert |Split(segs[i], pat)| == 1;
  }

  /** The loop cuts an even segment holding `pat` once, with no earlier start of it. */
  lemma ReplaceFromHit(segs: seq<string>, pat: string, v: string, i: nat, before: string, after: string)
    requires |pat| > 0 && i % 2 == 0 && i < |segs|
    requires segs[i] == before + pat + after
    requires !Occurs(before + pat[..|pat| - 1], pat) && !Occurs(after, pat)
    ensures ReplaceFrom(segs, pat, v, i) == Ok(segs[..i] + [before, v, after] + segs[i + 1..])
  {
    SplitAround(before, pat, after);
  }

  /**
    The exact result of the substitution loop when the first even segment
    holding `pat` holds it once, with no earlier start of it.
   */
  lemma {:induction false} ReplaceFromAt(segs: seq<string>, pat: string, v: string, i: nat, j: nat, before: string, after: string)
    requires |pat| > 0 && i % 2 == 0 && j % 2 == 0 && i <= j < |segs|
    requires FirstMatchFrom(segs, pat, i) == Some(j)
    requires segs[j] == before + pat + after
    requires !Occurs(before + pat[..|pat| - 1], pat) && !Occurs(after, pat)
    ensures ReplaceFrom(segs, pat, v, i) == Ok(segs[..j] + [before, v, after] + segs[j + 1..])
    decreases j - i
  {
    if i < j {
      assert IndexOf(segs[i], pat).None?;
      ReplaceFromSkip(segs, pat, v, i);
      ReplaceFromAt(segs, pat, v, i + 2, j, before, after);
    } else {
      ReplaceFromHit(segs, pat, v, i, before, after);
    }
  }

  /**
    The transformer built with no part names accepts only an empty map, and
    then hands the template back unchanged.
   */
  lemma DefaultTransformerKeepsTemplate(baseUri: string, values: map<string, Value>, order: seq<string>)
    requires Enumerates(order, values.Keys)
    ensures values == map[] ==> Transform(DefaultTransformer(), baseUri, values, order) == Ok(baseUri)
    ensures values != map[] ==>
      Transform(DefaultTransformer(), baseUri, values, order) == Err(MissingReplacementValues(values.Keys))
  {
    if values == map[] {
      assert values.Keys == {};
      assert Concat([baseUri]) == baseUri by { assert [baseUri][1..] == []; }
    } else {
      var k :| k in values.Keys;
      assert Disjunction({}, values.Keys) == values.Keys;
    }
  }
}
