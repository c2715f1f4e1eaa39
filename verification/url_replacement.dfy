/**
  The `http:urlReplacement` encoder of the WSDL 1.1 HTTP binding (section 4.7
  of WSDL 1.1): a location template such as `o1/A(part1)B(part2)/(part3)`
  names message parts between parentheses, and each such placeholder is
  replaced by the simple text value of that part.

  The substitution works on a list of segments. Even positions hold template
  text that has not been substituted yet, odd positions hold inserted values.
  Only even positions are scanned, so an inserted value is never searched for
  another part's placeholder.
 */
module UrlReplacement {
  import opened Results
  import opened Patterns

  /** The element supplied for a part, reduced to what the encoder looks at. */
  datatype Value =
    | Empty                 // an element without children
    | Text(content: string) // an element whose content is only text
    | Complex               // an element with child elements: no simple text
    | Null                  // no element at all

  datatype UrlError =
    | MissingReplacementValues(parts: set<string>) // declared and supplied parts differ
    | SimpleTypeExpected(part: string)             // a part has no simple text value
    | InvalidUriPattern                            // a placeholder is absent or found twice

  /** The encoder, configured with the names of the parts it substitutes. */
  datatype Transformer = Transformer(partNames: set<string>)

  /** The encoder built without part names. */
  function DefaultTransformer(): Transformer {
    Transformer({})
  }

  /** The placeholder text for a part. */
  function Pattern(name: string): (p: string)
    ensures |p| == |name| + 2 && p[0] == '(' && p[|p| - 1] == ')' && p[1..|p| - 1] == name
  {
    "(" + name + ")"
  }

  /** The text that replaces a placeholder: empty for an empty element, none for a structured or missing one. */
  function ReplacementText(v: Value): Option<string> {
    match v
    case Empty => Some("")
    case Text(s) => Some(s)
    case Complex => None
    case Null => None
  }

  /** Parts named on one side only: the symmetric difference. */
  function Disjunction(a: set<string>, b: set<string>): set<string> {
    (a - b) + (b - a)
  }

  /** `order` lists every key exactly once: one iteration order of a map. */
  ghost predicate Enumerates(order: seq<string>, keys: set<string>) {
    && (forall i, j :: 0 <= i < j < |order| ==> order[i] != order[j])
    && (forall n :: n in order <==> n in keys)
  }

  /**
    The first even position at or after `i` whose segment contains `pat`:
    the segment the substitution loop acts on.
   */
  function FirstMatchFrom(segs: seq<string>, pat: string, i: nat): (r: Option<nat>)
    requires |pat| > 0 && i % 2 == 0
    ensures r.Some? ==>
      && i <= r.value < |segs| && r.value % 2 == 0
      && Occurs(segs[r.value], pat)
      && forall k :: i <= k < r.value && k % 2 == 0 ==> !Occurs(segs[k], pat)
    ensures r.None? ==> forall k :: i <= k < |segs| && k % 2 == 0 ==> !Occurs(segs[k], pat)
    decreases |segs| - i
  {
    if i >= |segs| then None
    else if IndexOf(segs[i], pat).Some? then Some(i)
    else FirstMatchFrom(segs, pat, i + 2)
  }

  function FirstMatch(segs: seq<string>, pat: string): Option<nat>
    requires |pat| > 0
  {
    FirstMatchFrom(segs, pat, 0)
  }

  /**
    `r` is what substituting `v` for the single occurrence of `pat` in
    segment `j` gives: `r` fails when the segment holds `pat` twice, and
    otherwise segment `j` becomes the text before the occurrence, `v`, and the
    text after it, all other segments staying where they were.
   */
  ghost predicate SplicedAt(segs: seq<string>, pat: string, v: string, j: nat, r: Result<seq<string>, UrlError>)
    requires j < |segs|
  {
    && (r.Ok? <==> !OccursTwice(segs[j], pat))
    && (r.Ok? ==>
          && |r.value| == |segs| + 2
          && r.value[..j] == segs[..j]
          && r.value[j] + pat + r.value[j + 2] == segs[j]
          && !Occurs(r.value[j], pat) && !Occurs(r.value[j + 2], pat)
          && r.value[j + 1] == v
          && r.value[j + 3..] == segs[j + 1..])
  }

  /** Cutting segment `j` in two around `v`, once `Split` gave two pieces. */
  lemma SpliceTwoPieces(segs: seq<string>, pat: string, v: string, j: nat)
    requires |pat| > 0 && j < |segs|
    requires |Split(segs[j], pat)| == 2
    ensures var pieces := Split(segs[j], pat);
      SplicedAt(segs, pat, v, j, Ok(segs[..j] + [pieces[0], v, pieces[1]] + segs[j + 1..]))
  {
    var pieces := Split(segs[j], pat);
    SplitMoreThanTwo(segs[j], pat);
    assert pieces[1..] == [pieces[1]];
    assert Join(pieces, pat) == pieces[0] + pat + pieces[1];
  }

  /**
    The substitution loop, from position `i` on: even positions are visited
    in turn; a segment without `pat` is skipped, unless it is the last
    entry, in which case the pattern is reported missing; a segment holding
    `pat` twice is an error; a segment holding it once is cut around `v` and
    the loop stops.
   */
  function ReplaceFrom(segs: seq<string>, pat: string, v: string, i: nat): (r: Result<seq<string>, UrlError>)
    requires |pat| > 0 && i % 2 == 0
    ensures r.Err? ==> r.error == InvalidUriPattern
    ensures FirstMatchFrom(segs, pat, i).None? ==>
      r == if i < |segs| && |segs| % 2 == 1 then Err(InvalidUriPattern) else Ok(segs)
    ensures FirstMatchFrom(segs, pat, i).Some? ==>
      SplicedAt(segs, pat, v, FirstMatchFrom(segs, pat, i).value, r)
    decreases |segs| - i
  {
    if i >= |segs| then
      Ok(segs)
    else
      var matches := Split(segs[i], pat);
      if |matches| == 1 then
        if i == |segs| - 1 then Err(InvalidUriPattern)
        else ReplaceFrom(segs, pat, v, i + 2)
      else if |matches| > 2 then
        SplitMoreThanTwo(segs[i], pat);
        Err(InvalidUriPattern)
      else
        SpliceTwoPieces(segs, pat, v, i);
        Ok(segs[..i] + [matches[0], v, matches[1]] + segs[i + 1..])
  }

  /**
    Substitutes `v` for the placeholder `pat` in the not yet substituted
    segments. On a list of odd length it fails when no even segment holds
    `pat`; it fails when the first even segment holding `pat` holds it twice;
    and otherwise it cuts exactly that segment around `v`.
   */
  function Replace(segs: seq<string>, pat: string, v: string): (r: Result<seq<string>, UrlError>)
    requires |pat| > 0
    ensures r.Err? ==> r.error == InvalidUriPattern
    ensures FirstMatch(segs, pat).None? ==> (r.Err? <==> |segs| % 2 == 1) && (r.Ok? ==> r.value == segs)
    ensures FirstMatch(segs, pat).Some? ==> SplicedAt(segs, pat, v, FirstMatch(segs, pat).value, r)
    ensures r.Ok? && |segs| % 2 == 1 ==> |r.value| == |segs| + 2
  {
    ReplaceFrom(segs, pat, v, 0)
  }

  /**
    Substitutes every part of `order`, in that order, failing at the first
    part without simple text or whose placeholder cannot be replaced.
   */
  function Substitute(segs: seq<string>, values: map<string, Value>, order: seq<string>): (r: Result<seq<string>, UrlError>)
    requires forall n :: n in order ==> n in values
    ensures r.Err? ==> r.error.SimpleTypeExpected? || r.error.InvalidUriPattern?
    ensures r.Err? && r.error.SimpleTypeExpected? ==> r.error.part in order
    ensures r.Ok? && |segs| % 2 == 1 ==> |r.value| == |segs| + 2 * |order|
    decreases |order|
  {
    if order == [] then
      Ok(segs)
    else
      var name := order[0];
      match ReplacementText(values[name])
      case None => Err(SimpleTypeExpected(name))
      case Some(text) =>
        match Replace(segs, Pattern(name), text)
        case Err(e) => Err(e)
        case Ok(next) =>
          assert |segs| % 2 == 1 ==> |next| == |segs| + 2 && |next| % 2 == 1;
          Substitute(next, values, order[1..])
  }

  /** The concatenation of all segments: the final URL. */
  function Concat(segs: seq<string>): string {
    if segs == [] then "" else segs[0] + Concat(segs[1..])
  }

  /** A subset as large as its superset is the whole superset. */
  lemma SameSizeSubset(a: set<string>, b: set<string>)
    requires a <= b && |a| == |b|
    ensures a == b
  {
    assert |b - a| == |b| - |a|;
  }

  /** Two different sets have an element on one side only. */
  lemma DifferentSetsDisjunction(a: set<string>, b: set<string>)
    requires a != b
    ensures Disjunction(a, b) != {}
  {
    if a <= b {
      assert exists x :: x in b && x !in a;
      var x :| x in b && x !in a;
      assert x in Disjunction(a, b);
    } else {
      var x :| x in a && x !in b;
      assert x in Disjunction(a, b);
    }
  }

  /**
    Applies the encoder to `baseUri`, taking the map's entries in `order`.
    The supplied parts must be exactly the declared ones; otherwise the
    failure names the parts on one side only and no substitution is made.
   */
  function Transform(t: Transformer, baseUri: string, values: map<string, Value>, order: seq<string>): (r: Result<string, UrlError>)
    requires Enumerates(order, values.Keys)
    ensures (r.Err? && r.error.MissingReplacementValues?) <==> values.Keys != t.partNames
    ensures values.Keys != t.partNames ==>
      r == Err(MissingReplacementValues(Disjunction(t.partNames, values.Keys)))
      && Disjunction(t.partNames, values.Keys) != {}
  {
    if |values.Keys| != |t.partNames| || !(t.partNames <= values.Keys) then
      assert values.Keys != t.partNames;
      DifferentSetsDisjunction(t.partNames, values.Keys);
      Err(MissingReplacementValues(Disjunction(t.partNames, values.Keys)))
    else
      SameSizeSubset(t.partNames, values.Keys);
      match Substitute([baseUri], values, order)
      case Err(e) => Err(e)
      case Ok(segs) => Ok(Concat(segs))
  }
}
