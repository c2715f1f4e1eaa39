# URL replacement encoder of the HTTP binding

This project models `UrlReplacementTransformer`, the encoder that the Axis2
integration of Apache ODE uses for the `http:urlReplacement` rule of the WSDL 1.1
HTTP binding (section 4.7 of WSDL 1.1). An operation's location is a template such
as `o1/A(part1)B(part2)/(part3)`. Each message part is named there between
parentheses. The encoder replaces each placeholder with the text of its part and
joins the pieces into the final URL.

The model follows the Java code step by step:

- The encoder holds a set of declared part names (`Transformer.partNames`). The
  no-argument constructor gives the empty set.
- `Transform` first checks that the supplied keys and the declared names are the
  same set. It performs the same size-and-containment test as the code. On a
  mismatch it reports the symmetric difference.
- It then starts from the one-entry list `[baseUri]` and substitutes the parts one
  by one (`Substitute`). The order is the map's iteration order. Java's `HashMap`
  does not fix that order, so it is a parameter, `order`, which must list every
  key exactly once (`Enumerates`). The properties and the unit-test results are
  proved for every such order, except the duplicate lemmas, which name the orders
  they are about.
- For each part, the element is reduced to its simple text (`ReplacementText`).
  An empty element gives `""`. A structured element or a missing one has no text,
  which is an error. The loop of `replace` is then run on the segment list
  (`ReplaceFrom`).
- The loop visits even positions only. Even positions hold template text not yet
  substituted; odd positions hold inserted values, so a value is never searched
  again. Each visited segment is split on the placeholder:
  - a segment without it is skipped, unless it is the last entry of the list,
    which is an error;
  - a segment holding it twice is an error;
  - a segment holding it once becomes the text before, the value, and the text
    after, and the loop stops.
- Finally the segments are concatenated (`Concat`).

`String.split(regex, -1)` is modelled in module `Patterns` as a literal split at
the leftmost non-overlapping occurrences that keeps empty pieces (`Split`). Its
inverse is `Join`.

Modules:

- `Results`: `Option` and `Result`.
- `Patterns`: the occurrence predicates, `IndexOf`, `Split` and `Join`, and their
  lemmas.
- `UrlReplacement`: the data model and the operations of the encoder.
- `UrlReplacementProofs`: the round trip, the failure cases, and the fact that
  inserted values are never rescanned.
- `UrlReplacementExamples`: the unit-test templates and the order dependence of
  the duplicate check.

Two points where the class's documentation and its code disagree; the model
follows the code:

- The javadoc of `transform` (line 56) speaks of curly braces. The pattern built
  on line 82 and every test template use parentheses, and so does `Pattern`.
- The javadoc (line 60) promises an error when a pattern is found more than once.
  The code only splits the first even segment that contains the placeholder, at
  the moment that part is processed. A second copy that an earlier part has
  already separated into another segment is never seen. The result then depends on
  the map's iteration order. `DuplicateDependsOnOrder` shows this on the template
  `(a)(b)(a)`: taking `a` first fails; taking `b` first succeeds and leaves the
  second `(a)` in the URL. The model keeps the code's behaviour, and no contract
  claims the documented one.

## Model

| member | source | states |
|---|---|---|
| Patterns.IndexOf | axis2/src/main/java/org/apache/ode/axis2/util/UrlReplacementTransformer.java:104 | the result is an occurrence of the pattern with none before it, and it is absent exactly when the pattern does not occur |
| Patterns.Split | axis2/src/main/java/org/apache/ode/axis2/util/UrlReplacementTransformer.java:104 | the pieces joined with the pattern give back the string, no piece contains the pattern, and there is a single piece exactly when the pattern does not occur |
| Patterns.SplitMoreThanTwo | axis2/src/main/java/org/apache/ode/axis2/util/UrlReplacementTransformer.java:112-113 | more than two pieces exactly when the string holds two non-overlapping occurrences |
| Patterns.SplitAround | axis2/src/main/java/org/apache/ode/axis2/util/UrlReplacementTransformer.java:104 | a string with one occurrence, with none starting before or after it, splits into the text before and the text after |
| UrlReplacement.Pattern | axis2/src/main/java/org/apache/ode/axis2/util/UrlReplacementTransformer.java:82 | the placeholder is the name between an opening and a closing parenthesis: two characters longer, with the name in the middle |
| UrlReplacement.FirstMatchFrom | axis2/src/main/java/org/apache/ode/axis2/util/UrlReplacementTransformer.java:101-111 | the segment the loop acts on is the first even position from `i` on whose segment contains the pattern, and if there is none, no even segment from `i` on contains it |
| UrlReplacement.SpliceTwoPieces | axis2/src/main/java/org/apache/ode/axis2/util/UrlReplacementTransformer.java:114-122 | removing segment `j` and inserting the two split pieces around the value keeps every other segment and rebuilds segment `j` as before + pattern + after |
| UrlReplacement.ReplaceFrom | axis2/src/main/java/org/apache/ode/axis2/util/UrlReplacementTransformer.java:98-129 | every failure is an invalid URI pattern; with no matching even segment it fails exactly on a list of odd length, and otherwise leaves the list as it is; with one it fails exactly when that segment holds the pattern twice, and otherwise cuts only that segment around the value, the list growing by two |
| UrlReplacement.Replace | axis2/src/main/java/org/apache/ode/axis2/util/UrlReplacementTransformer.java:98-129 | the same from position 0, and a success on an odd-length list makes it two entries longer, so its odd length is kept |
| UrlReplacement.Substitute | axis2/src/main/java/org/apache/ode/axis2/util/UrlReplacementTransformer.java:76-90 | a failure is either a missing simple type, naming one of the parts taken, or an invalid URI pattern; a success on an odd-length list adds two entries per part |
| UrlReplacement.Transform | axis2/src/main/java/org/apache/ode/axis2/util/UrlReplacementTransformer.java:62-96 | the missing-values error is raised exactly when the supplied keys differ from the declared part names, and it carries their non-empty symmetric difference |
| UrlReplacementProofs.RebuildSplice | axis2/src/main/java/org/apache/ode/axis2/util/UrlReplacementTransformer.java:117-122 | putting the placeholder back in place of an inserted value gives the segment that was cut |
| UrlReplacementProofs.ReplaceKeepsTemplate | axis2/src/main/java/org/apache/ode/axis2/util/UrlReplacementTransformer.java:98-129 | one successful replacement keeps every odd slot holding its part's text, keeps the template the list stands for, and gives the part one more slot |
| UrlReplacementProofs.SubstituteKeepsTemplate | axis2/src/main/java/org/apache/ode/axis2/util/UrlReplacementTransformer.java:76-90 | a successful substitution of a list of parts keeps the template the segments stand for, with one slot per part substituted |
| UrlReplacementProofs.TransformRoundTrip | axis2/src/main/java/org/apache/ode/axis2/util/UrlReplacementTransformer.java:62-96 | a successful encoding has matching key sets, and it is the concatenation of segments whose odd slots hold the parts' texts verbatim, one slot per declared part; writing each part's placeholder back into its slot gives the template |
| UrlReplacementProofs.RebuildHoldsPlaceholders | axis2/src/main/java/org/apache/ode/axis2/util/UrlReplacementTransformer.java:105-108 | a template rebuilt from a segment list contains the placeholder of every part that owns a slot |
| UrlReplacementProofs.TransformRejectsMissingPlaceholder | axis2/src/main/java/org/apache/ode/axis2/util/UrlReplacementTransformer.java:105-108 | a declared part whose placeholder does not occur in the template makes the encoding fail, for any iteration order |
| UrlReplacementProofs.SubstituteRejectsNonSimple | axis2/src/main/java/org/apache/ode/axis2/util/UrlReplacementTransformer.java:83-87 | a part without simple text among the parts taken makes the substitution fail |
| UrlReplacementProofs.TransformRejectsNonSimple | axis2/src/main/java/org/apache/ode/axis2/util/UrlReplacementTransformer.java:83-87 | a structured or missing element makes the encoding fail, for any iteration order |
| UrlReplacementProofs.TransformRejectsDuplicateOfFirstPart | axis2/src/main/java/org/apache/ode/axis2/util/UrlReplacementTransformer.java:112-113 | when the part taken first has its placeholder twice in the template, the encoding fails with an invalid URI pattern |
| UrlReplacementProofs.ReplaceFromIgnoresValues | axis2/src/main/java/org/apache/ode/axis2/util/UrlReplacementTransformer.java:99-101 | two lists that differ only in their odd slots give the same outcome, and results that again differ only in their odd slots |
| UrlReplacementProofs.ReplaceIgnoresValues | axis2/src/main/java/org/apache/ode/axis2/util/UrlReplacementTransformer.java:99-101 | the same for a whole replacement: inserted values never affect where the next placeholder is found |
| UrlReplacementProofs.SubstituteIgnoresValues | axis2/src/main/java/org/apache/ode/axis2/util/UrlReplacementTransformer.java:75-90 | whether substituting a list of parts succeeds does not depend on the values already inserted |
| UrlReplacementProofs.ReplaceFromAt | axis2/src/main/java/org/apache/ode/axis2/util/UrlReplacementTransformer.java:101-126 | when the first matching even segment is before + pattern + after with a single occurrence, the loop gives exactly the list with that segment cut around the value |
| UrlReplacementProofs.DefaultTransformerKeepsTemplate | axis2/src/main/java/org/apache/ode/axis2/util/UrlReplacementTransformer.java:47-49 | the encoder without part names returns the template unchanged for an empty map, and for any other map fails naming all the supplied keys |
| UrlReplacementExamples.ReplaceAt | axis2/src/main/java/org/apache/ode/axis2/util/UrlReplacementTransformer.java:101-126 | the replacement result when the first segment holding the pattern lies at a given even position |
| UrlReplacementExamples.ThreeParts | axis2/src/main/java/org/apache/ode/axis2/util/UrlReplacementTransformer.java:76-90 | a template with three placeholders, each occurring once at its own place, substitutes to the same seven segments for every order that enumerates the three parts |
| UrlReplacementExamples.TemplateCase | axis2/src/test/java/org/apache/ode/axis2/util/UrlReplacementTransformerTest.java:37-48 | the template `o1/A(part1)B(part2)/(part3)` with any three simple values v1, v2, v3 gives `o1/A` v1 `B` v2 `/` v3 in every enumeration order, even when a value spells another part's placeholder |
| UrlReplacementExamples.RegularCase | axis2/src/test/java/org/apache/ode/axis2/util/UrlReplacementTransformerTest.java:41 | the values tutu, titi and toto give `o1/AtutuBtiti/toto`, in every enumeration order |
| UrlReplacementExamples.NumericCase | axis2/src/test/java/org/apache/ode/axis2/util/UrlReplacementTransformerTest.java:45 | the values 3, 14 and 159 give `o1/A3B14/159`, in every enumeration order |
| UrlReplacementExamples.EmptyValuesCase | axis2/src/test/java/org/apache/ode/axis2/util/UrlReplacementTransformerTest.java:46 | three empty elements give `o1/AB/`, in every enumeration order |
| UrlReplacementExamples.EndsAny | axis2/src/test/java/org/apache/ode/axis2/util/UrlReplacementTransformerTest.java:42 | in `(part1)B(part2)/(part3)`, which starts and ends with a placeholder, any three simple values v1, v2, v3 give v1 `B` v2 `/` v3, in every enumeration order |
| UrlReplacementExamples.EndsCase | axis2/src/test/java/org/apache/ode/axis2/util/UrlReplacementTransformerTest.java:42 | the values 3, 14 and 159 give `3B14/159`, in every enumeration order |
| UrlReplacementExamples.SinglePartCase | axis2/src/test/java/org/apache/ode/axis2/util/UrlReplacementTransformerTest.java:43 | the template `(part1)` gives exactly the part's text |
| UrlReplacementExamples.ParenthesisedAny | axis2/src/test/java/org/apache/ode/axis2/util/UrlReplacementTransformerTest.java:44 | in `o1/A((part1))B((part2))/((part3))` only the inner parentheses are consumed, for any three simple values and every enumeration order |
| UrlReplacementExamples.ParenthesisedCase | axis2/src/test/java/org/apache/ode/axis2/util/UrlReplacementTransformerTest.java:44 | the values 3, 14 and 159 give `o1/A(3)B(14)/(159)`, in every enumeration order |
| UrlReplacementExamples.MissingPatternCase | axis2/src/test/java/org/apache/ode/axis2/util/UrlReplacementTransformerTest.java:66-76 | the empty template with one declared part fails: a missing element is a missing simple type, and a text value is an invalid URI pattern |
| UrlReplacementExamples.ComplexTypeCase | axis2/src/test/java/org/apache/ode/axis2/util/UrlReplacementTransformerTest.java:78-92 | an element with a child element fails as a missing simple type |
| UrlReplacementExamples.DuplicateDependsOnOrder | axis2/src/main/java/org/apache/ode/axis2/util/UrlReplacementTransformer.java:60 | on `(a)(b)(a)` with both orders of the same map, taking `a` first fails but taking `b` first succeeds and keeps the second `(a)`, so the documented duplicate error depends on the iteration order |

## Left out

- Transformer: the class keeps the caller's `Set` object itself (line 52), so later changes the caller makes to that set are visible to the encoder. The model copies the set's value.
- Transform: the texts of the error messages come from message bundles and are not modelled. Each error is a constructor of `UrlError`, which carries the set of parts, or the part name, that the message mentions.
- Transform: the iteration order of `HashMap` is not modelled. It is the parameter `order`. Each lemma holds for every order that lists each key once, unless it names the orders it is about, as the duplicate lemmas do.
- Patterns.Split: `String.split` takes a regular expression. The pattern built on line 82 escapes both parentheses, so it matches literally as long as the part name holds no regular-expression metacharacters. Names that do are not modelled.
- UrlReplacement.ReplacementText: DOM elements and `DOMUtils` are not part of this model. An element is reduced to `Value`: empty, text only, with children, or absent. An absent element (a `null` in the map) is assumed to have no text content, which gives the simple-type error of lines 85-87.
- Transform: the size-and-containment test of line 64 is modelled as written. Mutation of the maps and sets during the call is left out.
- The SAX parser states of the BPEL parser and the compiled reply activity are not part of this model: neither takes part in building the URL.
