/**
 * The assertion accumulator of internal/pkg/checks/assert.go: an append-only
 * list of failures, the three assertion kinds that append to it, and the
 * two-tier `Assertions` (errors E, warnings W) with `Passed` and `String`.
 */
module Assert {
  import opened Text
  import opened Format

  /** An HTTP header map; a key that is absent is what Go sees as a nil lookup. */
  type Headers = map<string, seq<string>>

  /** `fmt.Errorf(template, first, second)`, kept with its operands. */
  datatype Failure = Failure(template: string, first: Value, second: Value)

  /** The rendered `error.Error()` text of a failure. */
  function ErrorText(f: Failure): string
  {
    Sprintf(f.template, [f.first, f.second])
  }

  type AssertionSet = seq<Failure>

  datatype Assertions = Assertions(E: AssertionSet, W: AssertionSet)

  const DefaultTemplate: string := "expected '%v' but was '%v'"
  const MissingHeaderTemplate: string := "expected headers to contain '%v' but contained '%v'"
  const ExactHeadersTemplate: string := "expected headers to only contain '%v' but contained '%v'"

  /** The template DeepEquals formats with: the caller's, or the default when it is empty. */
  function EffectiveTemplate(errorTemplate: string): (t: string)
    ensures errorTemplate != "" ==> t == errorTemplate
    ensures errorTemplate == "" ==> t == DefaultTemplate
  {
    if errorTemplate == "" then DefaultTemplate else errorTemplate
  }

  /**
   * `DeepEquals(actual, expected, errorTemplate)`: structural equality of two
   * dynamic values (same kind and same contents, as `reflect.DeepEqual`);
   * a mismatch appends one failure formatted with expected first.
   */
  function DeepEquals(a: AssertionSet, actual: Value, expected: Value, errorTemplate: string): (r: AssertionSet)
    ensures |a| <= |r| && r[..|a|] == a
    ensures expected == actual <==> r == a
    ensures expected != actual ==>
      |r| == |a| + 1 && r[|a|] == Failure(EffectiveTemplate(errorTemplate), expected, actual)
  {
    if expected == actual then a
    else a + [Failure(EffectiveTemplate(errorTemplate), expected, actual)]
  }

  /** The expected keys, in order and with repetitions, that `actual` lacks. */
  function Absent(actual: Headers, expected: seq<string>): (r: seq<string>)
    ensures |r| <= |expected|
    ensures forall i :: 0 <= i < |r| ==> r[i] !in actual && r[i] in expected
    ensures |r| == 0 <==> forall k :: k in expected ==> k in actual
  {
    if |expected| == 0 then []
    else (if expected[0] in actual then [] else [expected[0]]) + Absent(actual, expected[1..])
  }

  function MissingHeader(actual: Headers, key: string): Failure
  {
    Failure(MissingHeaderTemplate, Str(key), HeaderMap(actual))
  }

  /**
   * `ContainsHeaders(actual, expected)`: walks `expected` left to right and
   * appends one failure per key whose lookup in `actual` is nil; values are
   * never inspected.
   */
  function ContainsHeaders(a: AssertionSet, actual: Headers, expected: seq<string>): (r: AssertionSet)
    decreases |expected|
    ensures |r| == |a| + |Absent(actual, expected)|
    ensures r[..|a|] == a
    ensures forall i :: 0 <= i < |Absent(actual, expected)| ==>
      r[|a| + i] == MissingHeader(actual, Absent(actual, expected)[i])
  {
    if |expected| == 0 then a
    else
      var k := expected[0];
      var a' := if k in actual then a else a + [MissingHeader(actual, k)];
      assert Absent(actual, expected) == (if k in actual then [] else [k]) + Absent(actual, expected[1..]);
      ContainsHeaders(a', actual, expected[1..])
  }

  /** ContainsHeaders records nothing exactly when every expected key is present. */
  lemma ContainsHeadersPasses(a: AssertionSet, actual: Headers, expected: seq<string>)
    ensures ContainsHeaders(a, actual, expected) == a <==> forall k :: k in expected ==> k in actual
  {
    var r := ContainsHeaders(a, actual, expected);
    if r == a {
      assert |Absent(actual, expected)| == 0;
    }
  }

  /**
   * `ContainsExactHeaders(actual, expected)`: ContainsHeaders, then one more
   * failure when the number of header keys differs from the length of `expected`.
   */
  function ContainsExactHeaders(a: AssertionSet, actual: Headers, expected: seq<string>): (r: AssertionSet)
    ensures var c := ContainsHeaders(a, actual, expected);
      |c| <= |r| && r[..|c|] == c &&
      (|actual| == |expected| ==> r == c) &&
      (|actual| != |expected| ==> |r| == |c| + 1 && r[|c|] == Failure(ExactHeadersTemplate, StrList(expected), HeaderMap(actual)))
    ensures r == a <==> (forall k :: k in expected ==> k in actual) && |actual| == |expected|
  {
    var c := ContainsHeaders(a, actual, expected);
    ContainsHeadersPasses(a, actual, expected);
    if |actual| != |expected| then c + [Failure(ExactHeadersTemplate, StrList(expected), HeaderMap(actual))]
    else c
  }

  /** An assertion step that only appends leaves the set empty exactly when it was empty and nothing was appended. */
  lemma StepEmpty(a: AssertionSet, r: AssertionSet)
    requires |a| <= |r| && r[..|a|] == a
    ensures r == [] <==> a == [] && r == a
  {
  }

  /** ContainsExactHeaders only appends to the set it is given. */
  lemma ExactHeadersExtends(a: AssertionSet, actual: Headers, expected: seq<string>)
    ensures var r := ContainsExactHeaders(a, actual, expected); |a| <= |r| && r[..|a|] == a
  {
    var c := ContainsHeaders(a, actual, expected);
    var r := ContainsExactHeaders(a, actual, expected);
    assert r[..|a|] == r[..|c|][..|a|];
  }

  /** A comparison leaves the set empty exactly when it was empty and the values agree. */
  lemma DeepEqualsEmpty(a: AssertionSet, actual: Value, expected: Value, errorTemplate: string)
    ensures DeepEquals(a, actual, expected, errorTemplate) == [] <==> a == [] && actual == expected
  {
    StepEmpty(a, DeepEquals(a, actual, expected, errorTemplate));
  }

  predicate NoDuplicates(xs: seq<string>)
  {
    forall i, j :: 0 <= i < j < |xs| ==> xs[i] != xs[j]
  }

  function ToSet(xs: seq<string>): set<string>
  {
    set x | x in xs
  }

  lemma {:induction false} ToSetSize(xs: seq<string>)
    requires NoDuplicates(xs)
    ensures |ToSet(xs)| == |xs|
  {
    if |xs| > 0 {
      ToSetSize(xs[1..]);
      assert ToSet(xs) == {xs[0]} + ToSet(xs[1..]);
      assert xs[0] !in ToSet(xs[1..]);
    }
  }

  /**
   * With distinct expected keys, ContainsExactHeaders records nothing exactly
   * when the header key set is the expected set: a missing key or any extra
   * key is reported.
   */
  lemma ExactHeadersIsKeySetEquality(a: AssertionSet, actual: Headers, expected: seq<string>)
    requires NoDuplicates(expected)
    ensures ContainsExactHeaders(a, actual, expected) == a <==> actual.Keys == ToSet(expected)
  {
    ToSetSize(expected);
    if (forall k :: k in expected ==> k in actual) && |actual| == |expected| {
      assert ToSet(expected) <= actual.Keys;
      assert |actual.Keys| == |actual|;
      SubsetSameSize(ToSet(expected), actual.Keys);
    }
    if actual.Keys == ToSet(expected) {
      assert |actual.Keys| == |actual|;
    }
  }

  lemma {:induction false} SubsetSize(s: set<string>, t: set<string>)
    requires s <= t
    ensures |s| <= |t|
    decreases |s|
  {
    if s != {} {
      var x :| x in s;
      SubsetSize(s - {x}, t - {x});
    }
  }

  lemma SubsetSameSize(s: set<string>, t: set<string>)
    requires s <= t && |s| == |t|
    ensures s == t
  {
    if s != t {
      var x :| x in t && x !in s;
      SubsetSize(s, t - {x});
    }
  }

  /** `Assertions.Passed`: true when no error-tier failure was recorded. */
  predicate Passed(a: Assertions)
  {
    |a.E| == 0
  }

  /** Warnings are recorded but never decide the outcome. */
  lemma PassedIgnoresWarnings(e: AssertionSet, w1: AssertionSet, w2: AssertionSet)
    ensures Passed(Assertions(e, w1)) == Passed(Assertions(e, w2))
    ensures Passed(Assertions(e, w1)) <==> e == []
  {
  }

  /** One rendered line of `Assertions.String`, with its 1-based number. */
  function Line(tag: string, n: nat, f: Failure): string
  {
    "\t" + tag + " " + NatToString(n) + ") Assertion failed: " + ErrorText(f) + "\n"
  }

  /** The lines for one tier, numbered from 1. */
  function Numbered(tag: string, fs: AssertionSet): (r: seq<string>)
    ensures |r| == |fs|
    ensures forall i :: 0 <= i < |fs| ==> r[i] == Line(tag, i + 1, fs[i])
  {
    seq(|fs|, i requires 0 <= i < |fs| => Line(tag, i + 1, fs[i]))
  }

  lemma NumberedStep(tag: string, fs: AssertionSet, i: nat)
    requires i < |fs|
    ensures Concat(Numbered(tag, fs[..i + 1])) == Concat(Numbered(tag, fs[..i])) + Line(tag, i + 1, fs[i])
  {
    assert Numbered(tag, fs[..i + 1]) == Numbered(tag, fs[..i]) + [Line(tag, i + 1, fs[i])];
    ConcatAppend(Numbered(tag, fs[..i]), [Line(tag, i + 1, fs[i])]);
  }

  /**
   * `Assertions.String`: accumulates one line per error (tag "ERROR") and then
   * one per warning (tag "WARN "), each tier numbered from 1.
   */
  method Render(a: Assertions) returns (s: string)
    ensures s == Concat(Numbered("ERROR", a.E)) + Concat(Numbered("WARN ", a.W))
  {
    var errors := RenderTier("ERROR", a.E);
    var warnings := RenderTier("WARN ", a.W);
    s := errors + warnings;
  }

  /** One tier's loop of `Assertions.String`: a numbered line per failure, in order. */
  method RenderTier(tag: string, fs: AssertionSet) returns (s: string)
    ensures s == Concat(Numbered(tag, fs))
  {
    s := "";
    for i := 0 to |fs|
      invariant s == Concat(Numbered(tag, fs[..i]))
    {
      NumberedStep(tag, fs, i);
      s := s + Line(tag, i + 1, fs[i]);
    }
    assert fs[..|fs|] == fs;
  }

  /** The rendering is empty exactly when nothing was recorded in either tier. */
  lemma RenderEmptyIff(a: Assertions)
    ensures Concat(Numbered("ERROR", a.E)) + Concat(Numbered("WARN ", a.W)) == "" <==> a.E == [] && a.W == []
  {
    ConcatEmpty(Numbered("ERROR", a.E));
    ConcatEmpty(Numbered("WARN ", a.W));
    if |a.E| > 0 {
      assert Numbered("ERROR", a.E)[0] != "";
    }
    if |a.W| > 0 {
      assert Numbered("WARN ", a.W)[0] != "";
    }
  }

  /** One comparison handed to DeepEquals. */
  datatype Comparison = Comparison(actual: Value, expected: Value, template: string)

  /** A run of DeepEquals calls, in order, on one set. */
  function DeepEqualsAll(a: AssertionSet, cs: seq<Comparison>): AssertionSet
    decreases |cs|
  {
    if |cs| == 0 then a
    else DeepEqualsAll(DeepEquals(a, cs[0].actual, cs[0].expected, cs[0].template), cs[1..])
  }

  function Mismatches(cs: seq<Comparison>): nat
  {
    if |cs| == 0 then 0
    else (if cs[0].actual != cs[0].expected then 1 else 0) + Mismatches(cs[1..])
  }

  /** N mismatching DeepEquals calls record exactly N failures after the prior ones. */
  lemma {:induction false} DeepEqualsAllCounts(a: AssertionSet, cs: seq<Comparison>)
    decreases |cs|
    ensures |DeepEqualsAll(a, cs)| == |a| + Mismatches(cs)
    ensures DeepEqualsAll(a, cs)[..|a|] == a
  {
    if |cs| > 0 {
      var a' := DeepEquals(a, cs[0].actual, cs[0].expected, cs[0].template);
      DeepEqualsAllCounts(a', cs[1..]);
      assert DeepEqualsAll(a, cs)[..|a'|] == a';
      assert a'[..|a|] == a;
    }
  }
}
