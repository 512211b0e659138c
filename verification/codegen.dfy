/**
 * The pure logic of hack/codegen.go, the generator that keeps each feature's
 * Go step file in step with its Gherkin feature file: the package name
 * derived from a feature file, the rendering of argument lists, the scan of
 * a step expression for its argument groups, the de-duplicating collection
 * of step definitions, the new-function and signature comparisons, and the
 * final decision whether to write, update or fail.
 */
module Codegen {
  import opened Wrappers
  import opened Text
  import opened StringOrder

  // ---------------------------------------------------------------------------
  // Package names

  /** `path.Base`: the last slash-separated element, ignoring trailing slashes; "." for "" and "/" for all slashes. */
  function Base(p: string): (r: string)
    ensures r != ""
    ensures r == "/" || forall i :: 0 <= i < |r| ==> r[i] != '/'
  {
    if p == "" then "."
    else
      var t := TrimRightChar(p, '/');
      if t == "" then "/"
      else
        var i := LastIndexOf(t, '/');
        assert i < |t| - 1;
        t[i + 1..]
  }

  /** `generatePackage`: the base name lower-cased, with every "_" and every ".feature" removed. */
  function GeneratePackage(p: string): string
  {
    ReplaceAll(ReplaceAll(ToLower(Base(p)), "_", ""), ".feature", "")
  }

  /** Deleting every occurrence of a pattern never introduces a character. */
  lemma {:induction false} DeleteKeepsCharacters(s: string, pat: string, c: char)
    requires |pat| > 0
    requires c !in s
    ensures c !in ReplaceAll(s, pat, "")
    decreases |s|
  {
    if |s| > 0 {
      if HasPrefix(s, pat) {
        HasPrefixIsSlice(s, pat);
        assert forall k :: 0 <= k < |s[|pat|..]| ==> s[|pat|..][k] == s[k + |pat|];
        DeleteKeepsCharacters(s[|pat|..], pat, c);
      } else {
        assert forall k :: 0 <= k < |s[1..]| ==> s[1..][k] == s[k + 1];
        DeleteKeepsCharacters(s[1..], pat, c);
      }
    }
  }

  /** Deleting a one-character pattern leaves none of that character. */
  lemma {:induction false} DeleteRemovesCharacter(s: string, c: char)
    ensures c !in ReplaceAll(s, [c], "")
    decreases |s|
  {
    if |s| > 0 {
      if HasPrefix(s, [c]) {
        DeleteRemovesCharacter(s[1..], c);
      } else {
        HasPrefixIsSlice(s, [c]);
        assert s[..1] == [s[0]];
        DeleteRemovesCharacter(s[1..], c);
      }
    }
  }

  /** A derived package name has no underscore, no upper-case ASCII letter and no slash. */
  lemma GeneratePackageIsIdentifierLike(p: string)
    requires Base(p) != "/"
    ensures var r := GeneratePackage(p);
      '_' !in r && '/' !in r && forall i :: 0 <= i < |r| ==> !IsUpperAscii(r[i])
  {
    var lowered := ToLower(Base(p));
    var noUnderscore := ReplaceAll(lowered, "_", "");
    DeleteRemovesCharacter(lowered, '_');
    assert "_" == ['_'];
    DeleteKeepsCharacters(noUnderscore, ".feature", '_');
    assert '/' !in lowered;
    DeleteKeepsCharacters(lowered, "_", '/');
    DeleteKeepsCharacters(noUnderscore, ".feature", '/');
    forall c: char | IsUpperAscii(c)
      ensures c !in GeneratePackage(p)
    {
      assert c !in lowered;
      DeleteKeepsCharacters(lowered, "_", c);
      DeleteKeepsCharacters(noUnderscore, ".feature", c);
    }
  }

  // ---------------------------------------------------------------------------
  // Argument lists

  /** One entry of an ordered argument map: its key (name) and value (Go type). */
  datatype Arg = Arg(key: string, value: string)

  function ArgItem(a: Arg, onlyType: bool): string
  {
    if onlyType then a.value else a.key + " " + a.value
  }

  function ArgItems(args: seq<Arg>, onlyType: bool): (r: seq<string>)
    ensures |r| == |args|
    ensures forall i :: 0 <= i < |args| ==> r[i] == ArgItem(args[i], onlyType)
  {
    seq(|args|, i requires 0 <= i < |args| => ArgItem(args[i], onlyType))
  }

  /** The items each followed by ", ", as the loop of `argsFromMap` accumulates them. */
  function Accumulated(items: seq<string>): string
  {
    if |items| == 0 then "" else items[0] + ", " + Accumulated(items[1..])
  }

  /** `argsFromMap` as written: accumulate "item, " and cut the last two characters when there were any. */
  function ArgsFromMap(args: seq<Arg>, onlyType: bool): string
  {
    var s := "(" + Accumulated(ArgItems(args, onlyType));
    var s' := if |args| > 0 then (assert |s| >= 2 by { AccumulatedLength(ArgItems(args, onlyType)); } s[..|s| - 2]) else s;
    s' + ")"
  }

  lemma {:induction false} AccumulatedLength(items: seq<string>)
    requires |items| > 0
    ensures |Accumulated(items)| >= 2
  {
    assert Accumulated(items) == items[0] + ", " + Accumulated(items[1..]);
  }

  /** The accumulated text is the joined items with one trailing separator. */
  lemma {:induction false} AccumulatedIsJoin(items: seq<string>)
    requires |items| > 0
    ensures Accumulated(items) == Join(items, ", ") + ", "
    decreases |items|
  {
    if |items| > 1 {
      AccumulatedIsJoin(items[1..]);
    } else {
      assert Accumulated(items[1..]) == "";
    }
  }

  /** `argsFromMap` renders "(" + the items joined by ", " + ")": no trailing separator, "()" for none. */
  lemma ArgsFromMapIsJoin(args: seq<Arg>, onlyType: bool)
    ensures ArgsFromMap(args, onlyType) == "(" + Join(ArgItems(args, onlyType), ", ") + ")"
  {
    var items := ArgItems(args, onlyType);
    if |args| > 0 {
      AccumulatedIsJoin(items);
      var s := "(" + Accumulated(items);
      assert s == ("(" + Join(items, ", ")) + ", ";
      assert s[..|s| - 2] == "(" + Join(items, ", ");
    }
  }

  // ---------------------------------------------------------------------------
  // Step argument scan

  /** The two regular-expression groups a step expression may contain. */
  const NumberGroup: string := "(\\d+)"
  const StringGroup: string := "\"([^\"]*)\""

  /** The two groups start with different characters, so they never start at the same index. */
  lemma GroupsNeverCoincide(s: string, i: int)
    requires OccursAt(s, NumberGroup, i)
    ensures !OccursAt(s, StringGroup, i)
  {
    assert s[i] == s[i..i + |NumberGroup|][0] == '(';
  }

  /** The first group occurrence in `s` (index and type), or `None` when neither occurs. */
  function NextGroup(s: string): (r: Option<(int, string)>)
    ensures r.None? <==> Index(s, NumberGroup) == -1 && Index(s, StringGroup) == -1
    ensures r.Some? ==> r.value.1 in {"int", "string"}
    ensures r.Some? && r.value.1 == "int" ==> OccursAt(s, NumberGroup, r.value.0)
    ensures r.Some? && r.value.1 == "string" ==> OccursAt(s, StringGroup, r.value.0)
    ensures r.Some? ==> forall j :: 0 <= j < r.value.0 ==> !OccursAt(s, NumberGroup, j) && !OccursAt(s, StringGroup, j)
  {
    var ipos := Index(s, NumberGroup);
    var spos := Index(s, StringGroup);
    if spos == -1 && ipos == -1 then None
    else if spos == -1 then Some((ipos, "int"))
    else if ipos == -1 then Some((spos, "string"))
    else if ipos < spos then Some((ipos, "int"))
    else if spos < ipos then Some((spos, "string"))
    else GroupsNeverCoincide(s, ipos); assert false; None
  }

  function GroupLength(t: string): nat
  {
    if t == "int" then |NumberGroup| else |StringGroup|
  }

  /** One pass of the scanning loop: the type found and the position after its group, or `None` at the end. */
  function Advance(exp: string, pos: nat): (r: Option<(nat, string)>)
    requires pos <= |exp|
    ensures r.Some? ==> pos + 5 <= r.value.0 <= |exp|
  {
    match NextGroup(exp[pos..])
    case None => None
    case Some((i, t)) => Some((pos + i + GroupLength(t), t))
  }

  /** The types the left-to-right scan of `parseStepArgs` finds in `exp[pos..]`. */
  function Scan(exp: string, pos: nat): (r: seq<string>)
    requires pos <= |exp|
    decreases |exp| - pos
    ensures 5 * |r| <= |exp| - pos
  {
    match Advance(exp, pos)
    case None => []
    case Some((next, t)) => [t] + Scan(exp, next)
  }

  /** Every type the scan finds is "int" or "string". */
  lemma {:induction false} ScanTypes(exp: string, pos: nat)
    requires pos <= |exp|
    decreases |exp| - pos
    ensures forall i :: 0 <= i < |Scan(exp, pos)| ==> Scan(exp, pos)[i] in {"int", "string"}
  {
    match Advance(exp, pos)
    case None =>
    case Some((next, t)) =>
      ScanTypes(exp, next);
  }

  /** An expression without either group has no arguments. */
  lemma NoGroupsNoArgs(exp: string)
    requires forall j :: 0 <= j <= |exp| ==> !OccursAt(exp, NumberGroup, j) && !OccursAt(exp, StringGroup, j)
    ensures Scan(exp, 0) == []
  {
    assert exp[0..] == exp;
  }

  /** The step argument a pickle step may carry. */
  datatype PickleArgument = PickleArgument(hasDocString: bool, hasDataTable: bool)

  const DocStringType: string := "*messages.PickleStepArgument_PickleDocString"
  const DataTableType: string := "*messages.PickleStepArgument_PickleTable"

  function ExtraTypes(argument: Option<PickleArgument>): seq<string>
  {
    if argument.None? then []
    else (if argument.value.hasDocString then [DocStringType] else []) +
         (if argument.value.hasDataTable then [DataTableType] else [])
  }

  function ArgKey(i: nat): string
  {
    "arg" + NatToString(i + 1)
  }

  /**
   * `parseStepArgs`: the group types in position order, then the doc-string
   * and data-table types when present, keyed arg1..argN.
   */
  method ParseStepArgs(exp: string, argument: Option<PickleArgument>) returns (stepArgs: seq<Arg>)
    ensures ArgsFor(stepArgs, exp, argument)
  {
    var groups := ScanGroups(exp);
    stepArgs := KeyArgs(groups + ExtraTypes(argument));
  }

  /** `args` are the types `parseStepArgs` derives from `exp` and `argument`, keyed arg1..argN. */
  predicate ArgsFor(args: seq<Arg>, exp: string, argument: Option<PickleArgument>)
  {
    |args| == |Scan(exp, 0)| + |ExtraTypes(argument)| &&
    forall i :: 0 <= i < |args| ==> args[i] == Arg(ArgKey(i), (Scan(exp, 0) + ExtraTypes(argument))[i])
  }

  /** The keying loop of `parseStepArgs`: the i-th type gets the key arg<i+1>. */
  method KeyArgs(types: seq<string>) returns (stepArgs: seq<Arg>)
    ensures |stepArgs| == |types|
    ensures forall i :: 0 <= i < |types| ==> stepArgs[i] == Arg(ArgKey(i), types[i])
  {
    stepArgs := [];
    for i := 0 to |types|
      invariant |stepArgs| == i
      invariant forall k :: 0 <= k < i ==> stepArgs[k] == Arg(ArgKey(k), types[k])
    {
      stepArgs := stepArgs + [Arg(ArgKey(i), types[i])];
    }
  }

  lemma AppendAssociates(a: seq<string>, b: seq<string>, c: seq<string>)
    ensures (a + b) + c == a + (b + c)
  {
  }

  /** The scanning loop of `parseStepArgs`: the group types of `exp` in position order. */
  method ScanGroups(exp: string) returns (args: seq<string>)
    ensures args == Scan(exp, 0)
  {
    args := [];
    var pos: nat := 0;
    while true
      invariant pos <= |exp|
      invariant args + Scan(exp, pos) == Scan(exp, 0)
      decreases |exp| - pos
    {
      match Advance(exp, pos)
      case None =>
        return;
      case Some((next, t)) =>
        ghost var rest := Scan(exp, next);
        AppendAssociates(args, [t], rest);
        args := args + [t];
        pos := next;
    }
  }

  // ---------------------------------------------------------------------------
  // Step definitions

  /** A step definition: a Go function name, the step's regular expression, and its arguments. */
  datatype Function = Function(name: string, expr: string, args: seq<Arg>)

  /** A Gherkin step: its text and its optional argument. */
  datatype Step = Step(text: string, argument: Option<PickleArgument>)

  function Exprs(defs: seq<Function>): set<string>
  {
    set i | 0 <= i < |defs| :: defs[i].expr
  }

  function FallbackName(index: nat): string
  {
    "StepDefinitioninition" + NatToString(index)
  }

  /** How many of the first `n` steps derive an empty name. */
  function EmptyNames(steps: seq<Step>, nameOf: string -> string, n: nat): nat
    requires n <= |steps|
  {
    if n == 0 then 0
    else EmptyNames(steps, nameOf, n - 1) + (if nameOf(steps[n - 1].text) == "" then 1 else 0)
  }

  /**
   * The name `parseSteps` gives step `i`: the derived one, or, when that is
   * empty, the fallback numbered by the empty names so far, this one included.
   */
  function StepName(steps: seq<Step>, nameOf: string -> string, i: nat): string
    requires i < |steps|
  {
    if nameOf(steps[i].text) != "" then nameOf(steps[i].text)
    else FallbackName(EmptyNames(steps, nameOf, i + 1))
  }

  /** Step `i` is the first whose expression is `e`. */
  predicate FirstStepOf(steps: seq<Step>, exprOf: string -> string, e: string, i: int)
  {
    0 <= i < |steps| && exprOf(steps[i].text) == e &&
    forall i' :: 0 <= i' < i ==> exprOf(steps[i'].text) != e
  }

  /**
   * `parseSteps`, with the regular-expression derivations of the expression
   * and of the name supplied as `exprOf` and `nameOf`: a step whose
   * expression is already defined adds nothing; an empty name falls back to
   * a numbered one.
   */
  method ParseSteps(steps: seq<Step>, funcDefs: seq<Function>,
                    exprOf: string -> string, nameOf: string -> string) returns (defs: seq<Function>)
    ensures Collected(steps, funcDefs, defs, |steps|, exprOf, nameOf)
  {
    defs := funcDefs;
    var index: nat := 0;
    for s := 0 to |steps|
      invariant Collected(steps, funcDefs, defs, s, exprOf, nameOf)
      invariant index == EmptyNames(steps, nameOf, s)
    {
      var expr := exprOf(steps[s].text);
      var name := nameOf(steps[s].text);
      if |name| == 0 {
        index := index + 1;
        name := FallbackName(index);
      }
      var found := Defined(defs, expr);
      if !found {
        var args := ParseStepArgs(expr, steps[s].argument);
        CollectAppends(steps, funcDefs, defs, s, exprOf, nameOf, Function(name, expr, args));
        defs := defs + [Function(name, expr, args)];
      } else {
        CollectSkips(steps, funcDefs, defs, s, exprOf, nameOf);
      }
    }
  }

  /**
   * Definition `j` was appended for the first step `i` with its expression:
   * it carries that step's name and the arguments derived from it.
   */
  ghost predicate AppendedFor(steps: seq<Step>, d: Function, i: int, exprOf: string -> string, nameOf: string -> string)
  {
    FirstStepOf(steps, exprOf, d.expr, i) && d.name == StepName(steps, nameOf, i) &&
    ArgsFor(d.args, d.expr, steps[i].argument)
  }

  /**
   * What `parseSteps` has built after the first `n` steps: the existing
   * definitions untouched at the front; every step's expression defined;
   * each appended definition new, distinct from the other appended ones,
   * and built from the first step with its expression, in step order.
   */
  ghost predicate Collected(steps: seq<Step>, funcDefs: seq<Function>, defs: seq<Function>, n: nat,
                            exprOf: string -> string, nameOf: string -> string)
  {
    n <= |steps| && FreshAppends(funcDefs, defs) &&
    (forall i :: 0 <= i < n ==> exprOf(steps[i].text) in Exprs(defs)) &&
    Explained(steps, funcDefs, defs, n, exprOf, nameOf)
  }

  /**
   * `defs` extends `funcDefs` with named definitions whose expressions are
   * new and pairwise distinct.
   */
  predicate FreshAppends(funcDefs: seq<Function>, defs: seq<Function>)
  {
    |funcDefs| <= |defs| && defs[..|funcDefs|] == funcDefs &&
    (forall j :: |funcDefs| <= j < |defs| ==> defs[j].expr !in Exprs(funcDefs)) &&
    (forall j, k :: |funcDefs| <= j < k < |defs| ==> defs[j].expr != defs[k].expr) &&
    (forall j :: |funcDefs| <= j < |defs| ==> defs[j].name != "")
  }

  /** Each appended definition comes from one of the first `n` steps, in step order. */
  ghost predicate Explained(steps: seq<Step>, funcDefs: seq<Function>, defs: seq<Function>, n: nat,
                            exprOf: string -> string, nameOf: string -> string)
  {
    (forall j :: |funcDefs| <= j < |defs| ==> AppendedWithin(steps, defs[j], n, exprOf, nameOf)) &&
    (forall j, k :: |funcDefs| <= j < k < |defs| ==> StepOrder(steps, exprOf, defs[j].expr, defs[k].expr))
  }

  /** `d` was appended for one of the first `n` steps. */
  ghost predicate AppendedWithin(steps: seq<Step>, d: Function, n: nat, exprOf: string -> string, nameOf: string -> string)
  {
    exists i :: 0 <= i < n && AppendedFor(steps, d, i, exprOf, nameOf)
  }

  /** The first step with expression `a` comes before the first step with expression `b`. */
  predicate StepOrder(steps: seq<Step>, exprOf: string -> string, a: string, b: string)
  {
    forall i1, i2 :: (0 <= i1 < |steps| && 0 <= i2 < |steps| &&
                      FirstStepOf(steps, exprOf, a, i1) && FirstStepOf(steps, exprOf, b, i2)) ==> i1 < i2
  }

  /** The first step with an expression is unique. */
  lemma FirstStepUnique(steps: seq<Step>, exprOf: string -> string, e: string, a: int, b: int)
    requires FirstStepOf(steps, exprOf, e, a) && FirstStepOf(steps, exprOf, e, b)
    ensures a == b
  {
  }

  lemma CollectAppends(steps: seq<Step>, funcDefs: seq<Function>, defs: seq<Function>, n: nat,
                       exprOf: string -> string, nameOf: string -> string, d: Function)
    requires Collected(steps, funcDefs, defs, n, exprOf, nameOf) && n < |steps|
    requires d.expr == exprOf(steps[n].text) && d.expr !in Exprs(defs)
    requires d.name == StepName(steps, nameOf, n) && ArgsFor(d.args, d.expr, steps[n].argument)
    ensures Collected(steps, funcDefs, defs + [d], n + 1, exprOf, nameOf)
  {
    AppendedForNew(steps, defs, n, exprOf, nameOf, d);
    AppendKeepsFresh(funcDefs, defs, d);
    AppendKeepsExplained(steps, funcDefs, defs, n, exprOf, nameOf, d);
  }

  lemma AppendKeepsExplained(steps: seq<Step>, funcDefs: seq<Function>, defs: seq<Function>, n: nat,
                             exprOf: string -> string, nameOf: string -> string, d: Function)
    requires |funcDefs| <= |defs| && Explained(steps, funcDefs, defs, n, exprOf, nameOf)
    requires AppendedFor(steps, d, n, exprOf, nameOf)
    ensures Explained(steps, funcDefs, defs + [d], n + 1, exprOf, nameOf)
  {
    AppendKeepsWithin(steps, funcDefs, defs, n, exprOf, nameOf, d);
    AppendKeepsOrder(steps, funcDefs, defs, n, exprOf, nameOf, d);
  }

  /** The definition for step `n`, whose expression is new, is built from the first step with it. */
  lemma AppendedForNew(steps: seq<Step>, defs: seq<Function>, n: nat,
                       exprOf: string -> string, nameOf: string -> string, d: Function)
    requires n < |steps| && forall i :: 0 <= i < n ==> exprOf(steps[i].text) in Exprs(defs)
    requires d.expr == exprOf(steps[n].text) && d.expr !in Exprs(defs)
    requires d.name == StepName(steps, nameOf, n) && ArgsFor(d.args, d.expr, steps[n].argument)
    ensures AppendedFor(steps, d, n, exprOf, nameOf) && d.name != ""
  {
    if nameOf(steps[n].text) == "" {
      assert StepName(steps, nameOf, n) == FallbackName(EmptyNames(steps, nameOf, n + 1));
    }
    forall i' | 0 <= i' < n ensures exprOf(steps[i'].text) != d.expr {
      assert exprOf(steps[i'].text) in Exprs(defs);
    }
  }

  /** Appending a named definition with a new expression keeps the prefix, freshness and distinctness. */
  lemma AppendKeepsFresh(funcDefs: seq<Function>, defs: seq<Function>, d: Function)
    requires FreshAppends(funcDefs, defs)
    requires d.expr !in Exprs(defs) && d.name != ""
    ensures FreshAppends(funcDefs, defs + [d])
    ensures Exprs(defs + [d]) == Exprs(defs) + {d.expr}
  {
    var ds := defs + [d];
    PrefixExprs(funcDefs, defs);
    AppendExprs(defs, d);
    assert ds[..|funcDefs|] == funcDefs by {
      assert ds[..|funcDefs|] == defs[..|funcDefs|];
    }
    forall j, k | |funcDefs| <= j < k < |ds|
      ensures ds[j].expr != ds[k].expr
    {
      assert ds[j] == defs[j];
      if k < |defs| {
        assert ds[k] == defs[k];
      } else {
        assert defs[j].expr in Exprs(defs);
      }
    }
    forall j | |funcDefs| <= j < |ds|
      ensures ds[j].expr !in Exprs(funcDefs) && ds[j].name != ""
    {
      if j < |defs| {
        assert ds[j] == defs[j];
      }
    }
  }

  /** Appending the definition for step `n` keeps every appended definition explained by a step. */
  lemma AppendKeepsWithin(steps: seq<Step>, funcDefs: seq<Function>, defs: seq<Function>, n: nat,
                          exprOf: string -> string, nameOf: string -> string, d: Function)
    requires |funcDefs| <= |defs|
    requires forall j :: |funcDefs| <= j < |defs| ==> AppendedWithin(steps, defs[j], n, exprOf, nameOf)
    requires AppendedFor(steps, d, n, exprOf, nameOf)
    ensures forall j :: |funcDefs| <= j < |defs + [d]| ==> AppendedWithin(steps, (defs + [d])[j], n + 1, exprOf, nameOf)
  {
    var ds := defs + [d];
    forall j | |funcDefs| <= j < |ds|
      ensures AppendedWithin(steps, ds[j], n + 1, exprOf, nameOf)
    {
      if j < |defs| {
        assert ds[j] == defs[j];
        var i :| 0 <= i < n && AppendedFor(steps, defs[j], i, exprOf, nameOf);
        assert 0 <= i < n + 1;
      } else {
        assert 0 <= n < n + 1 && AppendedFor(steps, ds[j], n, exprOf, nameOf);
      }
    }
  }

  /** Appending the definition for step `n` keeps the appended definitions in step order. */
  lemma AppendKeepsOrder(steps: seq<Step>, funcDefs: seq<Function>, defs: seq<Function>, n: nat,
                         exprOf: string -> string, nameOf: string -> string, d: Function)
    requires |funcDefs| <= |defs|
    requires forall j :: |funcDefs| <= j < |defs| ==> AppendedWithin(steps, defs[j], n, exprOf, nameOf)
    requires forall j, k :: |funcDefs| <= j < k < |defs| ==> StepOrder(steps, exprOf, defs[j].expr, defs[k].expr)
    requires FirstStepOf(steps, exprOf, d.expr, n)
    ensures forall j, k :: |funcDefs| <= j < k < |defs + [d]| ==>
      StepOrder(steps, exprOf, (defs + [d])[j].expr, (defs + [d])[k].expr)
  {
    var ds := defs + [d];
    forall j, k | |funcDefs| <= j < k < |ds|
      ensures StepOrder(steps, exprOf, ds[j].expr, ds[k].expr)
    {
      assert ds[j] == defs[j];
      if k < |defs| {
        assert ds[k] == defs[k];
      } else {
        assert AppendedWithin(steps, defs[j], n, exprOf, nameOf);
        var i :| 0 <= i < n && AppendedFor(steps, defs[j], i, exprOf, nameOf);
        forall i1, i2 | 0 <= i1 < |steps| && 0 <= i2 < |steps| &&
            FirstStepOf(steps, exprOf, ds[j].expr, i1) && FirstStepOf(steps, exprOf, ds[k].expr, i2)
          ensures i1 < i2
        {
          FirstStepUnique(steps, exprOf, defs[j].expr, i, i1);
          FirstStepUnique(steps, exprOf, d.expr, n, i2);
        }
      }
    }
  }

  lemma CollectSkips(steps: seq<Step>, funcDefs: seq<Function>, defs: seq<Function>, n: nat,
                     exprOf: string -> string, nameOf: string -> string)
    requires Collected(steps, funcDefs, defs, n, exprOf, nameOf) && n < |steps|
    requires exprOf(steps[n].text) in Exprs(defs)
    ensures Collected(steps, funcDefs, defs, n + 1, exprOf, nameOf)
  {
    forall j | |funcDefs| <= j < |defs|
      ensures AppendedWithin(steps, defs[j], n + 1, exprOf, nameOf)
    {
      assert AppendedWithin(steps, defs[j], n, exprOf, nameOf);
      var i :| 0 <= i < n && AppendedFor(steps, defs[j], i, exprOf, nameOf);
      assert 0 <= i < n + 1;
    }
  }

  /** The inner loop of `parseSteps`: whether some definition already has `expr`. */
  method Defined(defs: seq<Function>, expr: string) returns (found: bool)
    ensures found <==> expr in Exprs(defs)
  {
    found := false;
    for f := 0 to |defs|
      invariant found <==> exists k :: 0 <= k < f && defs[k].expr == expr
    {
      if defs[f].expr == expr {
        found := true;
      }
    }
  }

  lemma PrefixExprs(funcDefs: seq<Function>, defs: seq<Function>)
    requires |funcDefs| <= |defs| && defs[..|funcDefs|] == funcDefs
    ensures Exprs(funcDefs) <= Exprs(defs)
  {
    forall k | 0 <= k < |funcDefs|
      ensures funcDefs[k].expr in Exprs(defs)
    {
      assert funcDefs[k] == defs[k];
    }
  }

  lemma AppendExprs(defs: seq<Function>, f: Function)
    ensures Exprs(defs + [f]) == Exprs(defs) + {f.expr}
  {
    var ds := defs + [f];
    assert ds[|defs|].expr == f.expr;
    forall k | 0 <= k < |defs|
      ensures defs[k].expr in Exprs(ds)
    {
      assert ds[k] == defs[k];
    }
  }

  // ---------------------------------------------------------------------------
  // Comparing a feature with its Go file

  function NameSet(fs: seq<Function>): set<string>
  {
    set i | 0 <= i < |fs| :: fs[i].name
  }

  /** The index of the first function named `name`. */
  function FirstIndex(fs: seq<Function>, name: string): (i: nat)
    requires name in NameSet(fs)
    ensures i < |fs| && fs[i].name == name
    ensures forall k :: 0 <= k < i ==> fs[k].name != name
  {
    if fs[0].name == name then 0
    else
      assert name in NameSet(fs[1..]) by {
        var i :| 0 <= i < |fs| && fs[i].name == name;
        assert fs[1..][i - 1] == fs[i];
      }
      1 + FirstIndex(fs[1..], name)
  }

  /**
   * `NewFunctions`: for each feature name missing from the Go file, in
   * sorted order, the first feature with that name; none when every name is
   * present.
   */
  function NewFunctions(features: seq<Function>, goDefs: seq<Function>): (r: seq<Function>)
    ensures NameSet(r) == NameSet(features) - NameSet(goDefs)
    ensures forall i :: 0 <= i < |r| ==> r[i].name in NameSet(features) - NameSet(goDefs)
    ensures forall i, j :: 0 <= i < j < |r| ==> Less(r[i].name, r[j].name)
    ensures forall i :: 0 <= i < |r| ==> r[i] == features[FirstIndex(features, r[i].name)]
  {
    var missing := NameSet(features) - NameSet(goDefs);
    MissingInOrder(features, missing);
    FirstOfEach(features, Sorted(missing))
  }

  /** Picking the first function for each missing name, in sorted order, reports each missing name once, in order. */
  lemma MissingInOrder(features: seq<Function>, missing: set<string>)
    requires missing <= NameSet(features)
    ensures forall i :: 0 <= i < |Sorted(missing)| ==> Sorted(missing)[i] in NameSet(features)
    ensures NameSet(FirstOfEach(features, Sorted(missing))) == missing
    ensures var r := FirstOfEach(features, Sorted(missing));
      forall i, j :: 0 <= i < j < |r| ==> Less(r[i].name, r[j].name)
  {
    var names := Sorted(missing);
    assert forall i :: 0 <= i < |names| ==> names[i] in missing;
    var r := FirstOfEach(features, names);
    NamesOf(r, names, missing);
    assert StrictlySorted(names);
  }

  /** For each name in order, the first function carrying it. */
  function FirstOfEach(fs: seq<Function>, names: seq<string>): (r: seq<Function>)
    requires forall i :: 0 <= i < |names| ==> names[i] in NameSet(fs)
    ensures |r| == |names|
    ensures forall i :: 0 <= i < |r| ==> r[i].name == names[i] && r[i] == fs[FirstIndex(fs, names[i])]
  {
    seq(|names|, i requires 0 <= i < |names| => fs[FirstIndex(fs, names[i])])
  }

  lemma NamesOf(r: seq<Function>, names: seq<string>, missing: set<string>)
    requires |r| == |names|
    requires forall i :: 0 <= i < |r| ==> r[i].name == names[i]
    requires forall x :: x in missing <==> x in names
    ensures NameSet(r) == missing
  {
    forall x | x in missing ensures x in NameSet(r) {
      var i :| 0 <= i < |names| && names[i] == x;
      assert r[i].name == x;
    }
  }

  /** No new function is reported exactly when every feature name already has a Go definition. */
  lemma NewFunctionsEmpty(features: seq<Function>, goDefs: seq<Function>)
    ensures |NewFunctions(features, goDefs)| == 0 <==> NameSet(features) <= NameSet(goDefs)
  {
    var r := NewFunctions(features, goDefs);
    if |r| > 0 {
      assert r[0].name in NameSet(r);
    } else {
      assert NameSet(r) == {};
      forall x | x in NameSet(features) ensures x in NameSet(goDefs) {
        assert x !in NameSet(features) - NameSet(goDefs);
      }
    }
  }

  /** The argument types in order; names play no part in the comparison. */
  function Types(args: seq<Arg>): (r: seq<string>)
    ensures |r| == |args|
    ensures forall i :: 0 <= i < |args| ==> r[i] == args[i].value
  {
    seq(|args|, i requires 0 <= i < |args| => args[i].value)
  }

  /** The comparison as written: argument counts first, then each position's type. */
  function Differs(featArgs: seq<Arg>, goArgs: seq<Arg>): bool
  {
    if |featArgs| != |goArgs| then true
    else exists index :: 0 <= index < |featArgs| && featArgs[index].value != goArgs[index].value
  }

  /** Two argument lists differ exactly when their type sequences differ. */
  lemma DiffersIffTypes(featArgs: seq<Arg>, goArgs: seq<Arg>)
    ensures Differs(featArgs, goArgs) <==> Types(featArgs) != Types(goArgs)
  {
    if |featArgs| == |goArgs| && Types(featArgs) != Types(goArgs) {
      var i :| 0 <= i < |featArgs| && Types(featArgs)[i] != Types(goArgs)[i];
    }
  }

  /** A recorded signature change: the function, its Go arguments and the feature's. */
  datatype SignatureChange = SignatureChange(func: string, have: string, want: string)

  function ChangeOf(f: Function, g: Function): SignatureChange
  {
    SignatureChange(g.name, ArgsFromMap(g.args, true), ArgsFromMap(f.args, true))
  }

  predicate Mismatch(f: Function, g: Function)
  {
    f.name == g.name && Differs(f.args, g.args)
  }

  /** Go definition `j` mismatches `f`, and no earlier one does. */
  predicate FirstMismatchAt(f: Function, goDefs: seq<Function>, j: int)
  {
    0 <= j < |goDefs| && Mismatch(f, goDefs[j]) && forall k :: 0 <= k < j ==> !Mismatch(f, goDefs[k])
  }

  /** The inner loop for one feature: the first same-named Go definition whose signature differs. */
  function FirstMismatchIn(f: Function, goDefs: seq<Function>): (r: Option<SignatureChange>)
    ensures r.None? <==> forall j :: 0 <= j < |goDefs| ==> !Mismatch(f, goDefs[j])
    ensures r.Some? ==> exists j :: FirstMismatchAt(f, goDefs, j) && r.value == ChangeOf(f, goDefs[j])
  {
    if |goDefs| == 0 then None
    else if Mismatch(f, goDefs[0]) then
      assert FirstMismatchAt(f, goDefs, 0);
      Some(ChangeOf(f, goDefs[0]))
    else
      var r := FirstMismatchIn(f, goDefs[1..]);
      assert forall j :: 1 <= j < |goDefs| ==> goDefs[j] == goDefs[1..][j - 1];
      assert r.Some? ==> exists j :: FirstMismatchAt(f, goDefs, j) && r.value == ChangeOf(f, goDefs[j]) by {
        if r.Some? {
          var j' :| FirstMismatchAt(f, goDefs[1..], j') && r.value == ChangeOf(f, goDefs[1..][j']);
          assert FirstMismatchAt(f, goDefs, j' + 1) by {
            forall k | 0 <= k < j' + 1 ensures !Mismatch(f, goDefs[k]) {
              if k > 0 { assert goDefs[k] == goDefs[1..][k - 1]; }
            }
          }
        }
      }
      r
  }

  /**
   * Feature `i` has a first mismatching Go definition `j`, and no earlier
   * feature mismatches any definition.
   */
  predicate FirstChangeAt(features: seq<Function>, goDefs: seq<Function>, i: int, j: int)
  {
    0 <= i < |features| && FirstMismatchAt(features[i], goDefs, j) &&
    forall i', j' :: 0 <= i' < i && 0 <= j' < |goDefs| ==> !Mismatch(features[i'], goDefs[j'])
  }

  /**
   * The `FeaturesLoop`: the first change found, features in order and Go
   * definitions in order, after which the loop stops; so at most one change
   * is ever recorded.
   */
  function FirstSignatureChange(features: seq<Function>, goDefs: seq<Function>): (r: Option<SignatureChange>)
    ensures r.None? <==> forall i, j :: 0 <= i < |features| && 0 <= j < |goDefs| ==> !Mismatch(features[i], goDefs[j])
    ensures r.Some? ==> exists i, j :: FirstChangeAt(features, goDefs, i, j) && r.value == ChangeOf(features[i], goDefs[j])
  {
    if |features| == 0 then None
    else
      match FirstMismatchIn(features[0], goDefs)
      case Some(c) =>
        assert exists j :: FirstChangeAt(features, goDefs, 0, j) && c == ChangeOf(features[0], goDefs[j]);
        Some(c)
      case None =>
        var r := FirstSignatureChange(features[1..], goDefs);
        assert forall i :: 1 <= i < |features| ==> features[i] == features[1..][i - 1];
        assert r.Some? ==> exists i, j :: FirstChangeAt(features, goDefs, i, j) && r.value == ChangeOf(features[i], goDefs[j]) by {
          if r.Some? {
            var i', j' :| FirstChangeAt(features[1..], goDefs, i', j') && r.value == ChangeOf(features[1..][i'], goDefs[j']);
            assert FirstChangeAt(features, goDefs, i' + 1, j') by {
              forall a, b | 0 <= a < i' + 1 && 0 <= b < |goDefs| ensures !Mismatch(features[a], goDefs[b]) {
                if a > 0 { assert features[a] == features[1..][a - 1]; }
              }
            }
          }
        }
        r
  }

  /** Renaming arguments never produces a signature change. */
  lemma ArgumentNamesIgnored(features: seq<Function>, goDefs: seq<Function>)
    requires forall i, j :: 0 <= i < |features| && 0 <= j < |goDefs| && features[i].name == goDefs[j].name ==>
      Types(features[i].args) == Types(goDefs[j].args)
    ensures FirstSignatureChange(features, goDefs).None?
  {
    forall i, j | 0 <= i < |features| && 0 <= j < |goDefs|
      ensures !Mismatch(features[i], goDefs[j])
    {
      DiffersIffTypes(features[i].args, goDefs[j].args);
    }
  }

  // ---------------------------------------------------------------------------
  // The decision

  /** What `processFeature` writes. */
  datatype Action = NoWrite | WriteNewFile | UpdateGoFile

  datatype Decision = Decision(outcome: Outcome, action: Action)

  const OutOfDate: string := "generated code is out of date"

  /**
   * Steps 10 to 13 of `processFeature`. `writeNew` and `updateFile` are the
   * outcomes of rendering and writing a new file and of updating an existing
   * one. `isInSync` is never set to true, so the early return it guards is
   * unreachable and does not appear.
   */
  function Decide(change: Option<SignatureChange>, goFileExists: bool, update: bool, newFunctions: nat,
                  goFile: string, featureFile: string, writeNew: Outcome, updateFile: Outcome): (d: Decision)
    ensures change.Some? ==> d.outcome.Fail? && d.action == NoWrite
    ensures change.None? && !goFileExists && !update ==> d.outcome.Fail? && d.action == NoWrite
    ensures change.None? && !goFileExists && update ==> d == Decision(writeNew, WriteNewFile)
    ensures change.None? && goFileExists && newFunctions == 0 ==> d == Decision(Pass, NoWrite)
    ensures change.None? && goFileExists && newFunctions > 0 ==>
      d.outcome.Fail? && (d.action == UpdateGoFile <==> update)
    ensures d.outcome.Pass? ==> change.None? && (goFileExists ==> newFunctions == 0)
  {
    if change.Some? then
      Decision(Fail("source file " + goFile + " has a different signature/s:\n " +
                    "\nfunction " + change.value.func + "\n\thave " + change.value.have +
                    "\n\twant " + change.value.want + "\n"), NoWrite)
    else if !goFileExists then
      if !update then
        Decision(Fail(OutOfDate + " (from " + featureFile + " feature, new go file " + goFile + ")"), NoWrite)
      else Decision(writeNew, WriteNewFile)
    else if newFunctions == 0 then Decision(Pass, NoWrite)
    else if update then
      Decision(if updateFile.Fail? then updateFile else Fail(OutOfDate), UpdateGoFile)
    else Decision(Fail(OutOfDate), NoWrite)
  }

  /**
   * `processFeature` from step 6 on: the package and Go file derived from
   * the feature path, the Go definitions when the file exists (their
   * extraction may fail), the comparisons, and the decision.
   */
  function ProcessFeature(conformance: string, featurePath: string, features: seq<Function>,
                          goFile: Option<Result<seq<Function>>>, update: bool,
                          writeNew: Outcome, updateFile: Outcome): (d: Decision)
    ensures goFile.Some? && goFile.value.Err? ==>
      d == Decision(Fail("extracting go functions: " + goFile.value.error), NoWrite)
    ensures goFile.None? && update ==> d == Decision(writeNew, WriteNewFile)
    ensures goFile.None? && !update ==> d.outcome.Fail? && d.action == NoWrite
    ensures goFile.Some? && goFile.value.Ok? && FirstSignatureChange(features, goFile.value.value).Some? ==>
      d.outcome.Fail? && d.action == NoWrite
    ensures goFile.Some? && goFile.value.Ok? && FirstSignatureChange(features, goFile.value.value).None? ==>
      (d.outcome.Pass? <==> NameSet(features) <= NameSet(goFile.value.value))
    ensures goFile.Some? && goFile.value.Ok? && FirstSignatureChange(features, goFile.value.value).None? &&
            !(NameSet(features) <= NameSet(goFile.value.value)) ==>
      d.outcome.Fail? && (d.action == UpdateGoFile <==> update)
  {
    var goPath := conformance + "/" + GeneratePackage(featurePath) + "/feature.go";
    match goFile
    case None => Decide(None, false, update, |features|, goPath, featurePath, writeNew, updateFile)
    case Some(Err(e)) => Decision(Fail("extracting go functions: " + e), NoWrite)
    case Some(Ok(goDefs)) =>
      var added := NewFunctions(features, goDefs);
      NewFunctionsEmpty(features, goDefs);
      Decide(FirstSignatureChange(features, goDefs), true, update, |added|, goPath, featurePath, writeNew, updateFile)
  }
}
