/**
 * The older check hierarchy of internal/pkg/check.go: the same name filter
 * as the current one, but no API-version gate and no pruning. A failed check
 * still has all its children verified.
 */
module LegacyChecks {
  import opened Wrappers

  datatype Config = Config(host: string)

  datatype RunResult = RunResult(success: bool, err: Option<string>)

  /** A check: `hasRun` says whether `Run` is set; its behaviour is the `runs` oracle. */
  datatype Check = Check(id: nat, name: string, hasRun: bool, children: seq<Check>, parent: Option<nat>)

  /** Success and failure counts, and the ids whose `Run` executed, in order. */
  datatype Counts = Counts(success: nat, failure: nat, ran: seq<nat>)

  function Plus(a: Counts, b: Counts): Counts
  {
    Counts(a.success + b.success, a.failure + b.failure, a.ran + b.ran)
  }

  const SelfChildPanic: string := "Checks can't be a child of itself"

  /** `c.AddCheck(checks...)`: in-order append with `c` as parent; a direct self-child panics. */
  function AddCheck(c: Check, cs: seq<Check>): (r: Result<Check>)
    decreases |cs|
    ensures r.Err? <==> exists i :: 0 <= i < |cs| && cs[i].id == c.id
    ensures r.Err? ==> r.error == SelfChildPanic
    ensures r.Ok? ==>
      |r.value.children| == |c.children| + |cs| &&
      r.value.children[..|c.children|] == c.children &&
      (forall i :: 0 <= i < |cs| ==> r.value.children[|c.children| + i] == cs[i].(parent := Some(c.id))) &&
      r.value.(children := c.children) == c
  {
    if |cs| == 0 then Ok(c)
    else if cs[0].id == c.id then Err(SelfChildPanic)
    else
      var r := AddCheck(c.(children := c.children + [cs[0].(parent := Some(c.id))]), cs[1..]);
      assert forall i :: 1 <= i < |cs| ==> cs[1..][i - 1] == cs[i];
      r
  }

  /** `c.Verify(filter, config)`; the returned error is always nil and is not modelled. */
  function Verify(c: Check, filter: string, config: Config, runs: (nat, Config) -> RunResult): (r: Counts)
    decreases c
    ensures r.success + r.failure == |r.ran|
  {
    if filter != c.name && filter != "" then VerifyAll(c.children, filter, config, runs)
    else
      var own :=
        if !c.hasRun then Counts(0, 0, [])
        else if runs(c.id, config).success then Counts(1, 0, [c.id])
        else Counts(0, 1, [c.id]);
      Plus(own, VerifyAll(c.children, "", config, runs))
  }

  function VerifyAll(cs: seq<Check>, filter: string, config: Config, runs: (nat, Config) -> RunResult): (r: Counts)
    decreases cs
    ensures r.success + r.failure == |r.ran|
  {
    if |cs| == 0 then Counts(0, 0, [])
    else Plus(Verify(cs[0], filter, config, runs), VerifyAll(cs[1..], filter, config, runs))
  }

  /** Every node of the tree, parents before children, children in order. */
  function PreOrder(c: Check): (r: seq<Check>)
    decreases c
    ensures |r| > 0 && r[0] == c
  {
    [c] + PreOrderAll(c.children)
  }

  function PreOrderAll(cs: seq<Check>): seq<Check>
    decreases cs
  {
    if |cs| == 0 then [] else PreOrder(cs[0]) + PreOrderAll(cs[1..])
  }

  /** The ids of the checks with a `Run`, in order. */
  function RunnableIds(xs: seq<Check>): (r: seq<nat>)
    ensures |r| <= |xs|
  {
    if |xs| == 0 then []
    else (if xs[0].hasRun then [xs[0].id] else []) + RunnableIds(xs[1..])
  }

  lemma {:induction false} RunnableIdsAppend(xs: seq<Check>, ys: seq<Check>)
    ensures RunnableIds(xs + ys) == RunnableIds(xs) + RunnableIds(ys)
    decreases |xs|
  {
    if |xs| == 0 {
      assert xs + ys == ys;
    } else {
      var head := if xs[0].hasRun then [xs[0].id] else [];
      assert (xs + ys)[0] == xs[0];
      assert (xs + ys)[1..] == xs[1..] + ys;
      RunnableIdsAppend(xs[1..], ys);
      assert RunnableIds(xs + ys) == head + RunnableIds(xs[1..] + ys);
    }
  }

  /**
   * With the empty filter every check that has a `Run` executes exactly once,
   * in pre-order, whatever the outcomes: failures prune nothing.
   */
  lemma {:induction false} EmptyFilterRunsEveryRun(c: Check, config: Config, runs: (nat, Config) -> RunResult)
    ensures Verify(c, "", config, runs).ran == RunnableIds(PreOrder(c))
    ensures Verify(c, "", config, runs).success + Verify(c, "", config, runs).failure == |RunnableIds(PreOrder(c))|
    decreases c
  {
    EmptyFilterRunsEveryRunAll(c.children, config, runs);
    RunnableIdsAppend([c], PreOrderAll(c.children));
  }

  lemma {:induction false} EmptyFilterRunsEveryRunAll(cs: seq<Check>, config: Config, runs: (nat, Config) -> RunResult)
    ensures VerifyAll(cs, "", config, runs).ran == RunnableIds(PreOrderAll(cs))
    decreases cs
  {
    if |cs| > 0 {
      EmptyFilterRunsEveryRun(cs[0], config, runs);
      EmptyFilterRunsEveryRunAll(cs[1..], config, runs);
      RunnableIdsAppend(PreOrder(cs[0]), PreOrderAll(cs[1..]));
    }
  }

  /** The names occurring anywhere in the tree. */
  function Names(c: Check): set<string>
    decreases c
  {
    {c.name} + NamesAll(c.children)
  }

  function NamesAll(cs: seq<Check>): set<string>
    decreases cs
  {
    if |cs| == 0 then {} else Names(cs[0]) + NamesAll(cs[1..])
  }

  /** A non-empty filter naming no check runs nothing. */
  lemma {:induction false} UnmatchedFilterRunsNothing(c: Check, filter: string, config: Config, runs: (nat, Config) -> RunResult)
    requires filter != "" && filter !in Names(c)
    ensures Verify(c, filter, config, runs) == Counts(0, 0, [])
    decreases c
  {
    UnmatchedFilterRunsNothingAll(c.children, filter, config, runs);
  }

  lemma {:induction false} UnmatchedFilterRunsNothingAll(cs: seq<Check>, filter: string, config: Config, runs: (nat, Config) -> RunResult)
    requires filter != "" && filter !in NamesAll(cs)
    ensures VerifyAll(cs, filter, config, runs) == Counts(0, 0, [])
    decreases cs
  {
    if |cs| > 0 {
      UnmatchedFilterRunsNothing(cs[0], filter, config, runs);
      UnmatchedFilterRunsNothingAll(cs[1..], filter, config, runs);
    }
  }

  /** The topmost checks named `filter`. */
  function Matching(c: Check, filter: string): seq<Check>
    decreases c
  {
    if c.name == filter then [c] else MatchingAll(c.children, filter)
  }

  function MatchingAll(cs: seq<Check>, filter: string): seq<Check>
    decreases cs
  {
    if |cs| == 0 then [] else Matching(cs[0], filter) + MatchingAll(cs[1..], filter)
  }

  /** The ids of the checks with a `Run` under the topmost matches, each match's subtree in pre-order. */
  function MatchedRunnableIds(ms: seq<Check>): seq<nat>
  {
    if |ms| == 0 then [] else RunnableIds(PreOrder(ms[0])) + MatchedRunnableIds(ms[1..])
  }

  lemma {:induction false} MatchedRunnableIdsAppend(xs: seq<Check>, ys: seq<Check>)
    ensures MatchedRunnableIds(xs + ys) == MatchedRunnableIds(xs) + MatchedRunnableIds(ys)
    decreases |xs|
  {
    if |xs| == 0 {
      assert xs + ys == ys;
    } else {
      assert (xs + ys)[1..] == xs[1..] + ys;
      MatchedRunnableIdsAppend(xs[1..], ys);
    }
  }

  /**
   * A non-empty filter executes exactly the runs in the subtrees of the
   * topmost checks it names, and no other.
   */
  lemma {:induction false} FilterRunsMatchedSubtrees(c: Check, filter: string, config: Config, runs: (nat, Config) -> RunResult)
    requires filter != ""
    ensures Verify(c, filter, config, runs).ran == MatchedRunnableIds(Matching(c, filter))
    decreases c
  {
    if c.name == filter {
      EmptyFilterRunsEveryRunAll(c.children, config, runs);
      RunnableIdsAppend([c], PreOrderAll(c.children));
      assert MatchedRunnableIds([c]) == RunnableIds(PreOrder(c)) + MatchedRunnableIds([]);
    } else {
      FilterRunsMatchedSubtreesAll(c.children, filter, config, runs);
    }
  }

  lemma {:induction false} FilterRunsMatchedSubtreesAll(cs: seq<Check>, filter: string, config: Config, runs: (nat, Config) -> RunResult)
    requires filter != ""
    ensures VerifyAll(cs, filter, config, runs).ran == MatchedRunnableIds(MatchingAll(cs, filter))
    decreases cs
  {
    if |cs| > 0 {
      FilterRunsMatchedSubtrees(cs[0], filter, config, runs);
      FilterRunsMatchedSubtreesAll(cs[1..], filter, config, runs);
      MatchedRunnableIdsAppend(Matching(cs[0], filter), MatchingAll(cs[1..], filter));
    }
  }
}
