/**
 * Step logic of two feature packages: the key/value table check of
 * test/conformance/defaultbackend/feature.go and the per-status pod
 * aggregation of test/conformance/loadbalancing/feature.go.
 */
module DefaultBackendFeature {
  import opened Wrappers
  import opened Text

  type Row = seq<string>

  const EmptyTable: string := "expected a table with at least one row"

  function CellCountError(n: nat): string
  {
    "expected a table with 2 cells, it contained " + NatToString(n)
  }

  function HeaderRowError(key: string, value: string): string
  {
    "expected a table with a header row of 'key' and 'value' but got '" + key + "' and '" + value + "'"
  }

  /** The header-row test as written: a row is refused only when BOTH cells differ. */
  predicate HeaderRowAcceptedAsWritten(row: Row)
    requires |row| == 2
  {
    !(row[0] != "key" && row[1] != "value")
  }

  /** The header-row test the error message describes: the row must read exactly 'key' | 'value'. */
  predicate HeaderRowAccepted(row: Row)
    requires |row| == 2
  {
    row[0] == "key" && row[1] == "value"
  }

  /**
   * `assertHeaderTable` from row `i` on, with the header-row test `strict`
   * (the corrected one) or not (as written); `assertF` stands for the
   * scenario's per-row header assertion.
   */
  function TableFrom(rows: seq<Row>, i: nat, assertF: (string, string) -> Outcome, strict: bool): (r: Outcome)
    requires i <= |rows|
    decreases |rows| - i
  {
    if i == |rows| then Pass
    else if |rows[i]| != 2 then Fail(CellCountError(|rows[i]|))
    else if i == 0 then
      if (if strict then !HeaderRowAccepted(rows[0]) else !HeaderRowAcceptedAsWritten(rows[0])) then
        Fail(HeaderRowError(rows[0][0], rows[0][1]))
      else TableFrom(rows, 1, assertF, strict)
    else if assertF(rows[i][0], rows[i][1]).Fail? then assertF(rows[i][0], rows[i][1])
    else TableFrom(rows, i + 1, assertF, strict)
  }

  /** `assertHeaderTable` as written. */
  function AssertHeaderTableAsWritten(rows: seq<Row>, assertF: (string, string) -> Outcome): Outcome
  {
    if |rows| < 1 then Fail(EmptyTable) else TableFrom(rows, 0, assertF, false)
  }

  /** `assertHeaderTable` with the header row checked as its error message says. */
  function AssertHeaderTable(rows: seq<Row>, assertF: (string, string) -> Outcome): Outcome
  {
    if |rows| < 1 then Fail(EmptyTable) else TableFrom(rows, 0, assertF, true)
  }

  /** Every row has two cells and every data row passes `assertF`. */
  predicate DataRowsPass(rows: seq<Row>, i: nat, assertF: (string, string) -> Outcome)
    requires i <= |rows|
  {
    forall j :: i <= j < |rows| ==> |rows[j]| == 2 && (j > 0 ==> assertF(rows[j][0], rows[j][1]).Pass?)
  }

  /** From a data row on, the walk passes exactly when every later row is well formed and passes. */
  lemma {:induction false} TableFromPasses(rows: seq<Row>, i: nat, assertF: (string, string) -> Outcome, strict: bool)
    requires 1 <= i <= |rows|
    ensures TableFrom(rows, i, assertF, strict).Pass? <==> DataRowsPass(rows, i, assertF)
    decreases |rows| - i
  {
    if i < |rows| {
      TableFromPasses(rows, i + 1, assertF, strict);
    }
  }

  /** The first failing data row's error is returned unchanged; later rows are never checked. */
  lemma {:induction false} TableFromStopsAtFirstFailure(rows: seq<Row>, i: nat, k: nat,
                                                        assertF: (string, string) -> Outcome, strict: bool)
    requires 1 <= i <= k < |rows|
    requires DataRowsPass(rows[..k], i, assertF)
    requires |rows[k]| == 2 && assertF(rows[k][0], rows[k][1]).Fail?
    ensures TableFrom(rows, i, assertF, strict) == assertF(rows[k][0], rows[k][1])
    decreases k - i
  {
    if i < k {
      assert rows[..k][i] == rows[i];
      assert DataRowsPass(rows[..k], i + 1, assertF) by {
        forall j | i + 1 <= j < k
          ensures |rows[..k][j]| == 2 && (j > 0 ==> assertF(rows[..k][j][0], rows[..k][j][1]).Pass?)
        {
          assert rows[..k][j] == rows[j];
        }
      }
      TableFromStopsAtFirstFailure(rows, i + 1, k, assertF, strict);
    }
  }

  /**
   * The corrected table check passes exactly when the table is non-empty,
   * its header row reads 'key' | 'value', every row has two cells and every
   * data row passes `assertF`.
   */
  lemma AssertHeaderTablePasses(rows: seq<Row>, assertF: (string, string) -> Outcome)
    ensures AssertHeaderTable(rows, assertF).Pass? <==>
      |rows| >= 1 && |rows[0]| == 2 && HeaderRowAccepted(rows[0]) && DataRowsPass(rows, 1, assertF)
  {
    if |rows| >= 1 {
      TableFromPasses(rows, 1, assertF, true);
    }
  }

  /** Row 0 is never handed to `assertF`: two assertions that agree on every data row give the same verdict. */
  lemma HeaderRowNotAsserted(rows: seq<Row>, f: (string, string) -> Outcome, g: (string, string) -> Outcome)
    requires |rows| >= 1
    requires forall j :: 1 <= j < |rows| && |rows[j]| == 2 ==> f(rows[j][0], rows[j][1]) == g(rows[j][0], rows[j][1])
    ensures AssertHeaderTable(rows, f) == AssertHeaderTable(rows, g)
  {
    TableFromAgree(rows, 1, f, g);
  }

  lemma {:induction false} TableFromAgree(rows: seq<Row>, i: nat, f: (string, string) -> Outcome, g: (string, string) -> Outcome)
    requires 1 <= i <= |rows|
    requires forall j :: 1 <= j < |rows| && |rows[j]| == 2 ==> f(rows[j][0], rows[j][1]) == g(rows[j][0], rows[j][1])
    ensures TableFrom(rows, i, f, true) == TableFrom(rows, i, g, true)
    decreases |rows| - i
  {
    if i < |rows| {
      TableFromAgree(rows, i + 1, f, g);
    }
  }

  /**
   * As written, a header row with only one of its two cells wrong is
   * accepted: `["key", "wrong"]` passes the header test and the table
   * passes, although the error message demands 'key' and 'value'.
   */
  lemma AsWrittenAcceptsHalfHeader(assertF: (string, string) -> Outcome)
    ensures AssertHeaderTableAsWritten([["key", "wrong"]], assertF) == Pass
    ensures AssertHeaderTable([["key", "wrong"]], assertF).Fail?
  {
    var rows: seq<Row> := [["key", "wrong"]];
    assert HeaderRowAcceptedAsWritten(rows[0]);
    assert !HeaderRowAccepted(rows[0]);
  }
}

module LoadBalancingFeature {
  import opened Wrappers
  import opened Text

  /** `resultStatus`: for each status code, the set of pods that answered with it. */
  type ResultStatus = map<int, set<string>>

  /** What one capture contributes: the answering pod and the status code. */
  datatype Sample = Sample(pod: string, statusCode: int)

  /** `BeforeScenario`: no status recorded. */
  function BeforeScenario(): (r: ResultStatus)
    ensures forall s :: s !in r
  {
    map[]
  }

  /** One capture's insertion: a missing status gets an empty set first; a repeated pod collapses. */
  function Record(results: ResultStatus, sample: Sample): (r: ResultStatus)
    ensures r.Keys == results.Keys + {sample.statusCode}
    ensures r[sample.statusCode] ==
      (if sample.statusCode in results then results[sample.statusCode] else {}) + {sample.pod}
    ensures forall s :: s in results && s != sample.statusCode ==> r[s] == results[s]
  {
    var pods := if sample.statusCode in results then results[sample.statusCode] else {};
    results[sample.statusCode := pods + {sample.pod}]
  }

  /**
   * Iterations 1..n of the request loop, as a recursion: the result map and
   * the error of the first failed capture, after which nothing more is
   * recorded.
   */
  function RecordAll(results: ResultStatus, capture: nat -> Result<Sample>, n: nat): (ResultStatus, Outcome)
    decreases n
  {
    if n == 0 then (results, Pass)
    else
      var (m, o) := RecordAll(results, capture, n - 1);
      if o.Fail? then (m, o)
      else
        match capture(n)
        case Err(e) => (m, Fail(e))
        case Ok(s) => (Record(m, s), Pass)
  }

  /** The URL parse step of `iSendRequestsTo` as an input: `Err` stops before any request. */
  method SendRequestsTo(results: ResultStatus, totalRequest: int, parsed: Outcome,
                        capture: nat -> Result<Sample>) returns (m: ResultStatus, o: Outcome)
    ensures parsed.Fail? ==> m == results && o == parsed
    ensures parsed.Pass? && totalRequest <= 0 ==> m == results && o == Pass
    ensures parsed.Pass? && totalRequest > 0 ==> (m, o) == RecordAll(results, capture, totalRequest)
  {
    if parsed.Fail? {
      return results, parsed;
    }
    m := results;
    var iteration := 1;
    while iteration <= totalRequest
      invariant 1 <= iteration
      invariant totalRequest > 0 ==> iteration <= totalRequest + 1
      invariant totalRequest <= 0 ==> iteration == 1
      invariant (m, Pass) == RecordAll(results, capture, iteration - 1)
      decreases totalRequest - iteration
    {
      var c := capture(iteration);
      if c.Err? {
        RecordAllCollects(results, capture, iteration - 1);
        RecordAllStopsAtError(results, capture, totalRequest, iteration);
        return m, Fail(c.error);
      }
      m := Record(m, c.value);
      iteration := iteration + 1;
    }
    return m, Pass;
  }

  /** The samples of iterations 1..n. */
  predicate Sampled(capture: nat -> Result<Sample>, n: nat, s: Sample)
  {
    exists i :: 1 <= i <= n && capture(i) == Ok(s)
  }

  /**
   * When every capture succeeds, a pod is recorded under a status exactly
   * when it was recorded before or some iteration's capture saw it answer
   * with that status.
   */
  lemma {:induction false} RecordAllCollects(results: ResultStatus, capture: nat -> Result<Sample>, n: nat)
    requires RecordAll(results, capture, n).1.Pass?
    ensures forall i :: 1 <= i <= n ==> capture(i).Ok?
    ensures var m := RecordAll(results, capture, n).0;
      forall status, pod ::
        (status in m && pod in m[status]) <==>
        ((status in results && pod in results[status]) || Sampled(capture, n, Sample(pod, status)))
    decreases n
  {
    if n > 0 {
      RecordAllCollects(results, capture, n - 1);
      var m := RecordAll(results, capture, n - 1).0;
      var s := capture(n).value;
      forall status, pod
        ensures (status in Record(m, s) && pod in Record(m, s)[status]) <==>
          ((status in results && pod in results[status]) || Sampled(capture, n, Sample(pod, status)))
      {
        if Sampled(capture, n, Sample(pod, status)) && !Sampled(capture, n - 1, Sample(pod, status)) {
          assert s == Sample(pod, status);
        }
        if Sampled(capture, n - 1, Sample(pod, status)) {
          var i :| 1 <= i <= n - 1 && capture(i) == Ok(Sample(pod, status));
          assert 1 <= i <= n;
        }
      }
    }
  }

  /**
   * A failed capture ends the loop with its error; the captures before it
   * stay recorded.
   */
  lemma {:induction false} RecordAllStopsAtError(results: ResultStatus, capture: nat -> Result<Sample>, n: nat, k: nat)
    requires 1 <= k <= n
    requires forall i :: 1 <= i < k ==> capture(i).Ok?
    requires capture(k).Err?
    ensures RecordAll(results, capture, n) == (RecordAll(results, capture, k - 1).0, Fail(capture(k).error))
    decreases n
  {
    AllOkPasses(results, capture, k - 1);
    if n > k {
      RecordAllStopsAtError(results, capture, n - 1, k);
    }
  }

  lemma {:induction false} AllOkPasses(results: ResultStatus, capture: nat -> Result<Sample>, n: nat)
    requires forall i :: 1 <= i <= n ==> capture(i).Ok?
    ensures RecordAll(results, capture, n).1 == Pass
    decreases n
  {
    if n > 0 {
      AllOkPasses(results, capture, n - 1);
    }
  }

  function NoResponses(statusCode: int): string
  {
    "no reponses for status code " + IntToString(statusCode) + " returned"
  }

  function WrongPodCount(pods: int, statusCode: int, got: nat): string
  {
    "expected " + IntToString(pods) + " different POD IP addresses/FQDN for status code " +
    IntToString(statusCode) + " but " + NatToString(got) + " was returned"
  }

  /** The final assertion: responses with `statusCode` came from exactly `pods` distinct pods. */
  function AssertDistinctPods(results: ResultStatus, statusCode: int, pods: int): (r: Outcome)
    ensures statusCode !in results ==> r == Fail(NoResponses(statusCode))
    ensures r.Pass? <==> statusCode in results && |results[statusCode]| == pods
  {
    if statusCode !in results then Fail(NoResponses(statusCode))
    else if |results[statusCode]| != pods then Fail(WrongPodCount(pods, statusCode, |results[statusCode]|))
    else Pass
  }

  /** Other status codes never matter to the assertion. */
  lemma AssertDistinctPodsLocal(r1: ResultStatus, r2: ResultStatus, statusCode: int, pods: int)
    requires (statusCode in r1 <==> statusCode in r2)
    requires statusCode in r1 ==> r1[statusCode] == r2[statusCode]
    ensures AssertDistinctPods(r1, statusCode, pods) == AssertDistinctPods(r2, statusCode, pods)
  {
  }

  /** A pod answering twice is counted once. */
  lemma RepeatedPodCollapses(results: ResultStatus, s: Sample)
    ensures Record(Record(results, s), s) == Record(results, s)
  {
  }
}
