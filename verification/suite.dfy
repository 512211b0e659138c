/**
 * The assembled suite: the root check "all" of internal/pkg/checks/check.go
 * and the three `init` registrations of internal/pkg/suite, which Go runs in
 * file-name order (default-backend, host-rules, path-rules).
 */
module Suite {
  import opened Wrappers
  import opened Checks
  import DefaultBackend
  import HostRules
  import PathRules

  /** `AllChecks`: named "all", with nothing attached. */
  function Root(): Check
  {
    Node(0, "all", "", [], [])
  }

  /** One `AddCheck` call per check, in order, as separate `init` functions make them. */
  function Register(c: Check, cs: seq<Check>): Result<Check>
    decreases |cs|
  {
    if |cs| == 0 then Ok(c)
    else
      match AddCheck(c, [cs[0]])
      case Err(e) => Err(e)
      case Ok(next) => Register(next, cs[1..])
  }

  /** Registering checks one call at a time is the same as one variadic `AddCheck`. */
  lemma {:induction false} RegisterIsAddCheck(c: Check, cs: seq<Check>)
    ensures Register(c, cs) == AddCheck(c, cs)
    decreases |cs|
  {
    if |cs| > 0 && cs[0].id != c.id {
      var next := c.(children := c.children + [cs[0].(parent := Some(c.id))]);
      assert AddCheck(next, []) == Ok(next);
      assert [cs[0]][1..] == [];
      assert AddCheck(c, [cs[0]]) == AddCheck(next, []);
      RegisterIsAddCheck(next, cs[1..]);
    }
  }

  /** Registering checks with ids other than the root's hangs them, in order, under an empty root. */
  lemma RegisterShape(root: Check, cs: seq<Check>)
    requires root.children == []
    requires forall i :: 0 <= i < |cs| ==> cs[i].id != root.id
    ensures Register(root, cs).Ok?
    ensures var r := Register(root, cs).value;
      r.(children := []) == root && |r.children| == |cs| &&
      forall i :: 0 <= i < |cs| ==> r.children[i] == cs[i].(parent := Some(root.id))
  {
    RegisterIsAddCheck(root, cs);
  }

  /** Registering checks none of which lists `version` keeps the root's tree free of it. */
  lemma RegisterKeepsIncompatible(root: Check, cs: seq<Check>, version: string)
    requires Register(root, cs).Ok?
    requires NoneCompatible(root, version) && NoneCompatibleAll(cs, version)
    ensures NoneCompatible(Register(root, cs).value, version)
  {
    RegisterIsAddCheck(root, cs);
    AddCheckKeepsIncompatible(root, cs, version);
  }

  /** The suite as the three `init` functions leave it; a failed registration would panic. */
  function AllChecks(): Result<Check>
  {
    Compose(HostRules.Tree(), PathRules.Tree())
  }

  function Compose(host: Result<Check>, path: Result<Check>): Result<Check>
  {
    if host.Err? then host
    else if path.Err? then path
    else Register(Root(), [DefaultBackend.Check(), host.value, path.value])
  }

  /** The registrations succeed and hang the three checks under "all", in file-name order. */
  lemma AllChecksShape()
    ensures AllChecks().Ok?
    ensures var root := AllChecks().value;
      root.(children := []) == Root() &&
      |root.children| == 3 &&
      root.children[0] == DefaultBackend.Check().(parent := Some(0)) &&
      root.children[1] == HostRules.Tree().value.(parent := Some(0)) &&
      root.children[2] == PathRules.Tree().value.(parent := Some(0))
  {
    HostRules.TreeShape();
    PathRules.TreeShape();
    var h := HostRules.Tree().value;
    var p := PathRules.Tree().value;
    ComposeShape(h, p);
  }

  lemma ComposeShape(h: Check, p: Check)
    requires h.id == 2 && p.id == 7
    ensures Compose(Ok(h), Ok(p)).Ok?
    ensures var root := Compose(Ok(h), Ok(p)).value;
      root.(children := []) == Root() &&
      |root.children| == 3 &&
      root.children[0] == DefaultBackend.Check().(parent := Some(0)) &&
      root.children[1] == h.(parent := Some(0)) &&
      root.children[2] == p.(parent := Some(0))
  {
    RegisterShape(Root(), [DefaultBackend.Check(), h, p]);
  }

  /**
   * No check of the suite declares an API version, so `Verify` on the whole
   * suite runs nothing and counts nothing, whatever the filter, the
   * configured version and the cluster.
   */
  lemma SuiteRunsNothing(filter: string, config: Config, env: Env)
    ensures AllChecks().Ok?
    ensures Verify(AllChecks().value, filter, config, env) == Counts(0, 0, [])
  {
    var v := config.ingressAPIVersion;
    HostRules.TreeShape();
    PathRules.TreeShape();
    HostRules.TreeIncompatible(v);
    PathRules.TreeIncompatible(v);
    var h := HostRules.Tree().value;
    var p := PathRules.Tree().value;
    ComposeIncompatible(h, p, v);
    ComposeRunsNothing(h, p, filter, config, env);
  }

  lemma ComposeRunsNothing(h: Check, p: Check, filter: string, config: Config, env: Env)
    requires Compose(Ok(h), Ok(p)).Ok?
    requires NoneCompatible(Compose(Ok(h), Ok(p)).value, config.ingressAPIVersion)
    ensures Verify(Compose(Ok(h), Ok(p)).value, filter, config, env) == Counts(0, 0, [])
  {
    IncompatibleTreeRunsNothing(Compose(Ok(h), Ok(p)).value, filter, config, env);
  }

  lemma ComposeIncompatible(h: Check, p: Check, version: string)
    requires h.id == 2 && p.id == 7
    requires NoneCompatible(h, version) && NoneCompatible(p, version)
    ensures Compose(Ok(h), Ok(p)).Ok?
    ensures NoneCompatible(Compose(Ok(h), Ok(p)).value, version)
  {
    var cs := [DefaultBackend.Check(), h, p];
    RegisterShape(Root(), cs);
    assert NoneCompatibleAll(cs, version);
    RegisterKeepsIncompatible(Root(), cs, version);
  }
}
