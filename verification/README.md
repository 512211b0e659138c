# Ingress controller conformance harness, modelled in Dafny

This project models the logic of kubernetes-sigs/ingress-controller-conformance,
a harness that checks whether an Ingress controller routes traffic as the
Kubernetes Ingress API says it should. It does not model the network or the
cluster. It models what the harness decides from what they return:

- the check tree: `AddCheck`, `List`, and `Verify` with its name filter,
  API-version gate, lazy compilation of a declarative `Request` and pruning
  below a failed check. Both the current hierarchy and the older one are
  modelled.
- the assertion accumulator: `DeepEquals`, `ContainsHeaders`,
  `ContainsExactHeaders`, `Passed` and `String`.
- the concrete suite: default-backend, host-rules and path-rules. It covers
  their tree shape, each parent's host resolution, and each leaf's verdict.
  The expected-routing tables are compared with reference routers for
  Ingress `Prefix` paths and wildcard hosts.
- the Gherkin step logic: the endpoint and send steps, the equality steps,
  the header tables with their `*` wildcard, `assertHeaderTable`, and the
  per-status pod aggregation of the load-balancing feature.
- the helpers:
  - label and annotation rewriting in `apply`;
  - the code generator's package names, argument rendering, step-argument
    scan, step collection, signature comparison and write/update decision;
  - Ingress host and address selection, namespace guards and cleanup;
  - echo-deployment planning and endpoint counting;
  - URL construction in the HTTP capture helper;
  - the two echo servers.

Every HTTP round trip, Kubernetes API call, YAML decoding and template
rendering is a parameter: an oracle function, or the result value it would
produce. Go pointers become immutable trees whose nodes carry an `id` that
stands for pointer identity.

Modules follow the source files:

- `Checks`, `Assert`, `Capture`: internal/pkg/checks
- `LegacyChecks`: internal/pkg/check.go
- `RoutingChecks`, `PathRules`, `HostRules`, `DefaultBackend`, `Suite`, `Steps`: internal/pkg/suite
- `DefaultBackendFeature`, `LoadBalancingFeature`: test/conformance
- `Apply`: cmd/apply.go
- `Codegen`: hack/codegen.go
- `K8sClient`: internal/pkg/k8s/client.go
- `Kubernetes`: test/kubernetes/kubernetes.go
- `Deployments`: test/kubernetes/deployment.go
- `HttpCapture`: test/http/http.go (its Host override is the same rule as the checks', so it reuses `Capture.HostHeader`)
- `EchoServer`: images/echoserver/echoserver.go
- `ToolsEchoServer`: tools/echoserver.go

`Wrappers`, `Text`, `StringOrder` and `Format` are supporting modules. They
hold `Result`/`Option`, the Go `strings` functions used, a total order on
strings (for sorted sets), and the subset of `fmt` verbs the messages use.

Where the code and its surrounding documentation disagree, the model follows
the code:

- A check that declares no API versions never runs. `isAPIVersionCompatible`
  is false for an empty list, so no check of the shipped suite runs at all.
  `Suite.SuiteRunsNothing` states this.
- The suite files call `a.Error()`, which the assertion set does not define.
  Here it is read as "no failure was recorded".
- Their `DoCheck` returns an assertion set rather than `Assertions`. It is
  wrapped as the error tier with no warnings.
- The two echo servers treat `PORT=""` differently:
  - the image's server falls back to 3000;
  - the tools server keeps the empty value.

  `ToolsEchoServer.EmptyPortKept` states this.
- `GetIngressHost` prefers the first entry's hostname, while
  `getIngressAddress` lists its IP first. `K8sClient.HostIsAnAddress`
  states exactly when the two agree.

## Model

| member | source | states |
|---|---|---|
| Checks.AddCheck | internal/pkg/checks/check.go:147-155 | panics exactly when some argument is the receiver itself; otherwise children are appended in argument order, each with the receiver as parent |
| Checks.AddCheckIgnoresIndirectCycles | internal/pkg/checks/check.go:148-151 | only direct self-parenting is detected: a check that is only a grandchild of itself is accepted |
| Checks.ListIsDescribedPreOrder | internal/pkg/checks/check.go:158-165 | `List` prints exactly the checks with a non-empty description, in pre-order |
| Checks.ListAllIsDescribedPreOrder | internal/pkg/checks/check.go:162-164 | the children loop of `List` prints the described checks of the children's pre-order walk |
| Checks.PreOrder | internal/pkg/checks/check.go:158-165 | the walk visits every node once, the node itself first |
| Checks.LookupNamespace | internal/pkg/checks/check.go:192-195 | the Ingress is looked up in its namespace, or in "default" when none is given |
| Checks.ResolveHost | internal/pkg/checks/check.go:184-200 | the configured host for the scheme (secure unless `Insecure`) is used when non-empty; otherwise the lookup decides |
| Checks.LocationParts | internal/pkg/checks/check.go:202 | the location is scheme + "://" + host + path |
| Checks.RunRequest | internal/pkg/checks/check.go:182-211 | a compiled run fails with the host-lookup error, or with the capture error once the host resolves; a success carries no error |
| Checks.RunRequestSucceeds | internal/pkg/checks/check.go:196-210 | a compiled run succeeds iff the host resolves, the capture succeeds and `DoCheck` returns assertions with no error-tier failure |
| Checks.DoCheckErrorIgnored | internal/pkg/checks/check.go:207-210 | the error `DoCheck` returns never changes the run's result |
| Checks.ConfiguredHostSkipsLookup | internal/pkg/checks/check.go:190-200 | with a configured host the Kubernetes lookup is never consulted |
| Checks.IsAPIVersionCompatible | internal/pkg/checks/check.go:214-221 | compatible iff the configured version is among the declared ones; never for an empty list |
| Checks.Verify | internal/pkg/checks/check.go:168-252 | the two counts sum to the number of runs executed |
| Checks.VerifyBound | internal/pkg/checks/check.go:223-249 | each check runs at most once: success + failure is at most the number of nodes |
| Checks.VerifyAllBound | internal/pkg/checks/check.go:240-249 | the same bound for a sequence of subtrees |
| Checks.OwnNameIsEmptyFilter | internal/pkg/checks/check.go:169 | filtering by a check's own name is the same as the empty filter |
| Checks.UnmatchedFilterRunsNothing | internal/pkg/checks/check.go:169-180 | a non-empty filter naming no check in the tree yields (0, 0) and runs nothing |
| Checks.UnmatchedFilterRunsNothingAll | internal/pkg/checks/check.go:170-177 | the same for a sequence of subtrees |
| Checks.FilterVerifiesTopmostMatches | internal/pkg/checks/check.go:169-180 | a non-empty filter verifies the topmost checks it names, each with the empty filter, summed in pre-order; nothing else runs |
| Checks.FilterVerifiesTopmostMatchesAll | internal/pkg/checks/check.go:240-249 | the same for a sequence of subtrees; below a match every descendant is verified with the empty filter |
| Checks.FailurePrunes | internal/pkg/checks/check.go:231-236 | a selected, compatible check whose run fails counts one failure, and none of its descendants run |
| Checks.UnversionedRunsOnlyChildren | internal/pkg/checks/check.go:214-224 | a check with no API versions never executes its run, but its children are still verified |
| Checks.AddCheckKeepsIncompatible | internal/pkg/checks/check.go:147-155 | adopting children changes no check's API versions |
| Checks.IncompatibleTreeRunsNothing | internal/pkg/checks/check.go:223-249 | when no check of a tree declares the configured version, nothing runs under any filter |
| Checks.IncompatibleTreeRunsNothingAll | internal/pkg/checks/check.go:240-249 | the same for a sequence of subtrees |
| Checks.AllPassRunsGatedPreOrder | internal/pkg/checks/check.go:223-249 | when every compatible check passes, the empty filter runs exactly the compatible checks, in pre-order, all as successes |
| Checks.AllPassRunsGatedPreOrderAll | internal/pkg/checks/check.go:240-249 | the same for a sequence of subtrees |
| LegacyChecks.AddCheck | internal/pkg/check.go:23-31 | panics exactly on direct self-parenting; otherwise in-order append with the receiver as parent |
| LegacyChecks.Verify | internal/pkg/check.go:37-76 | the counts sum to the number of runs executed |
| LegacyChecks.EmptyFilterRunsEveryRun | internal/pkg/check.go:51-75 | with the empty filter every check that has a `Run` executes exactly once, in pre-order: failures prune nothing |
| LegacyChecks.EmptyFilterRunsEveryRunAll | internal/pkg/check.go:67-74 | the same for a sequence of subtrees |
| LegacyChecks.UnmatchedFilterRunsNothing | internal/pkg/check.go:38-49 | a non-empty filter naming no check runs nothing and yields (0, 0) |
| LegacyChecks.UnmatchedFilterRunsNothingAll | internal/pkg/check.go:39-46 | the same for a sequence of subtrees |
| LegacyChecks.FilterRunsMatchedSubtrees | internal/pkg/check.go:37-76 | a non-empty filter executes exactly the runs in the subtrees of the topmost checks it names |
| LegacyChecks.FilterRunsMatchedSubtreesAll | internal/pkg/check.go:39-46 | the same for a sequence of subtrees |
| Assert.EffectiveTemplate | internal/pkg/checks/assert.go:38-40 | an empty template is replaced by "expected '%v' but was '%v'" |
| Assert.DeepEquals | internal/pkg/checks/assert.go:37-45 | only appends; nothing is appended iff the values are equal; a mismatch appends exactly one failure formatted with expected first |
| Assert.Absent | internal/pkg/checks/assert.go:50-54 | lists the expected keys missing from the headers, repetitions included; empty iff every expected key is present |
| Assert.ContainsHeaders | internal/pkg/checks/assert.go:48-56 | only appends one failure per absent expected key, in order; values are never inspected |
| Assert.ContainsHeadersPasses | internal/pkg/checks/assert.go:48-56 | nothing is recorded iff every expected key is present |
| Assert.ContainsExactHeaders | internal/pkg/checks/assert.go:60-67 | `ContainsHeaders` plus exactly one more failure iff the key count differs from the expected count; nothing recorded iff all keys are present and the counts match |
| Assert.ExactHeadersIsKeySetEquality | internal/pkg/checks/assert.go:60-67 | with distinct expected keys, nothing is recorded iff the header key set equals the expected set |
| Assert.PassedIgnoresWarnings | internal/pkg/checks/assert.go:80-85 | `Passed` iff E is empty; W never affects it |
| Assert.Numbered | internal/pkg/checks/assert.go:71-76 | each tier's lines are numbered 1..n in order |
| Assert.Render | internal/pkg/checks/assert.go:69-78 | `String` is the numbered ERROR lines followed by the numbered WARN lines |
| Assert.RenderTier | internal/pkg/checks/assert.go:71-76 | each tier's loop yields one line per failure, in order, numbered from 1 |
| Assert.RenderEmptyIff | internal/pkg/checks/assert.go:69-78 | the rendering is empty iff both tiers are empty |
| Assert.DeepEqualsAllCounts | internal/pkg/checks/assert.go:41-44 | N mismatching comparisons append exactly N failures after the prior ones, which stay a prefix |
| Capture.HostHeader | internal/pkg/checks/check.go:114-116 | the Host header is overridden iff the override is non-empty |
| Capture.CaptureRoundTrip | internal/pkg/checks/check.go:85-139 | a transport error is returned as is; success iff the body decodes as a reflection; a decode failure is the unexpected-response error built from the raw response |
| RoutingChecks.LeafAssertions | internal/pkg/suite/pathRulesCheck.go:85-90 | a leaf records at most three failures, and none iff service, echoed field and status 200 all match |
| RoutingChecks.LeafRun | internal/pkg/suite/pathRulesCheck.go:79-98 | a leaf's run carries an error iff the capture failed; a success carries none |
| RoutingChecks.LeafRunPasses | internal/pkg/suite/pathRulesCheck.go:92-97 | a leaf passes iff the capture succeeds and its assertions record nothing |
| RoutingChecks.ParentRun | internal/pkg/suite/pathRulesCheck.go:52-63 | a configured insecure host succeeds with that host; otherwise the lookup's host or its error |
| RoutingChecks.ParentSkipsLookup | internal/pkg/suite/pathRulesCheck.go:53-56 | with an insecure host configured the lookup is never consulted |
| RoutingChecks.LeafCheckIncompatible | internal/pkg/suite/pathRulesCheck.go:76-79 | a leaf declares no API version |
| PathRules.Leaves | internal/pkg/suite/pathRulesCheck.go:76-349 | the eleven prefix leaves in registration order |
| PathRules.LeafChecks | internal/pkg/suite/pathRulesCheck.go:33-43 | the eleven leaf checks, in order |
| PathRules.AssembleShape | internal/pkg/suite/pathRulesCheck.go:31-44 | with distinct ids the registrations nest as parent → [exact, prefix → leaves] |
| PathRules.TreeShape | internal/pkg/suite/pathRulesCheck.go:25-47 | path-rules → [path-rules-exact, path-rules-prefix → 11 leaves]; the placeholders have neither run nor description |
| PathRules.TreeNeverRuns | internal/pkg/suite/pathRulesCheck.go:50-349 | no check of the subtree declares an API version, so `Verify` runs nothing and returns (0, 0) |
| PathRules.AssembleIncompatible | internal/pkg/suite/pathRulesCheck.go:31-44 | registration keeps a version-free subtree version-free |
| PathRules.TreeIncompatible | internal/pkg/suite/pathRulesCheck.go:50-74 | no check of the registered subtree lists any version |
| PathRules.Longest | internal/pkg/suite/pathRulesCheck.go:78 | reference `Prefix` matcher: the chosen rule matches and no matching rule is longer; none iff nothing matches |
| PathRules.LongestDetermined | internal/pkg/suite/pathRulesCheck.go:103 | a matching rule strictly longer than every other match is the one routed to |
| PathRules.RulePrefixes | internal/pkg/suite/pathRulesCheck.go:178 | the trailing slash of a rule path is ignored |
| PathRules.Matches | internal/pkg/suite/pathRulesCheck.go:153 | a path reaches foo for /foo and /foo/…, aaa-bbb for /aaa/bbb and /aaa/bbb/…, and the catch-all otherwise |
| PathRules.RoutesAt | internal/pkg/suite/pathRulesCheck.go:76-349 | each leaf's expected backend is what the reference router picks for its request path |
| PathRules.RoutesAtShort | internal/pkg/suite/pathRulesCheck.go:76-174 | the same for the /, /foo, /foo/ and /fo leaves |
| PathRules.RoutesAtAaaBbb | internal/pkg/suite/pathRulesCheck.go:176-274 | the same for the /aaa/bbb… leaves |
| PathRules.RoutesAtLong | internal/pkg/suite/pathRulesCheck.go:276-349 | the same for the consecutive-slash and invalid-character leaves |
| PathRules.ExpectedServicesFollowPrefixRouting | internal/pkg/suite/pathRulesCheck.go:76-349 | the whole expected table agrees with element-wise `Prefix` matching, longest match winning |
| PathRules.EchoedPathsAsSent | internal/pkg/suite/pathRulesCheck.go:288-338 | echoed paths are expected verbatim: consecutive slashes are kept, invalid characters arrive percent-encoded, and the empty path as "/" |
| PathRules.LeavesShareHostOverride | internal/pkg/suite/pathRulesCheck.go:80-88 | every leaf sends Host "path-rules" and compares the echoed path |
| HostRules.Leaves | internal/pkg/suite/hostRulesCheck.go:50-148 | the four host leaves in registration order |
| HostRules.LeavesExpectTheirHost | internal/pkg/suite/hostRulesCheck.go:54-62 | each leaf expects the echoed Host to equal the Host header it sent |
| HostRules.LeafChecks | internal/pkg/suite/hostRulesCheck.go:26-29 | the four leaf checks, in order |
| HostRules.TreeShape | internal/pkg/suite/hostRulesCheck.go:25-31 | host-rules with its four leaves in order |
| HostRules.TreeNeverRuns | internal/pkg/suite/hostRulesCheck.go:34-148 | no check declares a version, so `Verify` runs nothing |
| HostRules.TreeIncompatible | internal/pkg/suite/hostRulesCheck.go:34-48 | no check of the subtree lists any version |
| HostRules.FirstLabelLength | internal/pkg/suite/hostRulesCheck.go:86-87 | the leftmost label is everything before the first '.' |
| HostRules.Route | internal/pkg/suite/hostRulesCheck.go:61-62 | reference host router: the first matching exact rule's backend; with no exact match, the first matching wildcard rule's; with no match, the default backend |
| HostRules.FirstMatch | internal/pkg/suite/hostRulesCheck.go:61 | a matching rule of the given kind with no matching rule of that kind before it; none iff no rule of that kind matches |
| HostRules.FirstLabelOfConcat | internal/pkg/suite/hostRulesCheck.go:111 | the first label of a label followed by ".rest" is that label |
| HostRules.WildcardIsSingleLabel | internal/pkg/suite/hostRulesCheck.go:111 | a wildcard matches iff the host is exactly one non-empty label followed by the suffix |
| HostRules.ExpectedServicesFollowHostRouting | internal/pkg/suite/hostRulesCheck.go:50-148 | all four expected backends agree with the reference router |
| HostRules.RoutesAt | internal/pkg/suite/hostRulesCheck.go:50-148 | each leaf's expected backend is what the router picks for its Host |
| HostRules.RoutesExact | internal/pkg/suite/hostRulesCheck.go:61 | foo.bar.com reaches host-rules-exact |
| HostRules.RoutesWildcard | internal/pkg/suite/hostRulesCheck.go:86 | wildcard.foo.com reaches host-rules-wildcard |
| HostRules.RoutesToWildcard | internal/pkg/suite/hostRulesCheck.go:86 | any non-exact host the wildcard matches reaches the wildcard backend |
| HostRules.WildcardHostMatches | internal/pkg/suite/hostRulesCheck.go:86 | "*.foo.com" matches wildcard.foo.com |
| HostRules.RoutesMultipleLabels | internal/pkg/suite/hostRulesCheck.go:111 | aaa.bbb.foo.com reaches the default backend |
| HostRules.RoutesNoLabel | internal/pkg/suite/hostRulesCheck.go:136 | foo.com reaches the default backend |
| DefaultBackend.DoCheck | internal/pkg/suite/defaultBackendCheck.go:35-48 | every failure is error-tier and no error is returned |
| DefaultBackend.ResponseHeaderKeysDistinct | internal/pkg/suite/defaultBackendCheck.go:45 | the expected response keys are four distinct names |
| DefaultBackend.DoCheckPasses | internal/pkg/suite/defaultBackendCheck.go:38-45 | passes iff the id is default-backend, the method GET, both protocols HTTP/1.1, the status 200, User-Agent is present, and the response header keys are exactly the four |
| DefaultBackend.RunPasses | internal/pkg/suite/defaultBackendCheck.go:27-50 | the compiled run targets "http://" + host with no path and no Host override, and succeeds iff the capture succeeds and `DoCheck` passes |
| DefaultBackend.NeverRuns | internal/pkg/suite/defaultBackendCheck.go:27-34 | declaring no version, the check never runs |
| Suite.RegisterIsAddCheck | internal/pkg/suite/hostRulesCheck.go:26-30 | one `AddCheck` call per check equals one variadic call |
| Suite.RegisterShape | internal/pkg/checks/check.go:147-155 | registering checks under an empty root hangs them, in order, below it |
| Suite.RegisterKeepsIncompatible | internal/pkg/checks/check.go:147-155 | registration keeps a version-free tree version-free |
| Suite.AllChecksShape | internal/pkg/checks/check.go:142-144 | "all" holds default-backend, host-rules and path-rules, in file-name order |
| Suite.ComposeShape | internal/pkg/suite/pathRulesCheck.go:46 | the three registrations succeed and keep their order |
| Suite.SuiteRunsNothing | internal/pkg/checks/check.go:214-224 | the shipped suite runs no check under any filter or configuration |
| Suite.ComposeRunsNothing | internal/pkg/checks/check.go:223-249 | a composed version-free suite runs nothing |
| Suite.ComposeIncompatible | internal/pkg/suite/defaultBackendCheck.go:23-25 | composing version-free subtrees gives a version-free suite |
| Steps.HaveIngress | internal/pkg/suite/steps.go:29-40 | the endpoint changes only when the lookup succeeds; a lookup error is returned as is |
| Steps.SendARequest | internal/pkg/suite/steps.go:42-116 | an empty endpoint is an error; a URL-parse or capture error is returned as is and leaves the state unchanged; once both succeed the step passes, the target host becomes the endpoint, the Host header keeps the URL's host, and the round trip is replaced |
| Steps.SendTargetsEndpoint | internal/pkg/suite/steps.go:52-54 | the request location depends only on the endpoint, not on the URL's own host |
| Steps.FieldMustBe | internal/pkg/suite/steps.go:118-198 | an equality step errs iff the captured field differs, naming expected then actual |
| Steps.HeadersMustContain | internal/pkg/suite/steps.go:139-170 | fewer than one row is an error; row 0 is skipped; passes iff every data row has two cells and its key is present with "*" or a matching value; a one-cell row or a missing round trip before any failing row panics; otherwise the first failing row's error |
| Steps.Contains | internal/pkg/suite/steps.go:157-162 | the value loop finds the value iff it is among the header's values |
| Steps.RowHoldsLocal | internal/pkg/suite/steps.go:200-231 | a row's verdict depends only on its own key's values |
| Steps.WildcardNeedsOnlyTheKey | internal/pkg/suite/steps.go:153-156 | "*" accepts any value of a present header and nothing when it is absent |
| DefaultBackendFeature.TableFromPasses | test/conformance/defaultbackend/feature.go:112-133 | from a data row on, the walk passes iff every later row has two cells and passes `assertF` |
| DefaultBackendFeature.TableFromStopsAtFirstFailure | test/conformance/defaultbackend/feature.go:128-130 | the first failing data row's error is returned unchanged |
| DefaultBackendFeature.AssertHeaderTablePasses | test/conformance/defaultbackend/feature.go:107-134 | the corrected table check passes iff there is a row, the header row reads key/value, and every data row has two cells and passes |
| DefaultBackendFeature.HeaderRowNotAsserted | test/conformance/defaultbackend/feature.go:120-126 | row 0 is never handed to `assertF` |
| DefaultBackendFeature.TableFromAgree | test/conformance/defaultbackend/feature.go:128 | two assertions agreeing on the data rows give the same verdict |
| DefaultBackendFeature.AsWrittenAcceptsHalfHeader | test/conformance/defaultbackend/feature.go:121 | as written, a header row 'key' / 'wrong' is accepted; the corrected check refuses it |
| LoadBalancingFeature.BeforeScenario | test/conformance/loadbalancing/feature.go:50-53 | no status is recorded |
| LoadBalancingFeature.Record | test/conformance/loadbalancing/feature.go:114-118 | a capture adds its pod to its status's set, creating it when absent; other statuses are unchanged |
| LoadBalancingFeature.SendRequestsTo | test/conformance/loadbalancing/feature.go:102-122 | a URL parse error or a non-positive count records nothing; otherwise the captures are recorded in order |
| LoadBalancingFeature.RecordAllCollects | test/conformance/loadbalancing/feature.go:108-119 | after n clean captures, a status holds a pod iff it was recorded before or some capture returned that pair |
| LoadBalancingFeature.RecordAllStopsAtError | test/conformance/loadbalancing/feature.go:109-112 | the first capture error stops the loop and is returned, keeping what came before |
| LoadBalancingFeature.AllOkPasses | test/conformance/loadbalancing/feature.go:108-121 | when every capture succeeds, the step passes |
| LoadBalancingFeature.AssertDistinctPods | test/conformance/loadbalancing/feature.go:124-135 | errs when the status is absent; passes iff the status's distinct-pod count equals `pods` |
| LoadBalancingFeature.AssertDistinctPodsLocal | test/conformance/loadbalancing/feature.go:125-131 | other status codes never affect the assertion |
| LoadBalancingFeature.RepeatedPodCollapses | test/conformance/loadbalancing/feature.go:118 | recording the same sample twice is recording it once |
| Apply.AddObjectLabels | cmd/apply.go:40-51 | keys are the union; every kv key takes its kv value; other labels are unchanged; nil is empty |
| Apply.ReplaceObjectAnnotations | cmd/apply.go:56-69 | never adds a key; replaces only keys already present with a non-empty value |
| Apply.AddObjectLabelsIdempotent | cmd/apply.go:40-51 | stamping the same labels twice is stamping them once |
| Apply.ReplaceObjectAnnotationsIdempotent | cmd/apply.go:56-69 | replacing the same annotations twice is replacing them once |
| Apply.Rewrite | cmd/apply.go:269-293 | every object gets the three app.kubernetes.io labels; annotations change only on an Ingress with a non-empty class, never gain keys, and keep every value other than the ingress-class one |
| Apply.RewriteSetsClass | cmd/apply.go:281-291 | the class lands on an Ingress iff it already names a non-empty class |
| Apply.Streams | cmd/apply.go:234-256 | a missing asset directory is the "no assets found" error; otherwise the IngressClass manifest (when a controller is named) precedes the directory's assets |
| Apply.IngressClassOnlyWithController | cmd/apply.go:241-251 | the IngressClass manifest is streamed iff a controller is named |
| Codegen.Base | hack/codegen.go:567-574 | the base name is non-empty and slash-free, or "/" |
| Codegen.DeleteKeepsCharacters | hack/codegen.go:570-572 | deleting a pattern introduces no character |
| Codegen.DeleteRemovesCharacter | hack/codegen.go:571 | deleting a one-character pattern leaves none of it |
| Codegen.GeneratePackageIsIdentifierLike | hack/codegen.go:567-574 | the package name has no '_', no '/' and no upper-case ASCII letter |
| Codegen.ArgItems | hack/codegen.go:583-591 | one item per argument: the type only, or name and type |
| Codegen.AccumulatedIsJoin | hack/codegen.go:583-591 | the loop accumulates the joined items plus one trailing ", " |
| Codegen.ArgsFromMapIsJoin | hack/codegen.go:576-597 | "(" + items joined by ", " + ")", with no trailing separator and "()" for none |
| Codegen.GroupsNeverCoincide | hack/codegen.go:639-650 | the number and string groups never start at the same index |
| Codegen.NextGroup | hack/codegen.go:636-653 | the earliest group occurrence and its type; none iff neither group occurs |
| Codegen.Advance | hack/codegen.go:651-652 | each pass moves the position strictly forward, so the scan terminates |
| Codegen.Scan | hack/codegen.go:632-653 | the scan finds at most one type per five characters |
| Codegen.ScanTypes | hack/codegen.go:640-650 | every type found is "int" or "string" |
| Codegen.NoGroupsNoArgs | hack/codegen.go:632-653 | an expression without groups has no arguments |
| Codegen.ParseStepArgs | hack/codegen.go:625-672 | the scanned types, then the doc-string and data-table types when present, keyed arg1..argN |
| Codegen.KeyArgs | hack/codegen.go:664-669 | the i-th type is keyed arg<i+1>, in order, with nothing added or dropped |
| Codegen.ScanGroups | hack/codegen.go:632-653 | the scanning loop finds the types of the reference scan |
| Codegen.ParseSteps | hack/codegen.go:683-731 | only appends; never adds an expression already present; each new definition comes from the first step with its expression, in step order, with that step's name (or the fallback numbered by the empty names so far) and the arguments derived from it |
| Codegen.Defined | hack/codegen.go:716-722 | the inner loop finds an expression iff it is already defined |
| Codegen.NewFunctions | hack/codegen.go:143-160 | the names reported are exactly the feature names missing from the Go file, in sorted order, each with its first feature |
| Codegen.NewFunctionsEmpty | hack/codegen.go:143-160 | nothing is new iff every feature name already has a Go definition |
| Codegen.Types | hack/codegen.go:172-186 | the compared types are the argument values in order |
| Codegen.DiffersIffTypes | hack/codegen.go:172-197 | a signature differs iff the type sequences differ: count first, then positional types |
| Codegen.FirstMismatchIn | hack/codegen.go:164-198 | the same-named Go definition whose signature differs with none such before it; none iff there is none |
| Codegen.FirstSignatureChange | hack/codegen.go:162-201 | at most one change is recorded, one iff some same-named pair differs, and it is the first mismatch of the first feature that has one |
| Codegen.ArgumentNamesIgnored | hack/codegen.go:169-171 | renaming arguments never produces a signature change |
| Codegen.Decide | hack/codegen.go:203-277 | any signature change fails; a missing file fails without update and is written with it; an existing file passes iff nothing is new, and new functions fail even after updating |
| Codegen.ProcessFeature | hack/codegen.go:95-278 | an extraction error fails with "extracting go functions: " and the error; a signature change fails without writing; a missing Go file fails without update and is written as a new file with it; with an existing file and no change, the outcome passes iff every feature name is defined there, and otherwise fails, updating the file iff update is set |
| K8sClient.GetIngressHost | internal/pkg/k8s/client.go:76-96 | a Get error is returned unchanged; a nil list is the load-balancer error; otherwise entry 0's hostname, else its IP, else the no-address error |
| K8sClient.HostIsAnAddress | internal/pkg/k8s/client.go:81-90 | the host is a listed address, and the first one unless entry 0 has a distinct IP and hostname |
| Kubernetes.IngressFromSpec | test/kubernetes/kubernetes.go:150-167 | refused for "" and "default"; otherwise the given name and namespace around the decoded spec, or the decoding error |
| Kubernetes.IngressFromManifest | test/kubernetes/kubernetes.go:170-182 | refused for "" and "default"; otherwise the decoded Ingress with its namespace forced, or the decode error after "deserializing Ingress from manifest: " |
| Kubernetes.BuiltIngressOutsideDefault | test/kubernetes/kubernetes.go:151-173 | an Ingress built either way never lands in the default namespace |
| Kubernetes.NewNamespace | test/kubernetes/kubernetes.go:88-106 | the namespace is created from the prefix with the conformance label; an error is wrapped |
| Kubernetes.CleanupSelectsCreated | test/kubernetes/kubernetes.go:120-128 | the cleanup selector is exactly the label every created namespace carries |
| Kubernetes.DeleteAllStops | test/kubernetes/kubernetes.go:129-134 | deletion stops at the first error: the attempted names are a prefix, all but the last deleted cleanly; no error means all were deleted |
| Kubernetes.DeleteAllStep | test/kubernetes/kubernetes.go:129-134 | a clean delete moves on to the next name |
| Kubernetes.CleanupNamespaces | test/kubernetes/kubernetes.go:120-137 | a listing error is returned; otherwise deletion as the reference, stopping at the first error |
| Kubernetes.GetIngressAddress | test/kubernetes/kubernetes.go:219-238 | the Get error, or every entry's IP then hostname, skipping empty ones |
| Kubernetes.AddressesBound | test/kubernetes/kubernetes.go:227-235 | at most two addresses per entry |
| Kubernetes.AddressesMembership | test/kubernetes/kubernetes.go:227-235 | an address is listed iff it is a non-empty IP or hostname of some entry |
| Kubernetes.FirstAddress | test/kubernetes/kubernetes.go:228-234 | the first address is entry 0's IP when set, else its hostname |
| Kubernetes.AddressesPrefix | test/kubernetes/kubernetes.go:227-235 | the addresses of a prefix of the entries are a prefix of all addresses |
| Kubernetes.PollAddress | test/kubernetes/kubernetes.go:198-208 | a poll is done iff the list is non-empty (taking its first element), and aborts iff the error is not retryable |
| Kubernetes.WaitForIngressAddress | test/kubernetes/kubernetes.go:195-216 | the first poll that does not continue decides: done yields its first address, a non-retryable error is that error after the wait prefix; all continuing is a timeout |
| Deployments.FinalPort | test/kubernetes/deployment.go:119-126 | the port name is overridden only by a non-empty name, and a port of 0 becomes 8080 |
| Deployments.FinalPortIdempotent | test/kubernetes/deployment.go:119-126 | applying the overrides twice is applying them once |
| Deployments.Perform | test/kubernetes/deployment.go:94-141 | the writes performed are a prefix of the plan; no error iff the whole plan was written cleanly; an error is the last write's, and every earlier write succeeded |
| Deployments.NewEchoDeployment | test/kubernetes/deployment.go:43-144 | an existing deployment writes nothing; a lookup error is returned; otherwise deployment, service and wait, stopping at the first error, which is the last write's |
| Deployments.DeploymentBeforeService | test/kubernetes/deployment.go:94-141 | the deployment is written before the service, and the service before the wait |
| Deployments.PathsBackends | test/kubernetes/deployment.go:162-170 | one backend per path, in order |
| Deployments.DeployAllStops | test/kubernetes/deployment.go:147-175 | deployment stops at the first error: the tried backends are a prefix, all but the last deployed cleanly |
| Deployments.DeployAllAppend | test/kubernetes/deployment.go:154-172 | deploying a concatenation is the first part, then (if clean) the second |
| Deployments.DeployPaths | test/kubernetes/deployment.go:164-170 | the paths loop deploys the rule's backends as the reference does |
| Deployments.DeploymentsFromIngress | test/kubernetes/deployment.go:147-175 | the default backend first, then every path of every rule with HTTP, in order, stopping at the first error |
| Deployments.DeployRuleStep | test/kubernetes/deployment.go:160-172 | a rule's paths are deployed before later rules'; a rule without HTTP is skipped |
| Deployments.DeployRules | test/kubernetes/deployment.go:160-172 | the rules loop deploys the rules' backends as the reference does |
| Deployments.CountReadyEndpoints | test/kubernetes/deployment.go:217-228 | 0 for a nil object or nil subsets, else the addresses summed over the subsets |
| Deployments.TotalAddressesAppend | test/kubernetes/deployment.go:222-227 | the count of a concatenation is the sum of the counts |
| Deployments.WaitForEndpointsCount | test/kubernetes/deployment.go:198-215 | 0 expected returns at once; otherwise success iff some read has exactly the expected count, else a timeout |
| HttpCapture.LeadingSlashOptional | test/http/http.go:84 | paths "foo" and "/foo" give the same URL |
| HttpCapture.EmptyPathIsRoot | test/http/http.go:84 | an empty path gives location + "/" |
| HttpCapture.OneSlashTrimmed | test/http/http.go:84 | only one leading slash is trimmed: "//x" keeps a doubled slash |
| HttpCapture.CaptureRoundTrip | test/http/http.go:54-115 | a network error is returned; success iff the body decodes; a decode failure is the unexpected-response error; the TLS hostname is the hostname iff the certificate callback ran, else "" |
| HttpCapture.CaptureIgnoresLeadingSlash | test/http/http.go:84 | writing the path with or without its leading slash changes nothing in the capture |
| EchoServer.PreserveSlashesNoDouble | images/echoserver/echoserver.go:42-45 | a path without "//" is unchanged |
| EchoServer.PreserveSlashesLength | images/echoserver/echoserver.go:43 | the rewrite shortens the path by one per replaced "//" |
| EchoServer.PreserveSlashesNotIdempotent | images/echoserver/echoserver.go:43 | one pass is not a fixpoint: "///" becomes "//", then "/" |
| EchoServer.Port | images/echoserver/echoserver.go:57-60 | PORT when set and non-empty, and "3000" when it is unset or empty |
| EchoServer.Serve | images/echoserver/echoserver.go:69-105 | "/health" after the rewrite is 200 "OK"; anything else echoes the request URI, host, method, protocol, headers and context as JSON |
| EchoServer.EchoedPathIgnoresRewrite | images/echoserver/echoserver.go:86-93 | the echoed path is the request URI, unaffected by the rewrite |
| EchoServer.DoubleSlashHealth | images/echoserver/echoserver.go:42-45 | "//health" is collapsed and answered as a health check |
| ToolsEchoServer.GetEnv | tools/echoserver.go:50-55 | the value whenever the variable is set, even empty; the fallback only when unset |
| ToolsEchoServer.EmptyPortKept | tools/echoserver.go:62 | PORT set to "" is kept, unlike the image's server |
| ToolsEchoServer.RequestHandler | tools/echoserver.go:77-98 | echoes TEST_ID, the request URI, host, method, protocol and headers, as JSON |
| ToolsEchoServer.CheckSeesTestId | tools/echoserver.go:80-87 | a check decoding the record sees TEST_ID as the downstream service and the request URI as the path |

## Left out

- Networking, TLS and timeouts are the `Transport`/`Network` parameters. This covers the transports, the 3-second timeout, certificate parsing and `VerifyHostname`. Whether the certificate callback ran is an input.
- All client-go calls are parameters or given results. This covers `Get`, `List`, `Create`, `Delete`, `wait.Poll` and `isRetryableAPIError` (a predicate parameter). Poll timing is a finite sequence of results that fit in the timeout.
- `initClient`, `sync.Once`, `LoadClientset`, `NewIngress` and `DeleteNamespace` are client plumbing, abstracted into the `create`, `delete` and `get` parameters.
- YAML and JSON decoding (`IngressFromSpec`, `IngressFromManifest`, the echo body) are decode parameters or the decoded value. `json.Marshal` of the echo records cannot fail for these types, so the 500 path of the echo servers is not modelled.
- The deployment and service templates are not part of this model. Rendering and decoding errors are folded into the write they precede, and so is the YAML display.
- The apply builder, kubectl plumbing and asset loading are the `assetDir` parameter.
- Go AST parsing and printing, template execution, file walking and writing are left out of the code generator. The new-file and update outcomes are parameters. The regexp rewrites that derive a step's expression and name are the `exprOf`/`nameOf` parameters.
- Codegen.GeneratePackage: treats `strings.ToLower` as ASCII lower-casing. Non-ASCII letters are not folded.
- Codegen.Scan: scans for the two literal groups by string search, as the source does. No regular-expression matching is modelled.
- Checks.Verify: does not model the returned `err`, which is always nil. Console printing is dropped everywhere.
- EchoServer.Serve: Go's `ServeMux` path cleaning is not modelled. The mux answers with a redirect for any path that `path.Clean` would change, such as one still containing "//", "/./" or "/../" after the rewrite. `Serve` routes only on an exact "/health".
- URL parsing and percent-encoding are abstracted: `Steps.SendARequest` takes the parsed URL, and the path-rules table states the percent-encoded path directly.
- Assert.Absent, Assert.ContainsHeaders, Assert.ContainsExactHeaders, Steps.RowHolds: test whether the key is present in the header map. Go's `actual[key] == nil` (internal/pkg/checks/assert.go:51, internal/pkg/suite/steps.go:153 and 214) is also true for a key bound to a nil slice or JSON null, and such a key counts as absent there.
- Capture.UnexpectedResponse, HttpCapture.UnexpectedResponse: the "length: %d" field counts the body's characters. Go's `len(body)` counts bytes, so the two agree only for ASCII bodies.
- Codegen.ProcessFeature: joins the Go file path with "/". `filepath.Join` also cleans the result (duplicate and trailing separators, "." and ".." elements), which is not modelled.
- Steps.FieldMustBe: takes the round trip itself. With no earlier request the source dereferences a nil pointer and panics; only `Steps.HeadersMustContain` models that panic.
- RoutingChecks.ParentRun, RoutingChecks.LeafRun: the host hand-off through the package variables `pathRulesHost` and `hostRulesHost` is not modelled. `ParentRun` returns the host and `LeafRun` takes its host as a parameter, and `Checks.Verify` threads no state between runs. In the source a filter naming only a leaf runs it while the variable is still "", so its request location is "http://" with an empty host. The shipped suite runs none of these checks (`Suite.SuiteRunsNothing`).
- Deployments.DeploymentsFromIngress: `Backend` always names a service. A resource backend has a nil `Service`, and the source dereferences it without a check (test/kubernetes/deployment.go:148-149 and 163-164) and panics; that path is not modelled.
- K8sClient.GetIngressHost: requires a non-empty list when the list is non-nil, because the source indexes entry 0 without a length check and would panic.
- The console output of `Assertions.String` is modelled (`Assert.Render`), but printing it is not.
- The earlier-snapshot check files under internal/pkg/checks (path, host, default-backend and single-service checks) are not part of this model. Neither are the runners in cmd/ and conformance_test.go, the godog step registration, the test state plumbing, the report generators or the hostrules/pathrules feature stubs.
- The concrete package name of "features/default_backend.feature" is not stated as a lemma. `Codegen.GeneratePackageIsIdentifierLike` states its general shape.

## Findings

| source | as written | input that shows it | evidently intended | confidence | as-written member | corrected member |
|---|---|---|---|---|---|---|
| test/conformance/defaultbackend/feature.go:121 | the header row is refused only when the key cell is not "key" AND the value cell is not "value" | a one-row table `key \| wrong` passes | refuse a header row unless it reads exactly 'key' and 'value', as the error message says | not executed | DefaultBackendFeature.AsWrittenAcceptsHalfHeader | DefaultBackendFeature.AssertHeaderTablePasses |
