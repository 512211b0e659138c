/**
 * The cluster helpers of test/kubernetes/kubernetes.go with the API server
 * abstracted: namespaces created and cleaned up under the conformance label,
 * Ingress objects built from a spec or a manifest outside the default
 * namespace, and the address an Ingress acquires from its load-balancer
 * status.
 */
module Kubernetes {
  import opened Wrappers

  // ---------------------------------------------------------------------------
  // Ingress objects

  /** A backend service reference: the service name and its port by name or number. */
  datatype Backend = Backend(serviceName: string, portName: string, portNumber: int)

  /** An HTTP path of a rule, reduced to the backend it routes to. */
  datatype HttpPath = HttpPath(path: string, backend: Backend)

  /** An Ingress rule; `http` is `None` when the rule has no HTTP section. */
  datatype Rule = Rule(host: string, http: Option<seq<HttpPath>>)

  datatype IngressSpec = IngressSpec(defaultBackend: Option<Backend>, rules: seq<Rule>)

  datatype Ingress = Ingress(name: string, namespace: string, spec: IngressSpec)

  /** `metav1.NamespaceNone` and `metav1.NamespaceDefault`. */
  const NamespaceNone: string := ""
  const NamespaceDefault: string := "default"

  predicate IsDefaultNamespace(namespace: string)
  {
    namespace == NamespaceNone || namespace == NamespaceDefault
  }

  function DefaultNamespaceError(namespace: string): string
  {
    "Ingress definitions in the default namespace are not allowed (" + namespace + ")"
  }

  /**
   * `IngressFromSpec`: refused in the default namespace; otherwise the given
   * name and namespace around the decoded spec, or the decoding error.
   */
  function IngressFromSpec(name: string, namespace: string, ingressSpec: string,
                           decode: string -> Result<IngressSpec>): (r: Result<Ingress>)
    ensures IsDefaultNamespace(namespace) ==> r == Err(DefaultNamespaceError(namespace))
    ensures r.Ok? <==> !IsDefaultNamespace(namespace) && decode(ingressSpec).Ok?
    ensures r.Ok? ==> r.value == Ingress(name, namespace, decode(ingressSpec).value)
    ensures !IsDefaultNamespace(namespace) && decode(ingressSpec).Err? ==>
      r == Err("deserializing Ingress from spec: " + decode(ingressSpec).error)
  {
    if IsDefaultNamespace(namespace) then Err(DefaultNamespaceError(namespace))
    else
      match decode(ingressSpec)
      case Err(e) => Err("deserializing Ingress from spec: " + e)
      case Ok(spec) => Ok(Ingress(name, namespace, spec))
  }

  /**
   * `IngressFromManifest`: refused in the default namespace; otherwise the
   * decoded Ingress with its namespace forced to the given one.
   */
  function IngressFromManifest(namespace: string, manifest: string,
                               decode: string -> Result<Ingress>): (r: Result<Ingress>)
    ensures IsDefaultNamespace(namespace) ==> r == Err(DefaultNamespaceError(namespace))
    ensures r.Ok? <==> !IsDefaultNamespace(namespace) && decode(manifest).Ok?
    ensures r.Ok? ==> r.value == decode(manifest).value.(namespace := namespace)
    ensures !IsDefaultNamespace(namespace) && decode(manifest).Err? ==>
      r == Err("deserializing Ingress from manifest: " + decode(manifest).error)
  {
    if IsDefaultNamespace(namespace) then Err(DefaultNamespaceError(namespace))
    else
      match decode(manifest)
      case Err(e) => Err("deserializing Ingress from manifest: " + e)
      case Ok(ing) => Ok(ing.(namespace := namespace))
  }

  /** Whichever way an Ingress is built, it never lands in the default namespace. */
  lemma BuiltIngressOutsideDefault(name: string, namespace: string, text: string,
                                   decodeSpec: string -> Result<IngressSpec>, decodeIngress: string -> Result<Ingress>)
    ensures IngressFromSpec(name, namespace, text, decodeSpec).Ok? ==>
      !IsDefaultNamespace(IngressFromSpec(name, namespace, text, decodeSpec).value.namespace)
    ensures IngressFromManifest(namespace, text, decodeIngress).Ok? ==>
      !IsDefaultNamespace(IngressFromManifest(namespace, text, decodeIngress).value.namespace)
  {
  }

  // ---------------------------------------------------------------------------
  // Namespaces

  const NamespacePrefix: string := "ingress-conformance-"
  const NameLabel: string := "app.kubernetes.io/name"
  const NameLabelValue: string := "ingress-conformance"
  const CleanupSelector: string := "app.kubernetes.io/name=ingress-conformance"

  function NamespaceLabels(): map<string, string>
  {
    map[NameLabel := NameLabelValue]
  }

  /**
   * `NewNamespace`: the API server generates the name from the prefix; the
   * namespace carries the conformance label.
   */
  function NewNamespace(create: (string, map<string, string>) -> Result<string>): (r: Result<string>)
    ensures create(NamespacePrefix, NamespaceLabels()).Ok? ==> r == create(NamespacePrefix, NamespaceLabels())
    ensures create(NamespacePrefix, NamespaceLabels()).Err? ==>
      r == Err("unable to create namespace: " + create(NamespacePrefix, NamespaceLabels()).error)
  {
    match create(NamespacePrefix, NamespaceLabels())
    case Err(e) => Err("unable to create namespace: " + e)
    case Ok(name) => Ok(name)
  }

  /** The cleanup selector is exactly the label every created namespace carries. */
  lemma CleanupSelectsCreated()
    ensures NameLabel in NamespaceLabels() && CleanupSelector == NameLabel + "=" + NamespaceLabels()[NameLabel]
  {
  }

  /**
   * The reference for `CleanupNamespaces` over the listed names: the names a
   * delete was attempted for, and the first delete error.
   */
  function DeleteAll(names: seq<string>, delete: string -> Option<string>): (r: (seq<string>, Option<string>))
  {
    if |names| == 0 then ([], None)
    else if delete(names[0]).Some? then ([names[0]], delete(names[0]))
    else
      var rest := DeleteAll(names[1..], delete);
      ([names[0]] + rest.0, rest.1)
  }

  /**
   * Deletion stops at the first error: the attempted names are a prefix of
   * the list, all but the last deleted cleanly, and the last one failed with
   * the returned error; without an error every name was deleted.
   */
  lemma {:induction false} DeleteAllStops(names: seq<string>, delete: string -> Option<string>)
    ensures var r := DeleteAll(names, delete);
      r.0 <= names &&
      (r.1.None? <==> r.0 == names && forall i :: 0 <= i < |names| ==> delete(names[i]).None?) &&
      (r.1.Some? ==> (|r.0| > 0 && delete(r.0[|r.0| - 1]) == r.1 &&
                      forall i :: 0 <= i < |r.0| - 1 ==> delete(r.0[i]).None?))
  {
    if |names| > 0 && delete(names[0]).None? {
      DeleteAllStops(names[1..], delete);
      assert forall i :: 1 <= i < |names| ==> names[i] == names[1..][i - 1];
    }
  }

  /** A delete that succeeds adds its name to the attempted prefix and moves on. */
  lemma DeleteAllStep(names: seq<string>, delete: string -> Option<string>, i: nat)
    requires i < |names| && delete(names[i]).None?
    ensures DeleteAll(names[i..], delete) ==
      ([names[i]] + DeleteAll(names[i + 1..], delete).0, DeleteAll(names[i + 1..], delete).1)
  {
    assert names[i..][1..] == names[i + 1..];
    assert names[i..][0] == names[i];
  }

  /**
   * `CleanupNamespaces`: a listing error is returned as is; otherwise each
   * labelled namespace is deleted in turn until the first delete error.
   */
  method CleanupNamespaces(list: Result<seq<string>>, delete: string -> Option<string>)
    returns (attempted: seq<string>, err: Option<string>)
    ensures list.Err? ==> attempted == [] && err == Some(list.error)
    ensures list.Ok? ==> (attempted, err) == DeleteAll(list.value, delete)
  {
    if list.Err? {
      return [], Some(list.error);
    }
    var names := list.value;
    attempted := [];
    assert names[0..] == names;
    assert [] + DeleteAll(names, delete).0 == DeleteAll(names, delete).0;
    for i := 0 to |names|
      invariant attempted == names[..i]
      invariant DeleteAll(names, delete) == (attempted + DeleteAll(names[i..], delete).0, DeleteAll(names[i..], delete).1)
    {
      assert names[..i + 1] == names[..i] + [names[i]];
      var e := delete(names[i]);
      if e.Some? {
        assert DeleteAll(names[i..], delete) == ([names[i]], e) by {
          assert names[i..][0] == names[i];
        }
        return attempted + [names[i]], e;
      }
      DeleteAllStep(names, delete, i);
      ghost var rest := DeleteAll(names[i + 1..], delete).0;
      assert attempted + ([names[i]] + rest) == (attempted + [names[i]]) + rest;
      attempted := attempted + [names[i]];
    }
    assert names[|names|..] == [];
    assert DeleteAll(names[|names|..], delete) == ([], None);
    assert attempted + [] == attempted;
    return attempted, None;
  }

  // ---------------------------------------------------------------------------
  // Ingress addresses

  /** One entry of an Ingress's `status.loadBalancer.ingress`. */
  datatype LoadBalancerIngress = LoadBalancerIngress(ip: string, hostname: string)

  /** The addresses one entry contributes: its IP, then its hostname, each only when set. */
  function EntryAddresses(a: LoadBalancerIngress): (r: seq<string>)
  {
    (if a.ip != "" then [a.ip] else []) + (if a.hostname != "" then [a.hostname] else [])
  }

  /** The reference flattening of all entries, in order. */
  function Addresses(entries: seq<LoadBalancerIngress>): seq<string>
  {
    if |entries| == 0 then []
    else Addresses(entries[..|entries| - 1]) + EntryAddresses(entries[|entries| - 1])
  }

  /** `getIngressAddress`: the Get error, or the IPs and hostnames of all entries in order. */
  method GetIngressAddress(get: Result<seq<LoadBalancerIngress>>) returns (r: Result<seq<string>>)
    ensures get.Err? ==> r == Err(get.error)
    ensures get.Ok? ==> r == Ok(Addresses(get.value))
  {
    if get.Err? {
      return Err(get.error);
    }
    var entries := get.value;
    var addresses: seq<string> := [];
    for i := 0 to |entries|
      invariant addresses == Addresses(entries[..i])
    {
      var a := entries[i];
      assert entries[..i + 1][..i] == entries[..i];
      if a.ip != "" {
        addresses := addresses + [a.ip];
      }
      if a.hostname != "" {
        addresses := addresses + [a.hostname];
      }
    }
    assert entries[..|entries|] == entries;
    return Ok(addresses);
  }

  /** At most two addresses per entry. */
  lemma {:induction false} AddressesBound(entries: seq<LoadBalancerIngress>)
    ensures |Addresses(entries)| <= 2 * |entries|
  {
    if |entries| > 0 {
      AddressesBound(entries[..|entries| - 1]);
    }
  }

  /** An address is listed exactly when it is a non-empty IP or hostname of some entry. */
  lemma {:induction false} AddressesMembership(entries: seq<LoadBalancerIngress>, x: string)
    ensures x in Addresses(entries) <==>
      x != "" && exists i :: 0 <= i < |entries| && (entries[i].ip == x || entries[i].hostname == x)
  {
    if |entries| > 0 {
      var init := entries[..|entries| - 1];
      AddressesMembership(init, x);
      assert forall i :: 0 <= i < |init| ==> init[i] == entries[i];
      if x != "" && exists i :: 0 <= i < |entries| && (entries[i].ip == x || entries[i].hostname == x) {
        var i :| 0 <= i < |entries| && (entries[i].ip == x || entries[i].hostname == x);
        if i < |init| {
          assert init[i] == entries[i];
        }
      }
    }
  }

  /** The first address is the first entry's IP when it has one, else its hostname. */
  lemma FirstAddress(entries: seq<LoadBalancerIngress>)
    requires |entries| > 0 && (entries[0].ip != "" || entries[0].hostname != "")
    ensures |Addresses(entries)| > 0
    ensures Addresses(entries)[0] == if entries[0].ip != "" then entries[0].ip else entries[0].hostname
  {
    AddressesPrefix(entries, 1);
    assert entries[..1] == [entries[0]];
    assert Addresses([entries[0]]) == Addresses([]) + EntryAddresses(entries[0]);
  }

  /** The addresses of a prefix of the entries are a prefix of all the addresses. */
  lemma {:induction false} AddressesPrefix(entries: seq<LoadBalancerIngress>, n: nat)
    requires n <= |entries|
    decreases |entries| - n
    ensures Addresses(entries[..n]) <= Addresses(entries)
  {
    if n < |entries| {
      AddressesPrefix(entries, n + 1);
      assert entries[..n + 1][..n] == entries[..n];
    } else {
      assert entries[..n] == entries;
    }
  }

  // ---------------------------------------------------------------------------
  // Waiting for an address

  /** What one poll of `WaitForIngressAddress` decides. */
  datatype PollStep = Done(address: string) | Continue | Abort(error: string)

  /**
   * One poll: the first address once the list is non-empty; a retryable API
   * error or an empty list keeps polling; any other error stops the wait.
   */
  function PollAddress(result: Result<seq<string>>, retryable: string -> bool): (s: PollStep)
    ensures s.Done? <==> result.Ok? && |result.value| > 0
    ensures s.Done? ==> s.address == result.value[0]
    ensures s.Abort? <==> result.Err? && !retryable(result.error)
  {
    match result
    case Ok(list) => if |list| > 0 then Done(list[0]) else Continue
    case Err(e) => if retryable(e) then Continue else Abort(e)
  }

  const WaitPrefix: string := "waiting for ingress status update: "
  const TimedOut: string := "timed out waiting for the condition"

  /** Poll `i` is the first that does not keep polling. */
  predicate Decides(polls: seq<Result<seq<string>>>, retryable: string -> bool, i: int)
  {
    0 <= i < |polls| && !PollAddress(polls[i], retryable).Continue? &&
    forall k :: 0 <= k < i ==> PollAddress(polls[k], retryable).Continue?
  }

  /**
   * `WaitForIngressAddress` over the successive `getIngressAddress` results
   * that fit in the timeout: the first poll that does not continue decides,
   * and running out of polls is a timeout.
   */
  function WaitForIngressAddress(polls: seq<Result<seq<string>>>, retryable: string -> bool): (r: Result<string>)
    ensures r.Ok? <==> exists i :: Decides(polls, retryable, i) && PollAddress(polls[i], retryable).Done?
    ensures r.Ok? ==> exists i :: Decides(polls, retryable, i) && polls[i].Ok? && r.value == polls[i].value[0]
    ensures forall i :: Decides(polls, retryable, i) ==>
      r == match PollAddress(polls[i], retryable)
           case Done(a) => Ok(a)
           case Abort(e) => Err(WaitPrefix + e)
           case Continue => Err(WaitPrefix + TimedOut)
    ensures (forall k :: 0 <= k < |polls| ==> PollAddress(polls[k], retryable).Continue?) ==> r == Err(WaitPrefix + TimedOut)
  {
    if |polls| == 0 then Err(WaitPrefix + TimedOut)
    else
      match PollAddress(polls[0], retryable)
      case Done(a) =>
        assert Decides(polls, retryable, 0);
        Ok(a)
      case Abort(e) => Err(WaitPrefix + e)
      case Continue =>
        var r := WaitForIngressAddress(polls[1..], retryable);
        DecidesAfterContinue(polls, retryable);
        if r.Ok? then
          ghost var i :| Decides(polls[1..], retryable, i) && polls[1..][i].Ok? && r.value == polls[1..][i].value[0];
          assert Decides(polls, retryable, i + 1) && polls[i + 1] == polls[1..][i];
          r
        else r
  }

  /** After a continuing first poll, the deciding poll is the tail's, one later. */
  lemma DecidesAfterContinue(polls: seq<Result<seq<string>>>, retryable: string -> bool)
    requires |polls| > 0 && PollAddress(polls[0], retryable).Continue?
    ensures forall i :: Decides(polls, retryable, i) ==> Decides(polls[1..], retryable, i - 1)
    ensures forall i :: Decides(polls[1..], retryable, i) ==> Decides(polls, retryable, i + 1)
    ensures (forall k :: 0 <= k < |polls| ==> PollAddress(polls[k], retryable).Continue?) ==>
            (forall k :: 0 <= k < |polls[1..]| ==> PollAddress(polls[1..][k], retryable).Continue?)
  {
    assert forall k :: 1 <= k < |polls| ==> polls[k] == polls[1..][k - 1];
    forall i | Decides(polls, retryable, i) ensures Decides(polls[1..], retryable, i - 1) {
      assert i > 0;
    }
  }
}
