/**
 * `GetIngressHost` of internal/pkg/k8s/client.go: the host a check sends its
 * requests to, read from the first entry of the Ingress's load-balancer
 * status. The client-go `Get` is abstracted as its result.
 */
module K8sClient {
  import opened Wrappers
  import opened Format
  import opened Kubernetes

  function NoAddressError(ingressName: string): string
  {
    Sprintf("ingresses/status/loadBalancer \"%s\" has no hostname or IP", [Str(ingressName)])
  }

  function NoLoadBalancerError(ingressName: string): string
  {
    Sprintf("ingresses/status \"%s\" has no load balancer interface; use '--use-insecure-host' " +
            "and '--use-secure-host' if this is a limitation from the infrastructure", [Str(ingressName)])
  }

  /**
   * `GetIngressHost`, given what `Get` returned: `None` stands for a nil
   * load-balancer list. A non-nil list is indexed at 0 without a length
   * check, so it must not be empty.
   */
  function GetIngressHost(get: Result<Option<seq<LoadBalancerIngress>>>, ingressName: string): (r: Result<string>)
    requires get.Ok? && get.value.Some? ==> |get.value.value| > 0
    ensures get.Err? ==> r == Err(get.error)
    ensures get.Ok? && get.value.None? ==> r == Err(NoLoadBalancerError(ingressName))
    ensures get.Ok? && get.value.Some? ==>
      var first := get.value.value[0];
      (r.Err? <==> first.hostname == "" && first.ip == "") &&
      (r.Err? ==> r.error == NoAddressError(ingressName)) &&
      (r.Ok? ==> r.value == if first.hostname != "" then first.hostname else first.ip)
  {
    match get
    case Err(e) => Err(e)
    case Ok(None) => Err(NoLoadBalancerError(ingressName))
    case Ok(Some(entries)) =>
      var first := entries[0];
      var host := if first.hostname != "" then first.hostname else first.ip;
      if host == "" then Err(NoAddressError(ingressName)) else Ok(host)
  }

  /**
   * The host is never empty, and it is one of the addresses `getIngressAddress`
   * lists; it is the first of them unless the first entry has both an IP and
   * a hostname, where the two helpers disagree (hostname here, IP there).
   */
  lemma HostIsAnAddress(entries: seq<LoadBalancerIngress>, ingressName: string)
    requires |entries| > 0
    ensures var r := GetIngressHost(Ok(Some(entries)), ingressName);
      r.Ok? ==> (r.value != "" && r.value in Addresses(entries) &&
                 (r.value == Addresses(entries)[0] <==>
                  entries[0].ip == "" || entries[0].hostname == "" || entries[0].ip == entries[0].hostname))
  {
    var r := GetIngressHost(Ok(Some(entries)), ingressName);
    if r.Ok? {
      AddressesMembership(entries, r.value);
      FirstAddress(entries);
    }
  }
}
