/**
 * The generators of the legacy Deployment kind: one single-host Ingress per rule whose
 * paths route to the owning object, and a NodePort Service without selector.
 */
module LegacyGen {
  import opened Common
  import opened Api
  import opened LegacyApi
  import opened Objects
  import IngressGen

  /** Every path of a legacy rule routes to the owning object's own name. */
  function LegacyBackend(d: LegacyDeployment, rule: LegacyIngressRule): Backend
  {
    Backend(d.name, rule.containerPort)
  }

  /** Declared paths, or one catch-all entry when there are none. */
  function LegacyPaths(d: LegacyDeployment, rule: LegacyIngressRule): (r: seq<HttpPath>)
    ensures |rule.paths| == 0 ==> r == [HttpPath("", ImplementationSpecific, LegacyBackend(d, rule))]
    ensures |rule.paths| > 0 ==> |r| == |rule.paths|
    ensures forall i :: 0 <= i < |rule.paths| ==>
      r[i] == HttpPath(rule.paths[i], ImplementationSpecific, LegacyBackend(d, rule))
  {
    var declared := IngressGen.DeclaredPaths(rule.paths, LegacyBackend(d, rule));
    if |declared| == 0 then [HttpPath("", ImplementationSpecific, LegacyBackend(d, rule))] else declared
  }

  /** Appends exactly one stanza, carrying the rule's single host (possibly empty). */
  function ConfigureLegacyIngressRules(d: LegacyDeployment, rule: LegacyIngressRule, ing: Ingress): Ingress
  {
    ing.(rules := ing.rules + [HostRule(rule.host, LegacyPaths(d, rule))])
  }

  /** The bare object: a name and a namespace, no labels, no annotations. */
  function NewLegacyIngress(d: LegacyDeployment, name: string): Ingress
  {
    Ingress(ObjectMeta(name, d.namespace, map[], None), [])
  }

  function LegacyIngressFor(d: LegacyDeployment, rule: LegacyIngressRule): (r: Ingress)
    ensures r.meta == ObjectMeta(IngressGen.IngressName(d.name, rule.name), d.namespace, map[], None)
    ensures r.rules == [HostRule(rule.host, LegacyPaths(d, rule))]
  {
    ConfigureLegacyIngressRules(d, rule, NewLegacyIngress(d, IngressGen.IngressName(d.name, rule.name)))
  }

  function LegacyIngressesFor(d: LegacyDeployment, rules: seq<LegacyIngressRule>): (r: seq<Ingress>)
    ensures |r| == |rules|
    ensures forall i :: 0 <= i < |rules| ==> r[i] == LegacyIngressFor(d, rules[i])
  {
    if |rules| == 0 then []
    else LegacyIngressesFor(d, rules[..|rules| - 1]) + [LegacyIngressFor(d, rules[|rules| - 1])]
  }

  /** One object per rule, named `<object>-<rule>`, each with exactly one stanza. */
  function GenerateLegacyIngresses(d: LegacyDeployment): (r: seq<Ingress>)
    ensures |r| == |d.ingress|
    ensures forall i :: 0 <= i < |r| ==>
      && r[i].meta.name == IngressGen.IngressName(d.name, d.ingress[i].name)
      && |r[i].rules| == 1
      && r[i].rules[0].host == d.ingress[i].host
  {
    LegacyIngressesFor(d, d.ingress)
  }

  function LegacyServicePorts(rules: seq<LegacyIngressRule>): (r: seq<ServicePort>)
    ensures |r| == |rules|
    ensures forall i :: 0 <= i < |r| ==>
      r[i] == ServicePort(rules[i].name, rules[i].containerPort, rules[i].containerPort, Protocol.TCP)
  {
    if |rules| == 0 then []
    else LegacyServicePorts(rules[..|rules| - 1])
         + [ServicePort(rules[|rules| - 1].name, rules[|rules| - 1].containerPort, rules[|rules| - 1].containerPort, Protocol.TCP)]
  }

  /** The legacy service: empty (non-nil) annotations, no labels, no selector, one TCP port per rule. */
  function GenerateLegacyService(d: LegacyDeployment): (r: Service)
    ensures r.meta == ObjectMeta(d.name, d.namespace, map[], Some(map[]))
    ensures r.spec.selector.None? && r.spec.serviceType == NodePort
    ensures |r.spec.ports| == |d.ingress|
    ensures forall i :: 0 <= i < |r.spec.ports| ==>
      r.spec.ports[i] == ServicePort(d.ingress[i].name, d.ingress[i].containerPort, d.ingress[i].containerPort, Protocol.TCP)
  {
    var svc := Service(ObjectMeta(d.name, d.namespace, map[], Some(map[])), ServiceSpec(None, [], ClusterIP, ""));
    svc.(spec := svc.spec.(ports := LegacyServicePorts(d.ingress), serviceType := NodePort))
  }

  /**
   * Every legacy path routes to the legacy service itself, on a port that service exposes:
   * the backend always resolves.
   */
  lemma LegacyBackendsResolve(d: LegacyDeployment, i: int, k: int)
    requires 0 <= i < |d.ingress|
    requires 0 <= k < |GenerateLegacyIngresses(d)[i].rules[0].paths|
    ensures GenerateLegacyIngresses(d)[i].rules[0].paths[k].backend.service == GenerateLegacyService(d).meta.name
    ensures GenerateLegacyIngresses(d)[i].rules[0].paths[k].backend.port == GenerateLegacyService(d).spec.ports[i].port
  {
    assert GenerateLegacyIngresses(d)[i] == LegacyIngressFor(d, d.ingress[i]);
  }
}
