/**
 * Desired Ingress objects of a Microservice: one object per declared rule, fanned out
 * over the rule's hosts and paths.
 */
module IngressGen {
  import opened Common
  import opened Api
  import opened Objects

  /** The deterministic child name `<workload>-<rule>`. */
  function IngressName(workload: string, rule: string): (r: string)
    ensures |r| == |workload| + 1 + |rule|
  {
    workload + "-" + rule
  }

  /** Recovers the rule name from a child name built for `workload`. */
  function RuleNameOf(workload: string, ingressName: string): string
  {
    if |workload| < |ingressName| then ingressName[|workload| + 1..] else ""
  }

  /** The rule name is recovered from the child name, so distinct rules get distinct children. */
  lemma RuleNameRoundTrip(workload: string, rule: string)
    ensures RuleNameOf(workload, IngressName(workload, rule)) == rule
  {
    assert IngressName(workload, rule)[|workload| + 1..] == rule;
  }

  /** Two rules of one workload share a child name exactly when they share a rule name. */
  lemma IngressNameInjective(workload: string, a: string, b: string)
    ensures IngressName(workload, a) == IngressName(workload, b) <==> a == b
  {
    if IngressName(workload, a) == IngressName(workload, b) {
      RuleNameRoundTrip(workload, a);
      RuleNameRoundTrip(workload, b);
    }
  }

  /** Every child name contains its workload's name, the test the ingress cleanup uses. */
  lemma IngressNameContainsWorkload(workload: string, rule: string)
    ensures Contains(IngressName(workload, rule), workload)
  {
    ContainsPrefix(workload, "-" + rule);
    assert workload + "-" + rule == workload + ("-" + rule);
  }

  /** The backend of every path of a rule: the rule's own name and container port. */
  function BackendFor(rule: IngressRule): Backend
  {
    Backend(rule.name, rule.containerPort)
  }

  /** One path entry per declared path, in order, appended as the source's loop does. */
  function DeclaredPaths(paths: seq<string>, b: Backend): (r: seq<HttpPath>)
    ensures |r| == |paths|
    ensures forall i :: 0 <= i < |r| ==> r[i] == HttpPath(paths[i], ImplementationSpecific, b)
  {
    if |paths| == 0 then []
    else DeclaredPaths(paths[..|paths| - 1], b) + [HttpPath(paths[|paths| - 1], ImplementationSpecific, b)]
  }

  /** The path list of a rule: its declared paths, or one catch-all entry when it declares none. */
  function PathsFor(rule: IngressRule): (r: seq<HttpPath>)
    ensures |rule.paths| == 0 ==> r == [HttpPath("", ImplementationSpecific, BackendFor(rule))]
    ensures |rule.paths| > 0 ==> |r| == |rule.paths|
    ensures forall i :: 0 <= i < |rule.paths| ==>
      r[i] == HttpPath(rule.paths[i], ImplementationSpecific, BackendFor(rule))
  {
    var declared := DeclaredPaths(rule.paths, BackendFor(rule));
    if |declared| == 0 then [HttpPath("", ImplementationSpecific, BackendFor(rule))] else declared
  }

  /** One rule stanza per host, in host order, every one carrying `paths`. */
  function HostRules(hosts: seq<string>, paths: seq<HttpPath>): (r: seq<HostRule>)
    ensures |r| == |hosts|
    ensures forall i :: 0 <= i < |r| ==> r[i] == HostRule(hosts[i], paths)
  {
    if |hosts| == 0 then []
    else HostRules(hosts[..|hosts| - 1], paths) + [HostRule(hosts[|hosts| - 1], paths)]
  }

  /** The stanzas of a rule: one hostless stanza, or one per host. */
  function RulesFor(rule: IngressRule): (r: seq<HostRule>)
    ensures |rule.hosts| == 0 ==> r == [HostRule("", PathsFor(rule))]
    ensures |rule.hosts| > 0 ==> |r| == |rule.hosts|
    ensures forall i :: 0 <= i < |rule.hosts| ==> r[i] == HostRule(rule.hosts[i], PathsFor(rule))
  {
    var paths := PathsFor(rule);
    if |rule.hosts| == 0 then [HostRule("", paths)] else HostRules(rule.hosts, paths)
  }

  /** The bare object before its rules are filled in. */
  function NewIngress(ms: Microservice, name: string, annotations: Option<StringMap>): Ingress
  {
    Ingress(ObjectMeta(name, ms.namespace, ms.spec.labels, annotations), [])
  }

  /** Appends the stanzas of `rule` to `ing`. */
  function ConfigureIngressRules(rule: IngressRule, ing: Ingress): Ingress
  {
    ing.(rules := ing.rules + RulesFor(rule))
  }

  /** The desired child of one declared rule. */
  function IngressFor(ms: Microservice, rule: IngressRule): (r: Ingress)
    ensures r.meta.name == IngressName(ms.name, rule.name)
    ensures r.meta.namespace == ms.namespace
    ensures r.meta.labels == ms.spec.labels && r.meta.annotations == rule.annotations
    ensures r.rules == RulesFor(rule)
  {
    ConfigureIngressRules(rule, NewIngress(ms, IngressName(ms.name, rule.name), rule.annotations))
  }

  /** The desired children over a list of rules, in order. */
  function IngressesFor(ms: Microservice, rules: seq<IngressRule>): (r: seq<Ingress>)
    ensures |r| == |rules|
    ensures forall i :: 0 <= i < |rules| ==> r[i] == IngressFor(ms, rules[i])
  {
    if |rules| == 0 then []
    else IngressesFor(ms, rules[..|rules| - 1]) + [IngressFor(ms, rules[|rules| - 1])]
  }

  /** All desired Ingress objects of a workload: exactly one per declared rule, in declaration order. */
  function GenerateIngresses(ms: Microservice): (r: seq<Ingress>)
    ensures |r| == |ms.spec.ingress|
    ensures forall i :: 0 <= i < |r| ==>
      && r[i].meta == ObjectMeta(IngressName(ms.name, ms.spec.ingress[i].name), ms.namespace,
                                 ms.spec.labels, ms.spec.ingress[i].annotations)
      && r[i].rules == RulesFor(ms.spec.ingress[i])
  {
    IngressesFor(ms, ms.spec.ingress)
  }

  /** The number of path entries across the stanzas of a rule. */
  function PathCount(stanzas: seq<HostRule>): nat
  {
    if |stanzas| == 0 then 0 else PathCount(stanzas[..|stanzas| - 1]) + |stanzas[|stanzas| - 1].paths|
  }

  function AtLeastOne(n: nat): nat
  {
    if n == 0 then 1 else n
  }

  lemma {:induction false} PathCountUniform(stanzas: seq<HostRule>, k: nat)
    requires forall i :: 0 <= i < |stanzas| ==> |stanzas[i].paths| == k
    ensures PathCount(stanzas) == |stanzas| * k
  {
    if |stanzas| > 0 {
      PathCountUniform(stanzas[..|stanzas| - 1], k);
    }
  }

  /**
   * The fan-out is a product: a rule with h hosts and p paths yields
   * max(1, h) * max(1, p) path entries.
   */
  lemma FanOutCount(rule: IngressRule)
    ensures PathCount(RulesFor(rule)) == AtLeastOne(|rule.hosts|) * AtLeastOne(|rule.paths|)
  {
    var stanzas := RulesFor(rule);
    PathCountUniform(stanzas, |PathsFor(rule)|);
  }

  /** Every path entry of every generated object routes to its own rule's name and port. */
  lemma EveryPathRoutesToItsRule(ms: Microservice, i: int, j: int, k: int)
    requires 0 <= i < |ms.spec.ingress|
    requires 0 <= j < |GenerateIngresses(ms)[i].rules|
    requires 0 <= k < |GenerateIngresses(ms)[i].rules[j].paths|
    ensures GenerateIngresses(ms)[i].rules[j].paths[k].backend
         == Backend(ms.spec.ingress[i].name, ms.spec.ingress[i].containerPort)
    ensures GenerateIngresses(ms)[i].rules[j].paths[k].pathType == ImplementationSpecific
  {
  }

  /**
   * The catch-all entry (empty path) appears exactly when the rule declares no paths,
   * provided no declared path is itself empty.
   */
  lemma CatchAllExactlyWhenNoPaths(rule: IngressRule)
    requires forall i :: 0 <= i < |rule.paths| ==> rule.paths[i] != ""
    ensures (exists k :: 0 <= k < |PathsFor(rule)| && PathsFor(rule)[k].path == "") <==> |rule.paths| == 0
  {
    if |rule.paths| == 0 {
      assert PathsFor(rule)[0].path == "";
    }
  }
}
