/** The desired Service of a Microservice: one NodePort service exposing every rule's port. */
module ServiceGen {
  import opened Common
  import opened Api
  import opened Objects

  /** The port a rule contributes: named after the rule, port and target both its container port. */
  function PortFor(rule: IngressRule): ServicePort
  {
    ServicePort(rule.name, rule.containerPort, rule.containerPort, TCP)
  }

  /** One port per rule, in rule order, with no deduplication of names or numbers. */
  function ServicePorts(rules: seq<IngressRule>): (r: seq<ServicePort>)
    ensures |r| == |rules|
    ensures forall i :: 0 <= i < |r| ==> r[i] == PortFor(rules[i])
  {
    if |rules| == 0 then []
    else ServicePorts(rules[..|rules| - 1]) + [PortFor(rules[|rules| - 1])]
  }

  /** The bare object: the workload's identity, labels and its own annotations. */
  function NewService(ms: Microservice): Service
  {
    Service(ObjectMeta(ms.name, ms.namespace, ms.spec.labels, ms.annotations),
            ServiceSpec(None, [], ClusterIP, ""))
  }

  /** Fills in selector, ports and type; the cluster-assigned fields stay empty. */
  function ConfigureService(ms: Microservice, svc: Service): Service
  {
    svc.(spec := svc.spec.(selector := Some(ms.spec.labels),
                           ports := ServicePorts(ms.spec.ingress),
                           serviceType := NodePort))
  }

  function GenerateService(ms: Microservice): (r: Service)
    ensures r.meta == ObjectMeta(ms.name, ms.namespace, ms.spec.labels, ms.annotations)
    ensures r.spec.selector == Some(ms.spec.labels) && r.spec.serviceType == NodePort
    ensures |r.spec.ports| == |ms.spec.ingress|
    ensures forall i :: 0 <= i < |r.spec.ports| ==>
      r.spec.ports[i] == ServicePort(ms.spec.ingress[i].name, ms.spec.ingress[i].containerPort,
                                     ms.spec.ingress[i].containerPort, TCP)
    ensures r.spec.clusterIP == ""
  {
    ConfigureService(ms, NewService(ms))
  }

  /** What a port tells about the rule it came from: its name and container port. */
  function PortSignature(p: ServicePort): (string, int)
  {
    (p.name, p.port)
  }

  function RuleSignature(rule: IngressRule): (string, int)
  {
    (rule.name, rule.containerPort)
  }

  /** Reads the (name, port) of every rule back from a list of service ports. */
  function Signatures(ports: seq<ServicePort>): (r: seq<(string, int)>)
    ensures |r| == |ports|
    ensures forall i :: 0 <= i < |ports| ==> r[i] == PortSignature(ports[i])
  {
    if |ports| == 0 then [] else Signatures(ports[..|ports| - 1]) + [PortSignature(ports[|ports| - 1])]
  }

  /**
   * The rule list can be read back from the service: the (name, port) pairs of the
   * generated ports are those of the rules, in order, duplicates included.
   */
  lemma ServiceRecordsRules(ms: Microservice)
    ensures Signatures(GenerateService(ms).spec.ports)
         == seq(|ms.spec.ingress|, i requires 0 <= i < |ms.spec.ingress| => RuleSignature(ms.spec.ingress[i]))
  {
  }
}
