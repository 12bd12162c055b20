/**
 * How the generated children of one Microservice refer to each other: the service's
 * ports, the container's ports and the ingress backends are all read off the same rule
 * list, position by position.
 */
module GeneratorConsistency {
  import opened Api
  import opened Objects
  import IngressGen
  import ServiceGen
  import DeploymentGen

  /** Service port i forwards to container port i, and both carry rule i's name. */
  lemma ServiceTargetsContainerPorts(ms: Microservice)
    ensures |ServiceGen.GenerateService(ms).spec.ports| == |DeploymentGen.GenerateDeployment(ms).template.containers[0].ports|
    ensures forall i :: 0 <= i < |ms.spec.ingress| ==>
      && ServiceGen.GenerateService(ms).spec.ports[i].targetPort
           == DeploymentGen.GenerateDeployment(ms).template.containers[0].ports[i].containerPort
      && ServiceGen.GenerateService(ms).spec.ports[i].name
           == DeploymentGen.GenerateDeployment(ms).template.containers[0].ports[i].name
  {
  }

  /**
   * Every path of ingress i routes to rule i's service port: the backend carries that
   * port's name and number.
   */
  lemma BackendsNameServicePorts(ms: Microservice, i: int, j: int, k: int)
    requires 0 <= i < |ms.spec.ingress|
    requires 0 <= j < |IngressGen.GenerateIngresses(ms)[i].rules|
    requires 0 <= k < |IngressGen.GenerateIngresses(ms)[i].rules[j].paths|
    ensures var b := IngressGen.GenerateIngresses(ms)[i].rules[j].paths[k].backend;
      && b.service == ServiceGen.GenerateService(ms).spec.ports[i].name
      && b.port == ServiceGen.GenerateService(ms).spec.ports[i].port
  {
    IngressGen.EveryPathRoutesToItsRule(ms, i, j, k);
  }

  /**
   * The backend names a service after the rule, while the generated service is named
   * after the workload: the two coincide exactly when the rule bears the workload's name.
   */
  lemma BackendIsGeneratedServiceOnlyWhenNamesMatch(ms: Microservice, i: int, j: int, k: int)
    requires 0 <= i < |ms.spec.ingress|
    requires 0 <= j < |IngressGen.GenerateIngresses(ms)[i].rules|
    requires 0 <= k < |IngressGen.GenerateIngresses(ms)[i].rules[j].paths|
    ensures IngressGen.GenerateIngresses(ms)[i].rules[j].paths[k].backend.service == ServiceGen.GenerateService(ms).meta.name
        <==> ms.spec.ingress[i].name == ms.name
  {
    IngressGen.EveryPathRoutesToItsRule(ms, i, j, k);
  }
}
