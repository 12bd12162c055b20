/** The desired Deployment of a Microservice: one container running the declared image. */
module DeploymentGen {
  import opened Common
  import opened Api
  import opened Objects

  /** The environment of the container: one variable per entry of the declared map. */
  function EnvVars(env: StringMap): (r: set<EnvVar>)
    ensures forall v :: v in r <==> v.name in env && env[v.name] == v.value
  {
    set k | k in env :: EnvVar(k, env[k])
  }

  /** Reads the declared map back from the container's variables. */
  function EnvMap(vars: set<EnvVar>): map<string, string>
    requires forall a, b :: a in vars && b in vars && a.name == b.name ==> a == b
  {
    map v | v in vars :: v.name := v.value
  }

  /** Variables and map entries correspond one to one: no name repeats, none is lost. */
  lemma EnvRoundTrip(env: StringMap)
    ensures forall a, b :: a in EnvVars(env) && b in EnvVars(env) && a.name == b.name ==> a == b
    ensures EnvMap(EnvVars(env)) == env
  {
    var vars := EnvVars(env);
    var m := EnvMap(vars);
    forall k | k in env ensures k in m && m[k] == env[k] {
      assert EnvVar(k, env[k]) in vars;
    }
  }

  /** As many variables as map entries. */
  lemma {:induction false} EnvVarCount(env: StringMap)
    ensures |EnvVars(env)| == |env|
    decreases |env|
  {
    if |env| > 0 {
      var k :| k in env;
      var rest := env - {k};
      EnvVarCount(rest);
      assert EnvVars(env) == EnvVars(rest) + {EnvVar(k, env[k])};
      assert EnvVar(k, env[k]) !in EnvVars(rest);
    } else {
      assert EnvVars(env) == {};
    }
  }

  /** One container port per rule, in rule order, name and number copied. */
  function ContainerPorts(rules: seq<IngressRule>): (r: seq<ContainerPort>)
    ensures |r| == |rules|
    ensures forall i :: 0 <= i < |r| ==> r[i] == ContainerPort(rules[i].name, rules[i].containerPort)
  {
    if |rules| == 0 then []
    else ContainerPorts(rules[..|rules| - 1]) + [ContainerPort(rules[|rules| - 1].name, rules[|rules| - 1].containerPort)]
  }

  /** The bare object: the workload's identity and labels. */
  function NewDeployment(ms: Microservice): Deployment
  {
    Deployment(ObjectMeta(ms.name, ms.namespace, ms.spec.labels, None), 0, map[], PodTemplate(map[], [], map[], []))
  }

  /** Replaces the spec: replicas, selector and the pod template. */
  function ConfigureDeployment(ms: Microservice, d: Deployment): Deployment
  {
    var container := Container(ms.name, ms.spec.image, ms.spec.resources,
                               EnvVars(ms.spec.env), ContainerPorts(ms.spec.ingress));
    d.(replicas := ms.spec.replicas,
       selector := ms.spec.labels,
       template := PodTemplate(ms.spec.labels, ms.spec.tolerations, ms.spec.nodeSelector, [container]))
  }

  function GenerateDeployment(ms: Microservice): (r: Deployment)
    ensures r.meta == ObjectMeta(ms.name, ms.namespace, ms.spec.labels, None)
    ensures r.replicas == ms.spec.replicas
    ensures r.template.tolerations == ms.spec.tolerations && r.template.nodeSelector == ms.spec.nodeSelector
    ensures |r.template.containers| == 1
    ensures r.template.containers[0].name == ms.name && r.template.containers[0].image == ms.spec.image
    ensures r.template.containers[0].resources == ms.spec.resources
    ensures forall v :: v in r.template.containers[0].env <==> v.name in ms.spec.env && ms.spec.env[v.name] == v.value
    ensures |r.template.containers[0].ports| == |ms.spec.ingress|
    ensures forall i :: 0 <= i < |ms.spec.ingress| ==>
      r.template.containers[0].ports[i] == ContainerPort(ms.spec.ingress[i].name, ms.spec.ingress[i].containerPort)
  {
    ConfigureDeployment(ms, NewDeployment(ms))
  }

  /**
   * The selector selects the pods the template creates, and the object carries the same
   * labels: selector, template labels and object labels are one label set.
   */
  lemma SelectorMatchesTemplate(ms: Microservice)
    ensures GenerateDeployment(ms).selector == GenerateDeployment(ms).template.labels
    ensures GenerateDeployment(ms).meta.labels == GenerateDeployment(ms).selector
    ensures GenerateDeployment(ms).selector == ms.spec.labels
  {
  }

  /** The container's environment determines the declared map and has as many variables. */
  lemma ContainerEnvIsDeclaredEnv(ms: Microservice)
    ensures EnvMap(GenerateDeployment(ms).template.containers[0].env) == ms.spec.env
    ensures |GenerateDeployment(ms).template.containers[0].env| == |ms.spec.env|
  {
    EnvRoundTrip(ms.spec.env);
    EnvVarCount(ms.spec.env);
  }
}
