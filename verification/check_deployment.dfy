/** The deployment step of a Microservice reconcile pass: the Deployment is always wanted. */
module DeploymentCheck {
  import opened Api
  import opened Objects
  import opened Cluster
  import DeploymentGen

  function DesiredDeployment(ms: Microservice): Object
  {
    DeploymentObj(DeploymentGen.GenerateDeployment(ms))
  }

  /** Create if absent, read back, update; there is no delete branch. */
  function CheckDeployment(w: World, o: Oracle, ms: Microservice): (r: Step)
    ensures Ensured(w, o, DesiredDeployment(ms), r)
    ensures forall i :: |w.trace| <= i < |r.w.trace| ==> !r.w.trace[i].DeleteCall?
  {
    EnsureShape(w, o, DesiredDeployment(ms));
    var r := Ensure(w, o, DesiredDeployment(ms));
    assert forall i :: |w.trace| <= i < |r.w.trace| ==> r.w.trace[i] == r.w.trace[|w.trace|..][i - |w.trace|];
    r
  }

  /** A failing create is neither followed by a get nor by an update. */
  lemma CreateFailureStops(w: World, o: Oracle, ms: Microservice)
    requires |w.trace| in o.faults
    ensures CheckDeployment(w, o, ms).w.trace == w.trace + [CreateCall(Key(DeploymentKind, ms.name))]
    ensures CheckDeployment(w, o, ms).w.store == w.store
  {
    EnsuredCreateFailureStops(w, o, DesiredDeployment(ms), CheckDeployment(w, o, ms));
  }

  /** A failing get is not followed by an update. */
  lemma GetFailureStops(w: World, o: Oracle, ms: Microservice)
    requires |w.trace| !in o.faults && |w.trace| + 1 in o.faults
    ensures CheckDeployment(w, o, ms).w.trace
         == w.trace + [CreateCall(Key(DeploymentKind, ms.name)), GetCall(Key(DeploymentKind, ms.name))]
  {
    EnsuredGetFailureStops(w, o, DesiredDeployment(ms), CheckDeployment(w, o, ms));
  }
}
