/** The optional desired autoscaler of a Microservice. */
module AutoscalingGen {
  import opened Common
  import opened Api
  import opened Objects

  /** No declared policy, no autoscaler; otherwise one named after the workload, spec verbatim. */
  function GenerateAutoscaling(ms: Microservice): (r: Option<Hpa>)
    ensures r.None? <==> ms.spec.autoscaling.None?
    ensures r.Some? ==> r.value.spec == ms.spec.autoscaling.value
    ensures r.Some? ==> r.value.meta == ObjectMeta(ms.name, ms.namespace, ms.spec.labels, ms.annotations)
  {
    if ms.spec.autoscaling.None? then None
    else Some(Hpa(ObjectMeta(ms.name, ms.namespace, ms.spec.labels, ms.annotations), ms.spec.autoscaling.value))
  }

  /** The generated autoscaler carries the override marker exactly when the workload does. */
  lemma GeneratedCarriesMarker(ms: Microservice)
    requires ms.spec.autoscaling.Some?
    ensures Lookup(GenerateAutoscaling(ms).value.meta.annotations, OverrideAnnotation)
         == Lookup(ms.annotations, OverrideAnnotation)
  {
  }
}
