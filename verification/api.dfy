/**
 * The custom resources the operator reconciles: the Microservice workload and the
 * ScheduledAutoscaler schedule definition, with their status records.
 */
module Api {
  import opened Common

  /** One declared ingress rule of a Microservice. */
  datatype IngressRule = IngressRule(
    hosts: seq<string>,
    annotations: Option<StringMap>,
    paths: seq<string>,
    name: string,
    containerPort: int)

  /** A pod toleration; copied verbatim, never inspected. */
  datatype Toleration = Toleration(key: string, operator: string, value: string, effect: string)

  /** Container resource requests and limits; copied verbatim, never inspected. */
  datatype Resources = Resources(limits: StringMap, requests: StringMap)

  /**
   * A horizontal pod autoscaler spec. Only the replica bounds are ever changed by the
   * operator; the scale target and the metrics are carried along untouched.
   */
  datatype HpaSpec = HpaSpec(
    scaleTarget: string,
    minReplicas: Option<int>,
    maxReplicas: int,
    metrics: seq<string>)

  /** The declared part of a Microservice (probes are declared but never used, so they are absent). */
  datatype MicroserviceSpec = MicroserviceSpec(
    ingress: seq<IngressRule>,
    podAnnotations: StringMap,
    env: StringMap,
    image: string,
    nodeSelector: StringMap,
    tolerations: seq<Toleration>,
    replicas: int,
    resources: Resources,
    labels: StringMap,
    ingressEnabled: bool,
    autoscaling: Option<HpaSpec>,
    disableServiceAccountCreation: bool)

  /** The running state; `Unset` is Go's empty string. */
  datatype RunningState = Unset | Reconciling | Ready | Stable

  /** Observed state of a workload: its running state and the last recorded error text. */
  datatype Status = Status(state: RunningState, error: string)

  /** A Microservice object: metadata, desired state and observed state. */
  datatype Microservice = Microservice(
    name: string,
    namespace: string,
    annotations: Option<StringMap>,
    spec: MicroserviceSpec,
    status: Status)

  /** The annotation by which a schedule firing tells the reconciler to leave the autoscaler alone. */
  const OverrideAnnotation: string := "scheduledautoscaler.override"

  /** One calendar entry of a schedule definition. */
  datatype Schedule = Schedule(name: string, cron: string, minReplicas: int, maxReplicas: int)

  datatype ScheduledAutoscalerSpec = ScheduledAutoscalerSpec(microserviceName: string, schedules: seq<Schedule>)

  /** Observed state of a schedule definition, including the scheduler ids it registered. */
  datatype ScheduledAutoscalerStatus = ScheduledAutoscalerStatus(
    state: RunningState,
    error: string,
    scheduledCrons: seq<int>)

  /** A ScheduledAutoscaler object; `deleting` is a non-zero deletion timestamp. */
  datatype ScheduledAutoscaler = ScheduledAutoscaler(
    name: string,
    namespace: string,
    deleting: bool,
    finalizers: seq<string>,
    spec: ScheduledAutoscalerSpec,
    status: ScheduledAutoscalerStatus)

  /** The finalizer the schedule supervisor places on every definition it manages. */
  const Finalizer: string := "microservice.example.com/finalizer"
}
