/** The platform objects the generators describe and the reconcilers store. */
module Objects {
  import opened Common
  import opened Api

  /** Object metadata; owner references are not modelled. */
  datatype ObjectMeta = ObjectMeta(
    name: string,
    namespace: string,
    labels: StringMap,
    annotations: Option<StringMap>)

  datatype PathType = ImplementationSpecific | Prefix | Exact

  /** The service an ingress path routes to. */
  datatype Backend = Backend(service: string, port: int)

  /** One HTTP path entry; the empty `path` is the catch-all. */
  datatype HttpPath = HttpPath(path: string, pathType: PathType, backend: Backend)

  /** One ingress rule stanza; the empty `host` matches every host. */
  datatype HostRule = HostRule(host: string, paths: seq<HttpPath>)

  datatype Ingress = Ingress(meta: ObjectMeta, rules: seq<HostRule>)

  datatype Protocol = TCP | UDP | SCTP

  datatype ServiceType = ClusterIP | NodePort | LoadBalancer

  datatype ServicePort = ServicePort(name: string, port: int, targetPort: int, protocol: Protocol)

  /** `clusterIP` stands for the fields the cluster assigns and the generator leaves empty. */
  datatype ServiceSpec = ServiceSpec(
    selector: Option<StringMap>,
    ports: seq<ServicePort>,
    serviceType: ServiceType,
    clusterIP: string)

  datatype Service = Service(meta: ObjectMeta, spec: ServiceSpec)

  datatype EnvVar = EnvVar(name: string, value: string)

  datatype ContainerPort = ContainerPort(name: string, containerPort: int)

  /** Environment variables form a set: the source fills them in Go map iteration order. */
  datatype Container = Container(
    name: string,
    image: string,
    resources: Resources,
    env: set<EnvVar>,
    ports: seq<ContainerPort>)

  datatype PodTemplate = PodTemplate(
    labels: StringMap,
    tolerations: seq<Toleration>,
    nodeSelector: StringMap,
    containers: seq<Container>)

  /** A Deployment; the rolling-update strategy and history limit are not modelled. */
  datatype Deployment = Deployment(
    meta: ObjectMeta,
    replicas: int,
    selector: StringMap,
    template: PodTemplate)

  datatype ServiceAccount = ServiceAccount(meta: ObjectMeta)

  datatype SecretType = Opaque | ServiceAccountToken

  datatype Secret = Secret(meta: ObjectMeta, secretType: SecretType)

  datatype Hpa = Hpa(meta: ObjectMeta, spec: HpaSpec)
}
