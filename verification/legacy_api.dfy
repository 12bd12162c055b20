/**
 * The legacy `Deployment` custom resource, which the code base is migrating away from.
 * Its ingress rule carries a single host rather than a host list.
 */
module LegacyApi {
  import opened Common
  import opened Api

  /** The kind of traffic a legacy rule declares; recorded but not used by any generator. */
  datatype IngressType = HTTPS | GRPC | HTTP | TCP | WEBSOCKET

  /** One legacy ingress rule: a single `host` (empty when not given). */
  datatype LegacyIngressRule = LegacyIngressRule(
    host: string,
    internetFacing: bool,
    annotations: Option<StringMap>,
    ingressType: IngressType,
    paths: seq<string>,
    name: string,
    containerPort: int)

  /** A legacy Deployment object; it shares the status shape of the Microservice. */
  datatype LegacyDeployment = LegacyDeployment(
    name: string,
    namespace: string,
    ingress: seq<LegacyIngressRule>,
    status: Status)
}
