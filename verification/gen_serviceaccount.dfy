/** The desired ServiceAccount of a Microservice and the token Secret bound to it. */
module ServiceAccountGen {
  import opened Common
  import opened Api
  import opened Objects

  /** The annotation that binds a token secret to its service account. */
  const AccountNameAnnotation: string := "kubernetes.io/service-account.name"

  function GenerateServiceAccount(ms: Microservice): (r: ServiceAccount)
    ensures r.meta == ObjectMeta(ms.name, ms.namespace, ms.spec.labels, ms.annotations)
  {
    ServiceAccount(ObjectMeta(ms.name, ms.namespace, ms.spec.labels, ms.annotations))
  }

  /** The secret's name, `<workload>-sa`. */
  function SecretName(workload: string): (r: string)
    ensures |r| == |workload| + 3
  {
    workload + "-sa"
  }

  /** The workload's annotations, copied, with the account-name binding forced to `account`. */
  function SecretAnnotations(annotations: Option<StringMap>, account: string): (r: StringMap)
    ensures AccountNameAnnotation in r && r[AccountNameAnnotation] == account
    ensures r.Keys == Entries(annotations).Keys + {AccountNameAnnotation}
    ensures forall k :: k in Entries(annotations) && k != AccountNameAnnotation ==> r[k] == Entries(annotations)[k]
  {
    var copied := map k | k in Entries(annotations) :: Entries(annotations)[k];
    copied[AccountNameAnnotation := account]
  }

  /** Applying the binding twice changes nothing: the secret's own annotations are a fixed point. */
  lemma SecretAnnotationsIdempotent(annotations: Option<StringMap>, account: string)
    ensures SecretAnnotations(Some(SecretAnnotations(annotations, account)), account)
         == SecretAnnotations(annotations, account)
  {
  }

  function GenerateServiceAccountSecret(ms: Microservice): (r: Secret)
    ensures r.secretType == ServiceAccountToken
    ensures r.meta.name == SecretName(ms.name) && r.meta.namespace == ms.namespace
    ensures r.meta.labels == ms.spec.labels
    ensures r.meta.annotations.Some?
    ensures Lookup(r.meta.annotations, AccountNameAnnotation) == ms.name
    ensures forall k :: k in Entries(ms.annotations) && k != AccountNameAnnotation ==>
      k in r.meta.annotations.value && r.meta.annotations.value[k] == Entries(ms.annotations)[k]
    ensures r.meta.annotations.value.Keys == Entries(ms.annotations).Keys + {AccountNameAnnotation}
  {
    Secret(ObjectMeta(SecretName(ms.name), ms.namespace, ms.spec.labels,
                      Some(SecretAnnotations(ms.annotations, ms.name))),
           ServiceAccountToken)
  }

  /** The secret's binding names the generated service account. */
  lemma SecretBindsGeneratedAccount(ms: Microservice)
    ensures Lookup(GenerateServiceAccountSecret(ms).meta.annotations, AccountNameAnnotation)
         == GenerateServiceAccount(ms).meta.name
  {
  }

  /** Secret and account never share a name, so both live side by side in one namespace. */
  lemma SecretNameDiffersFromAccount(workload: string)
    ensures SecretName(workload) != workload
  {
  }
}
