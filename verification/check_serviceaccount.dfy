/**
 * The service-account steps of a Microservice reconcile pass: when creation is disabled,
 * delete the account named after the workload, and the token secret named `<workload>-sa`;
 * otherwise ensure the generated account and secret.
 */
module ServiceAccountCheck {
  import opened Api
  import opened Objects
  import opened Cluster
  import ServiceAccountGen

  /** The key of the workload's service account. */
  function AccountKey(ms: Microservice): Key
  {
    Key(ServiceAccountKind, ms.name)
  }

  /** The key of the workload's token secret. */
  function SecretKey(ms: Microservice): Key
  {
    Key(SecretKind, ServiceAccountGen.SecretName(ms.name))
  }

  function CheckServiceAccount(w: World, o: Oracle, ms: Microservice): (r: Step)
    ensures ms.spec.disableServiceAccountCreation ==> Deleted(w, o, AccountKey(ms), r)
    ensures !ms.spec.disableServiceAccountCreation ==>
      Ensured(w, o, ServiceAccountObj(ServiceAccountGen.GenerateServiceAccount(ms)), r)
  {
    if ms.spec.disableServiceAccountCreation then Delete(w, o, AccountKey(ms))
    else
      var desired := ServiceAccountObj(ServiceAccountGen.GenerateServiceAccount(ms));
      EnsureShape(w, o, desired);
      Ensure(w, o, desired)
  }

  function CheckServiceAccountSecret(w: World, o: Oracle, ms: Microservice): (r: Step)
    ensures ms.spec.disableServiceAccountCreation ==> Deleted(w, o, SecretKey(ms), r)
    ensures !ms.spec.disableServiceAccountCreation ==>
      Ensured(w, o, SecretObj(ServiceAccountGen.GenerateServiceAccountSecret(ms)), r)
  {
    if ms.spec.disableServiceAccountCreation then Delete(w, o, SecretKey(ms))
    else
      var desired := SecretObj(ServiceAccountGen.GenerateServiceAccountSecret(ms));
      EnsureShape(w, o, desired);
      Ensure(w, o, desired)
  }

  /**
   * What the disabled branch deletes is what the enabled branch creates: the account and
   * the secret under the generators' own names.
   */
  lemma DeletedAreGenerated(ms: Microservice)
    ensures AccountKey(ms) == KeyOf(ServiceAccountObj(ServiceAccountGen.GenerateServiceAccount(ms)))
    ensures SecretKey(ms) == KeyOf(SecretObj(ServiceAccountGen.GenerateServiceAccountSecret(ms)))
  {
  }

  /**
   * Switching creation off after it was on removes both objects and nothing else, when no
   * call fails.
   */
  lemma DisableRemovesBoth(w: World, o: Oracle, ms: Microservice)
    requires ms.spec.disableServiceAccountCreation
    requires Quiet(o, |w.trace|, |w.trace| + 2)
    ensures var a := CheckServiceAccount(w, o, ms);
      var b := CheckServiceAccountSecret(a.w, o, ms);
      && a.err.None? && b.err.None?
      && b.w.store == w.store - {AccountKey(ms), SecretKey(ms)}
  {
    var a := CheckServiceAccount(w, o, ms);
    assert |w.trace| !in o.faults && |w.trace| + 1 !in o.faults;
    assert a.w.store == w.store - {AccountKey(ms)};
  }
}
