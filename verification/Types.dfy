/** The API objects. Nil and empty Go maps are not told apart here (see README.md). */
module Types {
  import opened Base
  import Status

  datatype OwnerReference = OwnerReference(
    apiVersion: string, kind: string, name: string, uid: string, controller: bool)

  datatype ObjectMeta = ObjectMeta(
    name: string,
    namespace: string,
    uid: string,
    generation: int,
    labels: map<string, string>,
    annotations: map<string, string>,
    ownerReferences: seq<OwnerReference>)

  datatype Secret = Secret(
    meta: ObjectMeta,
    data: map<string, Bytes>,
    stringData: map<string, Bytes>,
    secretType: string,
    immutable: Option<bool>)

  datatype Template = Template(
    meta: ObjectMeta,
    secretType: string,
    immutable: Option<bool>,
    data: map<string, string>)

  /** `data` is the deprecated single-blob form, `encryptedData` the per-item form. */
  datatype Spec = Spec(template: Template, data: Option<Bytes>, encryptedData: map<string, string>)

  datatype SealedSecret = SealedSecret(
    apiVersion: string, kind: string, meta: ObjectMeta, spec: Spec, status: Status.Snapshot)

  /** As before the first reconcile. */
  const NO_STATUS := Status.Snapshot(0, [])

  const CLUSTER_WIDE := "sealedsecrets.bitnami.com/cluster-wide"
  const NAMESPACE_WIDE := "sealedsecrets.bitnami.com/namespace-wide"
  const MANAGED := "sealedsecrets.bitnami.com/managed"
  const PATCH := "sealedsecrets.bitnami.com/patch"
  const SKIP_SET_OWNER_REFERENCES := "sealedsecrets.bitnami.com/skip-set-owner-references"
  const LAST_APPLIED_KUBECTL := "kubectl.kubernetes.io/last-applied-configuration"
  const LAST_APPLIED_KUBECFG := "kubecfg.ksonnet.io/last-applied-configuration"

  /** `m[k] == "true"` as Go reads it. */
  predicate IsTrue(annotations: map<string, string>, k: string) {
    GetOr(annotations, k, "") == "true"
  }
}
