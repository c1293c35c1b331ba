/** Flux ownership labels and the annotations that switch protection off
    (internal/webhook/labels.go). */
module Labels {

  const KUSTOMIZE_LABEL_NAME := "kustomize.toolkit.fluxcd.io/name"
  const KUSTOMIZE_LABEL_NAMESPACE := "kustomize.toolkit.fluxcd.io/namespace"
  const HELM_LABEL_NAME := "helm.toolkit.fluxcd.io/name"
  const HELM_LABEL_NAMESPACE := "helm.toolkit.fluxcd.io/namespace"
  const BYPASS_ANNOTATION := "fluxcd.io/drift-prevention-bypass"
  const KUSTOMIZE_RECONCILE_ANNOTATION := "kustomize.toolkit.fluxcd.io/reconcile"
  const DISABLED := "disabled"

  type StringMap = map<string, string>

  datatype OwnerKind = Kustomization | HelmRelease

  /** FluxManagementInfo */
  datatype Ownership = Unmanaged | Managed(kind: OwnerKind, name: string, namespace: string)

  /** Reading a Go map: a missing key reads as the empty string. */
  function Get(m: StringMap, key: string): string {
    if key in m then m[key] else ""
  }

  /** Presence of a name label decides; Kustomization comes first. */
  function GetFluxManagementInfo(labels: StringMap): Ownership {
    if KUSTOMIZE_LABEL_NAME in labels then
      Managed(Kustomization, labels[KUSTOMIZE_LABEL_NAME], Get(labels, KUSTOMIZE_LABEL_NAMESPACE))
    else if HELM_LABEL_NAME in labels then
      Managed(HelmRelease, labels[HELM_LABEL_NAME], Get(labels, HELM_LABEL_NAMESPACE))
    else Unmanaged
  }

  predicate HasBypassAnnotation(annotations: StringMap) {
    Get(annotations, BYPASS_ANNOTATION) == DISABLED
  }

  predicate IsReconcileDisabled(annotations: StringMap) {
    Get(annotations, KUSTOMIZE_RECONCILE_ANNOTATION) == DISABLED
  }

  predicate ProtectionDisablingAnnotationAdded(before: StringMap, after: StringMap) {
    || (!HasBypassAnnotation(before) && HasBypassAnnotation(after))
    || (!IsReconcileDisabled(before) && IsReconcileDisabled(after))
  }
}
