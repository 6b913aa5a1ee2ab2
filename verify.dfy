/** `KubeInstallVerify`'s condition and action entry points: dispatch on the names the verifier
    supports, refusing every other name without touching the cluster. */
module Verify {
  import opened Wrappers
  import opened Install
  import opened UniqueNode
  import opened Actions

  /** `UniqueNodeCond` */
  const UniqueNodeCond: string := "unique-node"
  /** `DeleteAnyPodAction` */
  const DeleteAnyPodAction: string := "delete-any-pod"
  /** `DeleteOldestPodAction` */
  const DeleteOldestPodAction: string := "delete-oldest-pod"

  /** `IsCondition`. */
  method IsCondition(v: KubeInstallVerify, alias: string, condition: string) returns (o: Outcome)
    requires condition == UniqueNodeCond ==> v.installation.Some?
    ensures condition == UniqueNodeCond ==> o == UniqueNodeOutcome(v.kubectl, v.installation.value.components, alias)
    ensures condition != UniqueNodeCond ==> o == Outcome(false, Some(ConditionNotSupported(condition)), [])
  {
    if condition == UniqueNodeCond {
      o := IsEachComponentOnUniqueNode(v, alias);
    } else {
      o := Outcome(false, Some(ConditionNotSupported(condition)), []);
    }
  }

  /** `IsAction`. */
  method IsAction(v: KubeInstallVerify, alias: string, action: string) returns (o: Outcome)
    requires action == DeleteAnyPodAction || action == DeleteOldestPodAction ==> v.installation.Some?
    ensures action == DeleteAnyPodAction ==> o == DeleteAnyRunningPod(v.kubectl, v.installation.value.components, alias)
    ensures action == DeleteOldestPodAction ==> o == DeleteOldestRunningPod(v.kubectl, v.installation.value.components, alias)
    ensures action != DeleteAnyPodAction && action != DeleteOldestPodAction ==>
              o == Outcome(false, Some(ActionNotSupported(action)), [])
  {
    if action == DeleteAnyPodAction {
      o := IsDeleteAnyRunningPod(v, alias);
    } else if action == DeleteOldestPodAction {
      o := IsDeleteOldestRunningPod(v, alias);
    } else {
      o := Outcome(false, Some(ActionNotSupported(action)), []);
    }
  }
}
