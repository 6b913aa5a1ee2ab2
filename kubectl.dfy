/** The `kubectl` collaborator the verifier delegates to. Its implementation is not part of this
    model: every query is an uninterpreted oracle over a fixed snapshot of the cluster, and every
    call the verifier makes is recorded in a trace. */
module Kubectl {
  import opened Wrappers

  /** A query's answer: Go's `(value, err)` pair, `failure` being the error's text when non-nil. */
  datatype Reply<T> = Reply(value: T, failure: Option<string>)

  /** The cluster as the verifier sees it through the runner. */
  datatype Kube = Kube(
    /** `kubectl.IsPod(kind)`: a classification of the kind string, not a cluster query. */
    isPod: string -> bool,
    /** `kubectl.IsResourceDeployed(runner, kind, name, namespace, labels)` */
    isResourceDeployed: (string, string, string, string) -> Reply<bool>,
    /** `kubectl.ArePodsRunning(runner, namespace, labels)` */
    arePodsRunning: (string, string) -> Reply<bool>,
    /** `kubectl.GetPodNodes(runner, namespace, labels)` */
    getPodNodes: (string, string) -> Reply<seq<string>>,
    /** `kubectl.GetRunningPods(runner, namespace, labels)` */
    getRunningPods: (string, string) -> Reply<seq<string>>,
    /** `kubectl.GetOldestRunningPod(runner, namespace, labels)` */
    getOldestRunningPod: (string, string) -> Reply<string>,
    /** `kubectl.DeletePod(runner, name, namespace)`: the error, if any. */
    deletePod: (string, string) -> Option<string>)

  /** One call made through the runner, with its arguments. */
  datatype Call =
    | IsResourceDeployed(kind: string, name: string, namespace: string, labels: string)
    | ArePodsRunning(namespace: string, labels: string)
    | GetPodNodes(namespace: string, labels: string)
    | GetRunningPods(namespace: string, labels: string)
    | GetOldestRunningPod(namespace: string, labels: string)
    | DeletePod(name: string, namespace: string)
}
