# litmus installation verifier, modelled in Dafny

This project models the decision logic of litmus's installation verifier (`pkg/verify/verify.go`).
An *installation* is a list of *components*. Each component is a Kubernetes resource described by
name, namespace, kind, API version, label selector and a user-chosen *alias*. The verifier:

- loads the installation descriptor, refusing an empty path;
- queries each component in turn for being deployed (`IsDeployed`) or running (`IsRunning`). It
  stops at the first error and otherwise reports the last component's answer;
- evaluates the condition "unique-node": the node lists the runner reports for the alias's pod
  components contain no repeated node;
- performs the actions "delete-any-pod" and "delete-oldest-pod" on the single pod component with
  an alias.

All cluster access goes through the `kubectl` package. That package is not part of this model.
Each of its queries is an uninterpreted oracle, a field of the `Kubectl.Kube` record. A query
answers `Reply(value, failure)`, which mirrors Go's `(value, err)` pair. Every verifier result
is an `Install.Outcome(yes, err, calls)`. Here `calls` is the ordered trace of runner calls the
operation made. The trace is what lets the contracts say "no cluster call is made", "the first
listed pod is deleted" and "later components are not consulted". `kubectl.IsPod` only classifies
a kind string, so it is an oracle but not a traced call.

Modules, following the parts of `verify.go`:

- `Wrappers`: Option and Result.
- `GoStrings`: Go's `strings.TrimSpace` and the blank-field test.
- `Seqs`: filtering and duplicate detection.
- `Kubectl`: the collaborator.
- `Install`: the descriptor types, error kinds and `load`.
- `Matching`: alias resolution.
- `DeployRun`: the deploy and run loops.
- `UniqueNode`: the unique-node condition.
- `Actions`: the pod deletions.
- `Verify`: the condition and action dispatch.
- `Scenarios`: worked examples.

The loops of the source are methods with loop invariants, each proved equal to a specification
function. The properties are lemmas about those functions.

Where the doc comments of `verify.go` and its code differ, the model follows the code:

- `IsDeployed` and `IsRunning` are documented as checking that *all* components are deployed or
  running (`verify.go:200`, `verify.go:217`), but they do not AND their results. The loop overwrites `yes` at every
  component and stops at the first error, so the result is the last checked component's answer.
  This is kept as written (`DeployRun.SweepLastWins`, `DeployRun.DeployedIsNotConjunction`).
- The unique-node check concatenates each component's node *list* and walks it with a seen-map
  (`verify.go:410-416`), so a node listed twice anywhere fails it; the model states this as
  "no two positions hold the same node" (`Seqs.NoDuplicates`). It does not compare
  per-component node sets. If the runner's `GetPodNodes` lists one node per pod (it is not
  part of this model), two pods of one component on the same node also fail the check.
- `isPodComponentRunning` sets "kind is required" without returning. For a non-pod kind the
  result is `true` together with that error, and `IsRunning` stops there
  (`Scenarios.BlankKindScenario`).

## Model

| member | source | states |
|---|---|---|
| `Install.Load` | pkg/verify/verify.go:163-175 | An empty path fails with "file not provided" and reads no file. A non-empty path is read, and the result succeeds exactly when reading and parsing succeed, giving the parsed installation. |
| `GoStrings.BlankIffAllSpace` | pkg/verify/verify.go:370 | `len(strings.TrimSpace(s)) == 0` holds exactly when every character of `s` is Go white space. |
| `Matching.MatchPodComponentCases` | pkg/verify/verify.go:328-350 | Alias resolution succeeds iff exactly one component has the alias and a pod kind, and then returns that component. "Not found" means no component matches. "Multiple components" means two distinct positions match. |
| `Matching.GetMatchingPodComponent` | pkg/verify/verify.go:328-350 | The filtering loop returns the resolved component with no error, or the resolution error together with Go's zero `Component{}`. |
| `DeployRun.IsComponentDeployed` | pkg/verify/verify.go:353-355 | Makes exactly one `IsResourceDeployed(kind, name, namespace, labels)` call and returns its answer, and the query's own error as the error. |
| `DeployRun.IsPodComponentRunning` | pkg/verify/verify.go:358-375 | A non-pod kind gives `yes = true` with no call, plus "kind is required" exactly when the kind is blank. A pod with blank labels gives `(false, labels required)` with no call. Otherwise it makes one `ArePodsRunning` call and returns its answer and its own error. |
| `DeployRun.SweepStopsAtFirstError` | pkg/verify/verify.go:207-212 | The loop stops at the first component whose check errs. It returns that check's `(yes, err)`, and only the calls of the components up to it are made. |
| `DeployRun.SweepLastWins` | pkg/verify/verify.go:207-214 | With no error, the result is the LAST component's `yes`, not the AND of all of them, and every component's calls are made in order. |
| `DeployRun.DeployedIsNotConjunction` | pkg/verify/verify.go:200-215 | An undeployed component followed by a deployed one is reported as deployed. |
| `DeployRun.RunningStopsAtUnlabelledPod` | pkg/verify/verify.go:224-231 | A pod component with blank labels, reached without an earlier error, ends `IsRunning` with `(false, labels required)` after the earlier components' calls. |
| `DeployRun.IsDeployed` | pkg/verify/verify.go:201-215 | A nil installation gives an error and no call. Otherwise the loop equals the fail-fast sweep over `isComponentDeployed`. An empty component list gives `(false, nil)`. |
| `DeployRun.IsRunning` | pkg/verify/verify.go:218-232 | A nil installation gives an error and no call. Otherwise the loop equals the fail-fast sweep over `isPodComponentRunning`. An empty component list gives `(false, nil)`. |
| `Seqs.NoDuplicatesIffMultiplicity` | pkg/verify/verify.go:409-418 | "No two positions hold the same node" agrees with "no node occurs more than once in the multiset of nodes". |
| `UniqueNode.FilterByAlias` | pkg/verify/verify.go:382-387 | The first loop keeps exactly the components with the alias, in order. |
| `UniqueNode.NoRepeatedNode` | pkg/verify/verify.go:409-418 | The seen-map loop answers `true` exactly when the node list has no repeated element. |
| `UniqueNode.IsEachComponentOnUniqueNode` | pkg/verify/verify.go:378-419 | The three loops together equal the condition's specification. A gathering error gives `(false, err)`. Otherwise the answer is `(no repeated node, nil)`, after one `GetPodNodes` call per alias-matching pod component. |
| `UniqueNode.GatherAllHarmless` | pkg/verify/verify.go:390-407 | When no component ends the gathering, every pod component is queried once, in order, and the gathered list is the concatenation of their node lists. |
| `UniqueNode.UniqueNodeWhenAllHarmless` | pkg/verify/verify.go:378-419 | When every alias-matching pod component has labels and a successful node query, the condition answers without error, and `true` exactly when no node occurs twice in the multiset of those components' nodes. |
| `UniqueNode.IrrelevantComponentIgnored` | pkg/verify/verify.go:383-395 | Removing a component with another alias, or of non-pod kind, does not change the outcome, its trace included. |
| `UniqueNode.LaterComponentsNotConsulted` | pkg/verify/verify.go:396-404 | An alias-matching pod component with blank labels or a failing node query makes the answer `false` with an error. The outcome is the same as for the components up to it, so later ones are not consulted. |
| `UniqueNode.FirstFailingPodDecides` | pkg/verify/verify.go:396-404 | The first such component decides the error: "labels required" for blank labels, otherwise the node query's own error. |
| `Actions.DeleteAnyReportsFailure` | pkg/verify/verify.go:259-290 | "delete-any-pod" answers `yes` exactly when it returns no error. |
| `Actions.DeleteOldestReportsFailure` | pkg/verify/verify.go:293-326 | "delete-oldest-pod" answers `yes` exactly when it returns no error. |
| `Actions.DeleteActionsWithoutTarget` | pkg/verify/verify.go:259-270 | Unless exactly one pod component has the alias and it has labels, both actions fail and make no cluster call, so nothing is deleted. The alias is resolved before the labels are checked. No match is "not found" and two matches are "multiple components", whatever the labels. Only a single match with blank labels is "labels required". |
| `Actions.DeleteAnyRunningPodAtTarget` | pkg/verify/verify.go:272-289 | On its target, "delete-any-pod" first lists the running pods. A failed listing returns the listing's error after that one call. An empty list gives "not found" and no delete call. Otherwise only `pods[0]` is deleted, the error is the delete's own, and `yes` holds iff the listing and that delete succeed. |
| `Actions.DeleteOldestRunningPodAtTarget` | pkg/verify/verify.go:307-325 | On its target, "delete-oldest-pod" first fetches the oldest running pod. A failed fetch returns the fetch's error after that one call. An empty name gives "not found" and no delete call. Otherwise that pod is deleted, the error is the delete's own, and `yes` holds iff the fetch and the delete succeed. |
| `Actions.IsDeleteAnyRunningPod` | pkg/verify/verify.go:259-290 | The method resolves the alias, checks the labels and the pod list, then deletes. It equals the action's specification. |
| `Actions.IsDeleteOldestRunningPod` | pkg/verify/verify.go:293-326 | The method resolves the alias, checks the labels and the pod name, then deletes. It equals the action's specification. |
| `Verify.IsCondition` | pkg/verify/verify.go:235-243 | "unique-node" gives the unique-node outcome. Any other name gives `(false, condition not supported)` and no cluster call. |
| `Verify.IsAction` | pkg/verify/verify.go:246-256 | "delete-any-pod" and "delete-oldest-pod" give their actions' outcomes. Any other name gives `(false, action not supported)` and no cluster call. |
| `Scenarios.UniqueNodeScenario` | pkg/verify/verify.go:409-418 | Two labelled "db" replicas on nodes A and B satisfy unique-node. Both on node A do not. |
| `Scenarios.DeleteOldestScenario` | pkg/verify/verify.go:313-324 | With no running pod, delete-oldest-pod fails with "not found" and makes no delete call. With one running pod, it deletes that pod and answers `true`. |
| `Scenarios.AmbiguousAliasScenario` | pkg/verify/verify.go:344-347 | Two pod components sharing an alias make "delete-any-pod" fail with "multiple components" before any cluster call. |
| `Scenarios.BlankKindScenario` | pkg/verify/verify.go:359-367 | A component whose kind is blank and not a pod makes `IsRunning` return `true` together with "kind is required". |

## Left out

- `unmarshal` and `ioutil.ReadFile`: YAML parsing and file I/O are foreign code. `Load` folds them into one oracle, `readFile`. The partly filled installation Go returns beside a parse error is not modelled, because the verifier's constructor discards it.
- The `kubectl` package (`IsPod`, `IsResourceDeployed`, `ArePodsRunning`, `GetPodNodes`, `GetRunningPods`, `GetOldestRunningPod`, `DeletePod`): it is not part of this model. Its functions are uninterpreted oracles over one fixed snapshot of the cluster, so asking the same query twice gives the same answer, and a pod deletion does not change later answers.
- `KubeConnectionVerify.IsConnected` (lines 437-443): it runs `kubectl get pods` through the runner and answers whether the runner returned no error, so it is a pass-through of process execution.
- The interface declarations and the constructors `NewKubeInstallVerify` and `NewKubeConnectionVerify`: they only do wiring. The verifier is the value `KubeInstallVerify(installation, kubectl)`.
- Error message text: errors are distinguishable kinds. The actions' "labels are missing" and the checks' "labels are required" are one kind, `LabelsRequired`. The nil-installation errors of `IsDeployed` and `IsRunning` are one kind, `InstallationNil`.
- A nil installation in `IsCondition`, `IsAction` and the functions they call: Go dereferences it and panics. The model makes these callers pass an installation (`requires v.installation.Some?`).
- `strings.TrimSpace` works on UTF-8 bytes. The model works on characters and uses Go's `unicode.IsSpace` set, so invalid UTF-8 is not modelled.
