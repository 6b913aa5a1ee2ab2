/** Worked scenarios: a "db" installation of pod components on a small cluster. */
module Scenarios {
  import opened Wrappers
  import opened GoStrings
  import opened Kubectl
  import opened Install
  import opened Matching
  import opened DeployRun
  import opened UniqueNode
  import opened Actions

  /** A pod component of alias "db" in namespace "default", selected by `labels`. */
  function Replica(name: string, labels: string): Component {
    Component(name, "default", "pods", "v1", labels, "db")
  }

  /** A cluster where the pods selected by `labels0` run on `node0` and all others on `node1`,
      and `oldest` is the oldest running pod ("" when none runs). */
  function Cluster(labels0: string, node0: string, node1: string, oldest: string): Kube {
    Kube(
      kind => kind == "pods",
      (kind, name, namespace, labels) => Reply(true, None),
      (namespace, labels) => Reply(true, None),
      (namespace, labels) => Reply(if labels == labels0 then [node0] else [node1], None),
      (namespace, labels) => Reply(if oldest == "" then [] else [oldest], None),
      (namespace, labels) => Reply(oldest, None),
      (name, namespace) => None)
  }

  /** Gathering the nodes of two labelled replicas queries each once, in order. */
  lemma {:induction false} GatherScenario(labels0: string, labels1: string, node0: string, node1: string)
    requires !IsBlank(labels0) && !IsBlank(labels1) && labels0 != labels1
    ensures Gather(Cluster(labels0, node0, node1, ""), NothingGathered,
                   [Replica("db-0", labels0), Replica("db-1", labels1)]) ==
            Gathered([node0, node1], None, [GetPodNodes("default", labels0), GetPodNodes("default", labels1)])
  {
    var k := Cluster(labels0, node0, node1, "");
    var r0, r1 := Replica("db-0", labels0), Replica("db-1", labels1);
    assert [r0, r1][1..] == [r1];
    var g1 := Gathered([node0], None, [GetPodNodes("default", labels0)]);
    assert k.isPod(r0.kind) && k.isPod(r1.kind);
    assert k.getPodNodes("default", labels0) == Reply([node0], None);
    assert k.getPodNodes("default", labels1) == Reply([node1], None);
    assert NothingGathered.nodes + [node0] == [node0] && NothingGathered.calls + [GetPodNodes("default", labels0)] == g1.calls;
    assert Gather(k, NothingGathered, [r0, r1]) == Gather(k, g1, [r1]);
    assert Gather(k, g1, [r1]) == Gather(k, Gathered([node0, node1], None, g1.calls + [GetPodNodes("default", labels1)]), []);
  }

  /** Two replicas on different nodes satisfy "unique-node"; on the same node they do not. */
  lemma {:induction false} UniqueNodeScenario(labels0: string, labels1: string)
    requires !IsBlank(labels0) && !IsBlank(labels1) && labels0 != labels1
    ensures UniqueNodeOutcome(Cluster(labels0, "node-a", "node-b", ""),
                              [Replica("db-0", labels0), Replica("db-1", labels1)], "db") ==
            Outcome(true, None, [GetPodNodes("default", labels0), GetPodNodes("default", labels1)])
    ensures UniqueNodeOutcome(Cluster(labels0, "node-a", "node-a", ""),
                              [Replica("db-0", labels0), Replica("db-1", labels1)], "db") ==
            Outcome(false, None, [GetPodNodes("default", labels0), GetPodNodes("default", labels1)])
  {
    var cs := [Replica("db-0", labels0), Replica("db-1", labels1)];
    assert Seqs.Filter(cs, HasAlias("db")) == cs by {
      assert cs[1..] == [cs[1]];
    }
    GatherScenario(labels0, labels1, "node-a", "node-b");
    GatherScenario(labels0, labels1, "node-a", "node-a");
    assert "node-a"[5] != "node-b"[5];
    assert ["node-a", "node-a"][0] == ["node-a", "node-a"][1];
  }

  /** With one labelled "db" component, deleting the oldest pod fails when none runs, without a
      delete call, and deletes it when one does. */
  lemma {:induction false} DeleteOldestScenario(labels: string)
    requires !IsBlank(labels)
    ensures DeleteOldestRunningPod(Cluster(labels, "node-a", "node-b", ""), [Replica("db-0", labels)], "db") ==
            Outcome(false, Some(RunningPodNotFound), [GetOldestRunningPod("default", labels)])
    ensures DeleteOldestRunningPod(Cluster(labels, "node-a", "node-b", "db-0-x1"), [Replica("db-0", labels)], "db") ==
            Outcome(true, None, [GetOldestRunningPod("default", labels), DeletePod("db-0-x1", "default")])
  {
    assert Seqs.Filter([Replica("db-0", labels)], AliasPod(kind => kind == "pods", "db")) == [Replica("db-0", labels)];
  }

  /** Two "db" pod components make the alias ambiguous: the action fails before any cluster call. */
  lemma {:induction false} AmbiguousAliasScenario(labels0: string, labels1: string)
    ensures DeleteAnyRunningPod(Cluster(labels0, "node-a", "node-b", "db-0-x1"),
                                [Replica("db-0", labels0), Replica("db-1", labels1)], "db") ==
            Outcome(false, Some(MultipleComponents), [])
  {
    var cs := [Replica("db-0", labels0), Replica("db-1", labels1)];
    assert Seqs.Filter(cs, AliasPod(kind => kind == "pods", "db")) == cs by {
      assert cs[1..] == [cs[1]];
    }
  }

  /** A component of blank kind that is not a pod is "running", yet the error is returned too,
      and the loop stops there. */
  lemma {:induction false} BlankKindScenario(labels: string)
    ensures Sweep(Start, RunSteps(Cluster(labels, "node-a", "node-b", ""), [Replica("db-0", labels).(kind := " ")])) ==
            Outcome(true, Some(KindRequired), [])
  {
    BlankIffAllSpace(" ");
  }
}
