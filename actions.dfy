/** The pod-deletion actions (`isDeleteAnyRunningPod`, `isDeleteOldestRunningPod`): resolve the
    alias, insist on labels, find a running pod, and only then delete it.

    Each action appears twice: as a function, which the lemmas reason about, and as a method
    proved equal to it. The method is the one that runs the `getMatchingPodComponent` loop
    (`Matching.GetMatchingPodComponent`), which as a method cannot be called from a function. */
module Actions {
  import opened Wrappers
  import opened GoStrings
  import opened Kubectl
  import opened Install
  import opened Matching

  /** What `isDeleteAnyRunningPod` answers for the components `cs`. */
  function DeleteAnyRunningPod(k: Kube, cs: seq<Component>, alias: string): Outcome {
    match MatchPodComponent(k.isPod, alias, cs)
    case Failure(e) => Outcome(false, Some(e), [])
    case Success(c) =>
      if IsBlank(c.labels) then Outcome(false, Some(LabelsRequired), [])
      else
        var pods := k.getRunningPods(c.namespace, c.labels);
        var calls := [GetRunningPods(c.namespace, c.labels)];
        if pods.failure.Some? then Outcome(false, Lift(pods.failure), calls)
        else if |pods.value| == 0 then Outcome(false, Some(RunningPodNotFound), calls)
        else
          var deleted := k.deletePod(pods.value[0], c.namespace);
          Outcome(deleted.None?, Lift(deleted), calls + [DeletePod(pods.value[0], c.namespace)])
  }

  /** What `isDeleteOldestRunningPod` answers for the components `cs`. */
  function DeleteOldestRunningPod(k: Kube, cs: seq<Component>, alias: string): Outcome {
    match MatchPodComponent(k.isPod, alias, cs)
    case Failure(e) => Outcome(false, Some(e), [])
    case Success(c) =>
      if IsBlank(c.labels) then Outcome(false, Some(LabelsRequired), [])
      else
        var pod := k.getOldestRunningPod(c.namespace, c.labels);
        var calls := [GetOldestRunningPod(c.namespace, c.labels)];
        if pod.failure.Some? then Outcome(false, Lift(pod.failure), calls)
        else if |pod.value| == 0 then Outcome(false, Some(RunningPodNotFound), calls)
        else
          var deleted := k.deletePod(pod.value, c.namespace);
          Outcome(deleted.None?, Lift(deleted), calls + [DeletePod(pod.value, c.namespace)])
  }

  /** The alias names exactly one pod component, at position `i`, and it has labels. */
  ghost predicate Target(k: Kube, cs: seq<Component>, alias: string, i: int) {
    OnlyMatchAt(k.isPod, alias, cs, i) && !IsBlank(cs[i].labels)
  }

  /** `delete-any-pod` answers `yes` exactly when it reports no error. */
  lemma {:induction false} DeleteAnyReportsFailure(k: Kube, cs: seq<Component>, alias: string)
    ensures DeleteAnyRunningPod(k, cs, alias).yes <==> DeleteAnyRunningPod(k, cs, alias).err.None?
  {
    match MatchPodComponent(k.isPod, alias, cs)
    case Failure(_) =>
    case Success(c) =>
      var pods := k.getRunningPods(c.namespace, c.labels);
      if !IsBlank(c.labels) && pods.failure.None? && pods.value != [] {
        var deleted := k.deletePod(pods.value[0], c.namespace);
        assert Lift(deleted).None? <==> deleted.None?;
      }
  }

  /** `delete-oldest-pod` answers `yes` exactly when it reports no error. */
  lemma {:induction false} DeleteOldestReportsFailure(k: Kube, cs: seq<Component>, alias: string)
    ensures DeleteOldestRunningPod(k, cs, alias).yes <==> DeleteOldestRunningPod(k, cs, alias).err.None?
  {
    match MatchPodComponent(k.isPod, alias, cs)
    case Failure(_) =>
    case Success(c) =>
      var pod := k.getOldestRunningPod(c.namespace, c.labels);
      if !IsBlank(c.labels) && pod.failure.None? && pod.value != "" {
        var deleted := k.deletePod(pod.value, c.namespace);
        assert Lift(deleted).None? <==> deleted.None?;
      }
  }

  /** Without a labelled, uniquely aliased pod component neither action queries or deletes
      anything, and both fail. The alias is resolved before the labels are checked: no match is
      "not found", two matches are "multiple components", and only a single match with blank
      labels is "labels required". */
  lemma {:induction false} DeleteActionsWithoutTarget(k: Kube, cs: seq<Component>, alias: string)
    requires forall i :: !Target(k, cs, alias, i)
    ensures var o := DeleteAnyRunningPod(k, cs, alias); !o.yes && o.err.Some? && o.calls == []
    ensures var o := DeleteOldestRunningPod(k, cs, alias); !o.yes && o.err.Some? && o.calls == []
    ensures (forall j :: 0 <= j < |cs| ==> !AliasPod(k.isPod, alias)(cs[j])) ==>
            && DeleteAnyRunningPod(k, cs, alias).err == Some(ComponentNotFound)
            && DeleteOldestRunningPod(k, cs, alias).err == Some(ComponentNotFound)
    ensures (exists a, b :: 0 <= a < b < |cs| && AliasPod(k.isPod, alias)(cs[a]) && AliasPod(k.isPod, alias)(cs[b])) ==>
            && DeleteAnyRunningPod(k, cs, alias).err == Some(MultipleComponents)
            && DeleteOldestRunningPod(k, cs, alias).err == Some(MultipleComponents)
    ensures forall j :: OnlyMatchAt(k.isPod, alias, cs, j) && IsBlank(cs[j].labels) ==>
            && DeleteAnyRunningPod(k, cs, alias).err == Some(LabelsRequired)
            && DeleteOldestRunningPod(k, cs, alias).err == Some(LabelsRequired)
  {
    MatchPodComponentCases(k.isPod, alias, cs);
    var m := MatchPodComponent(k.isPod, alias, cs);
    if m.Success? {
      var i :| OnlyMatchAt(k.isPod, alias, cs, i);
      assert m.value == cs[i];
      assert !Target(k, cs, alias, i);
    }
  }

  /** `delete-any-pod` on its target: the running pods are listed first; a failed listing returns
      the runner's error and an empty list "not found", both without deleting anything; otherwise
      only the FIRST listed pod is deleted and the delete's own error is returned. */
  lemma {:induction false} DeleteAnyRunningPodAtTarget(k: Kube, cs: seq<Component>, alias: string, i: int)
    requires Target(k, cs, alias, i)
    ensures var c := cs[i]; var pods := k.getRunningPods(c.namespace, c.labels);
            pods.failure.Some? ==>
              DeleteAnyRunningPod(k, cs, alias) == Outcome(false, Lift(pods.failure), [GetRunningPods(c.namespace, c.labels)])
    ensures var c := cs[i]; var pods := k.getRunningPods(c.namespace, c.labels);
            pods.failure.None? && pods.value == [] ==>
              DeleteAnyRunningPod(k, cs, alias) == Outcome(false, Some(RunningPodNotFound), [GetRunningPods(c.namespace, c.labels)])
    ensures var c := cs[i]; var pods := k.getRunningPods(c.namespace, c.labels);
            pods.failure.None? && pods.value != [] ==>
              var o := DeleteAnyRunningPod(k, cs, alias);
              && o.calls == [GetRunningPods(c.namespace, c.labels), DeletePod(pods.value[0], c.namespace)]
              && o.err == Lift(k.deletePod(pods.value[0], c.namespace))
    ensures var c := cs[i]; var pods := k.getRunningPods(c.namespace, c.labels);
            DeleteAnyRunningPod(k, cs, alias).yes <==>
              pods.failure.None? && pods.value != [] && k.deletePod(pods.value[0], c.namespace).None?
  {
    MatchPodComponentCases(k.isPod, alias, cs);
  }

  /** `delete-oldest-pod` on its target: the oldest running pod is fetched first; a failed fetch
      returns the runner's error and an empty name "not found", both without deleting anything;
      otherwise that pod is deleted and the delete's own error is returned. */
  lemma {:induction false} DeleteOldestRunningPodAtTarget(k: Kube, cs: seq<Component>, alias: string, i: int)
    requires Target(k, cs, alias, i)
    ensures var c := cs[i]; var pod := k.getOldestRunningPod(c.namespace, c.labels);
            pod.failure.Some? ==>
              DeleteOldestRunningPod(k, cs, alias) == Outcome(false, Lift(pod.failure), [GetOldestRunningPod(c.namespace, c.labels)])
    ensures var c := cs[i]; var pod := k.getOldestRunningPod(c.namespace, c.labels);
            pod.failure.None? && pod.value == "" ==>
              DeleteOldestRunningPod(k, cs, alias) == Outcome(false, Some(RunningPodNotFound), [GetOldestRunningPod(c.namespace, c.labels)])
    ensures var c := cs[i]; var pod := k.getOldestRunningPod(c.namespace, c.labels);
            pod.failure.None? && pod.value != "" ==>
              var o := DeleteOldestRunningPod(k, cs, alias);
              && o.calls == [GetOldestRunningPod(c.namespace, c.labels), DeletePod(pod.value, c.namespace)]
              && o.err == Lift(k.deletePod(pod.value, c.namespace))
    ensures var c := cs[i]; var pod := k.getOldestRunningPod(c.namespace, c.labels);
            DeleteOldestRunningPod(k, cs, alias).yes <==>
              pod.failure.None? && pod.value != "" && k.deletePod(pod.value, c.namespace).None?
  {
    MatchPodComponentCases(k.isPod, alias, cs);
  }

  /** `isDeleteAnyRunningPod`. The source dereferences the installation without a nil check. */
  method IsDeleteAnyRunningPod(v: KubeInstallVerify, alias: string) returns (o: Outcome)
    requires v.installation.Some?
    ensures o == DeleteAnyRunningPod(v.kubectl, v.installation.value.components, alias)
  {
    var c, err := GetMatchingPodComponent(v, alias);
    if err.Some? {
      return Outcome(false, err, []);
    }
    if IsBlank(c.labels) {
      return Outcome(false, Some(LabelsRequired), []);
    }
    var pods := v.kubectl.getRunningPods(c.namespace, c.labels);
    var calls := [GetRunningPods(c.namespace, c.labels)];
    if pods.failure.Some? {
      return Outcome(false, Lift(pods.failure), calls);
    }
    if |pods.value| == 0 {
      return Outcome(false, Some(RunningPodNotFound), calls);
    }
    var deleted := v.kubectl.deletePod(pods.value[0], c.namespace);
    calls := calls + [DeletePod(pods.value[0], c.namespace)];
    if deleted.Some? {
      return Outcome(false, Lift(deleted), calls);
    }
    return Outcome(true, None, calls);
  }

  /** `isDeleteOldestRunningPod`. The source dereferences the installation without a nil check. */
  method IsDeleteOldestRunningPod(v: KubeInstallVerify, alias: string) returns (o: Outcome)
    requires v.installation.Some?
    ensures o == DeleteOldestRunningPod(v.kubectl, v.installation.value.components, alias)
  {
    var c, err := GetMatchingPodComponent(v, alias);
    if err.Some? {
      return Outcome(false, err, []);
    }
    if IsBlank(c.labels) {
      return Outcome(false, Some(LabelsRequired), []);
    }
    var pod := v.kubectl.getOldestRunningPod(c.namespace, c.labels);
    var calls := [GetOldestRunningPod(c.namespace, c.labels)];
    if pod.failure.Some? {
      return Outcome(false, Lift(pod.failure), calls);
    }
    if |pod.value| == 0 {
      return Outcome(false, Some(RunningPodNotFound), calls);
    }
    var deleted := v.kubectl.deletePod(pod.value, c.namespace);
    calls := calls + [DeletePod(pod.value, c.namespace)];
    if deleted.Some? {
      return Outcome(false, Lift(deleted), calls);
    }
    return Outcome(true, None, calls);
  }
}
