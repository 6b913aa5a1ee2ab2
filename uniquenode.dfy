/** The "unique-node" condition (`isEachComponentOnUniqueNode`): the pods of the components with an
    alias must run on pairwise distinct nodes. */
module UniqueNode {
  import opened Wrappers
  import opened GoStrings
  import opened Kubectl
  import opened Install
  import opened Seqs

  /** The filter `c.Alias == alias`. */
  function HasAlias(alias: string): Component -> bool {
    (c: Component) => c.alias == alias
  }

  /** The node list gathered so far, the error that ended the gathering, and the calls made. */
  datatype Gathered = Gathered(nodes: seq<string>, err: Option<Error>, calls: seq<Call>)

  const NothingGathered := Gathered([], None, [])

  /** The second loop: skip non-pod components, refuse blank labels, append each pod component's
      nodes, and stop at the first error. */
  function Gather(k: Kube, acc: Gathered, fs: seq<Component>): Gathered
    decreases |fs|
  {
    if |fs| == 0 then acc
    else
      var f := fs[0];
      if !k.isPod(f.kind) then Gather(k, acc, fs[1..])
      else if IsBlank(f.labels) then Gathered(acc.nodes, Some(LabelsRequired), acc.calls)
      else
        var reply := k.getPodNodes(f.namespace, f.labels);
        var calls := acc.calls + [GetPodNodes(f.namespace, f.labels)];
        if reply.failure.Some? then Gathered(acc.nodes, Lift(reply.failure), calls)
        else Gather(k, Gathered(acc.nodes + reply.value, None, calls), fs[1..])
  }

  /** The whole condition: `(false, err)` when gathering failed, otherwise whether the gathered
      node list is free of repeats. */
  function UniqueNodeOutcome(k: Kube, cs: seq<Component>, alias: string): Outcome {
    var g := Gather(k, NothingGathered, Filter(cs, HasAlias(alias)));
    if g.err.Some? then Outcome(false, g.err, g.calls) else Outcome(NoDuplicates(g.nodes), None, g.calls)
  }

  /** A component that may pass: a non-pod, or a pod with labels whose node query succeeds. */
  predicate Harmless(k: Kube, f: Component) {
    k.isPod(f.kind) ==> !IsBlank(f.labels) && k.getPodNodes(f.namespace, f.labels).failure.None?
  }

  /** Gathering over a concatenation: the second part continues from where the first stopped,
      unless the first already failed. */
  lemma {:induction false} GatherAppend(k: Kube, acc: Gathered, xs: seq<Component>, ys: seq<Component>)
    requires acc.err.None?
    ensures var g := Gather(k, acc, xs);
            Gather(k, acc, xs + ys) == if g.err.Some? then g else Gather(k, g, ys)
    decreases |xs|
  {
    if |xs| == 0 {
      assert xs + ys == ys;
    } else {
      assert (xs + ys)[0] == xs[0] && (xs + ys)[1..] == xs[1..] + ys;
      var f := xs[0];
      if !k.isPod(f.kind) {
        GatherAppend(k, acc, xs[1..], ys);
      } else if !IsBlank(f.labels) {
        var reply := k.getPodNodes(f.namespace, f.labels);
        if reply.failure.None? {
          GatherAppend(k, Gathered(acc.nodes + reply.value, None, acc.calls + [GetPodNodes(f.namespace, f.labels)]), xs[1..], ys);
        }
      }
    }
  }

  /** Harmless components never end the gathering. */
  lemma {:induction false} GatherHarmless(k: Kube, acc: Gathered, fs: seq<Component>)
    requires acc.err.None?
    requires forall f :: f in fs ==> Harmless(k, f)
    ensures Gather(k, acc, fs).err.None?
    decreases |fs|
  {
    if |fs| > 0 {
      var f := fs[0];
      assert f in fs;
      assert forall g :: g in fs[1..] ==> g in fs;
      if !k.isPod(f.kind) {
        GatherHarmless(k, acc, fs[1..]);
      } else {
        var reply := k.getPodNodes(f.namespace, f.labels);
        GatherHarmless(k, Gathered(acc.nodes + reply.value, None, acc.calls + [GetPodNodes(f.namespace, f.labels)]), fs[1..]);
      }
    }
  }

  /** The nodes the runner lists for every pod component of `fs`, concatenated in order. */
  function PodNodes(k: Kube, fs: seq<Component>): seq<string>
    decreases |fs|
  {
    if |fs| == 0 then []
    else if k.isPod(fs[0].kind) then k.getPodNodes(fs[0].namespace, fs[0].labels).value + PodNodes(k, fs[1..])
    else PodNodes(k, fs[1..])
  }

  /** One node query per pod component of `fs`, in order. */
  function PodCalls(k: Kube, fs: seq<Component>): seq<Call>
    decreases |fs|
  {
    if |fs| == 0 then []
    else if k.isPod(fs[0].kind) then [GetPodNodes(fs[0].namespace, fs[0].labels)] + PodCalls(k, fs[1..])
    else PodCalls(k, fs[1..])
  }

  /** Over harmless components the gathering queries every pod component once and collects all
      of their nodes. */
  lemma {:induction false} GatherAllHarmless(k: Kube, acc: Gathered, fs: seq<Component>)
    requires acc.err.None?
    requires forall f :: f in fs ==> Harmless(k, f)
    ensures Gather(k, acc, fs) == Gathered(acc.nodes + PodNodes(k, fs), None, acc.calls + PodCalls(k, fs))
    decreases |fs|
  {
    if |fs| == 0 {
      assert acc.nodes + [] == acc.nodes && acc.calls + [] == acc.calls;
    } else {
      var f := fs[0];
      assert f in fs;
      assert forall g :: g in fs[1..] ==> g in fs;
      if !k.isPod(f.kind) {
        assert Gather(k, acc, fs) == Gather(k, acc, fs[1..]);
        GatherAllHarmless(k, acc, fs[1..]);
      } else {
        var reply := k.getPodNodes(f.namespace, f.labels);
        var next := Gathered(acc.nodes + reply.value, None, acc.calls + [GetPodNodes(f.namespace, f.labels)]);
        assert !IsBlank(f.labels) && reply.failure.None?;
        assert Gather(k, acc, fs) == Gather(k, next, fs[1..]);
        GatherAllHarmless(k, next, fs[1..]);
        var nodes, calls := PodNodes(k, fs[1..]), PodCalls(k, fs[1..]);
        assert PodNodes(k, fs) == reply.value + nodes;
        assert PodCalls(k, fs) == [GetPodNodes(f.namespace, f.labels)] + calls;
        assert (acc.nodes + reply.value) + nodes == acc.nodes + (reply.value + nodes);
        assert (acc.calls + [GetPodNodes(f.namespace, f.labels)]) + calls
            == acc.calls + ([GetPodNodes(f.namespace, f.labels)] + calls);
      }
    }
  }

  /** When every alias-matching component is harmless, the condition holds exactly when no node
      occurs twice among the nodes of the alias-matching pod components, and each of those
      components is queried once, in order. */
  lemma {:induction false} UniqueNodeWhenAllHarmless(k: Kube, cs: seq<Component>, alias: string)
    requires forall j :: 0 <= j < |cs| && cs[j].alias == alias ==> Harmless(k, cs[j])
    ensures var fs := Filter(cs, HasAlias(alias));
            UniqueNodeOutcome(k, cs, alias) == Outcome(NoDuplicates(PodNodes(k, fs)), None, PodCalls(k, fs))
    ensures UniqueNodeOutcome(k, cs, alias).yes <==>
            forall n :: multiset(PodNodes(k, Filter(cs, HasAlias(alias))))[n] <= 1
  {
    var keep := HasAlias(alias);
    var fs := Filter(cs, keep);
    FilterMembers(cs, keep);
    forall x | x in fs ensures Harmless(k, x) {
      assert x in cs && keep(x);
      var j :| 0 <= j < |cs| && cs[j] == x;
    }
    GatherAllHarmless(k, NothingGathered, fs);
    assert [] + PodNodes(k, fs) == PodNodes(k, fs) && [] + PodCalls(k, fs) == PodCalls(k, fs);
    NoDuplicatesIffMultiplicity(PodNodes(k, fs));
  }

  /** A component with another alias, or of a non-pod kind, contributes no nodes and no calls:
      removing it does not change the condition's outcome. */
  lemma {:induction false} IrrelevantComponentIgnored(k: Kube, cs: seq<Component>, alias: string, i: nat)
    requires i < |cs| && (cs[i].alias != alias || !k.isPod(cs[i].kind))
    ensures UniqueNodeOutcome(k, cs, alias) == UniqueNodeOutcome(k, cs[..i] + cs[i + 1..], alias)
  {
    var keep := HasAlias(alias);
    var pre, mid, post := Filter(cs[..i], keep), Filter([cs[i]], keep), Filter(cs[i + 1..], keep);
    FilterAround(cs, i, keep);
    FilterAppend(cs[..i], cs[i + 1..], keep);
    assert Gather(k, NothingGathered, pre + (mid + post)) == Gather(k, NothingGathered, pre + post) by {
      if mid == [] {
        assert mid + post == post;
      } else {
        assert mid == [cs[i]] && !k.isPod(cs[i].kind);
        GatherAppend(k, NothingGathered, pre, mid + post);
        GatherAppend(k, NothingGathered, pre, post);
        assert (mid + post)[0] == cs[i] && (mid + post)[1..] == post;
      }
    }
  }

  /** Gathering ends at a component that is not harmless, whatever follows it. */
  lemma {:induction false} GatherStopsAt(k: Kube, acc: Gathered, pre: seq<Component>, bad: Component, post: seq<Component>)
    requires acc.err.None? && !Harmless(k, bad)
    ensures Gather(k, acc, pre + [bad] + post) == Gather(k, acc, pre + [bad])
    ensures Gather(k, acc, pre + [bad]).err.Some?
  {
    GatherAppend(k, acc, pre, [bad]);
    GatherAppend(k, acc, pre + [bad], post);
    var g1 := Gather(k, acc, pre);
    if g1.err.None? {
      assert [bad][0] == bad;
    }
  }

  /** An alias-matching pod component with blank labels or a failing node query ends the
      condition with `false` and an error: no later component is consulted. */
  lemma {:induction false} LaterComponentsNotConsulted(k: Kube, cs: seq<Component>, alias: string, i: nat)
    requires i < |cs| && cs[i].alias == alias && !Harmless(k, cs[i])
    ensures UniqueNodeOutcome(k, cs, alias) == UniqueNodeOutcome(k, cs[..i + 1], alias)
    ensures !UniqueNodeOutcome(k, cs, alias).yes && UniqueNodeOutcome(k, cs, alias).err.Some?
  {
    var keep := HasAlias(alias);
    var pre, post := Filter(cs[..i], keep), Filter(cs[i + 1..], keep);
    FilterAround(cs, i, keep);
    assert cs[..i + 1] == cs[..i] + [cs[i]];
    FilterAppend(cs[..i], [cs[i]], keep);
    assert Filter([cs[i]], keep) == [cs[i]];
    assert pre + ([cs[i]] + post) == pre + [cs[i]] + post;
    GatherStopsAt(k, NothingGathered, pre, cs[i], post);
  }

  /** The FIRST such component decides which error is returned. */
  lemma {:induction false} FirstFailingPodDecides(k: Kube, cs: seq<Component>, alias: string, i: nat)
    requires i < |cs| && cs[i].alias == alias && !Harmless(k, cs[i])
    requires forall j :: 0 <= j < i && cs[j].alias == alias ==> Harmless(k, cs[j])
    ensures UniqueNodeOutcome(k, cs, alias).err ==
            if IsBlank(cs[i].labels) then Some(LabelsRequired)
            else Lift(k.getPodNodes(cs[i].namespace, cs[i].labels).failure)
  {
    var keep := HasAlias(alias);
    var pre := Filter(cs[..i], keep);
    LaterComponentsNotConsulted(k, cs, alias, i);
    assert cs[..i + 1] == cs[..i] + [cs[i]];
    FilterAppend(cs[..i], [cs[i]], keep);
    assert Filter([cs[i]], keep) == [cs[i]];
    FilterMembers(cs[..i], keep);
    forall x | x in pre ensures Harmless(k, x) {
      assert x in cs[..i] && keep(x);
      var j :| 0 <= j < i && cs[..i][j] == x;
      assert cs[j] == x;
    }
    GatherHarmless(k, NothingGathered, pre);
    GatherAppend(k, NothingGathered, pre, [cs[i]]);
  }

  /** The first loop of `isEachComponentOnUniqueNode`: keep the components with the alias. */
  method FilterByAlias(cs: seq<Component>, alias: string) returns (filtered: seq<Component>)
    ensures filtered == Filter(cs, HasAlias(alias))
  {
    ghost var keep := HasAlias(alias);
    filtered := [];
    for i := 0 to |cs|
      invariant filtered == Filter(cs[..i], keep)
    {
      if cs[i].alias == alias {
        filtered := filtered + [cs[i]];
      }
      assert cs[..i + 1] == cs[..i] + [cs[i]];
      FilterAppend(cs[..i], [cs[i]], keep);
    }
    assert cs[..|cs|] == cs;
  }

  /** The last loop of `isEachComponentOnUniqueNode`: track each node in a seen-map and answer
      `false` at the first repeat. */
  method NoRepeatedNode(nodes: seq<string>) returns (unique: bool)
    ensures unique == NoDuplicates(nodes)
  {
    var seen: map<string, string> := map[];
    for i := 0 to |nodes|
      invariant seen.Keys == set j | 0 <= j < i :: nodes[j]
      invariant NoDuplicates(nodes[..i])
    {
      var n := nodes[i];
      if n in seen {
        var j :| 0 <= j < i && nodes[j] == n;
        assert nodes[j] == nodes[i];
        return false;
      }
      seen := seen[n := "tracked"];
    }
    assert nodes[..|nodes|] == nodes;
    return true;
  }

  /** `isEachComponentOnUniqueNode`. The source dereferences the installation without a nil check. */
  method IsEachComponentOnUniqueNode(v: KubeInstallVerify, alias: string) returns (o: Outcome)
    requires v.installation.Some?
    ensures o == UniqueNodeOutcome(v.kubectl, v.installation.value.components, alias)
  {
    var k := v.kubectl;
    var filtered := FilterByAlias(v.installation.value.components, alias);

    // gather the nodes of each pod component
    var nodes: seq<string> := [];
    var calls: seq<Call> := [];
    for i := 0 to |filtered|
      invariant Gather(k, Gathered(nodes, None, calls), filtered[i..]) == Gather(k, NothingGathered, filtered)
    {
      var f := filtered[i];
      assert filtered[i..][1..] == filtered[i + 1..];
      if !k.isPod(f.kind) {
        continue;
      }
      if IsBlank(f.labels) {
        return Outcome(false, Some(LabelsRequired), calls);
      }
      var reply := k.getPodNodes(f.namespace, f.labels);
      calls := calls + [GetPodNodes(f.namespace, f.labels)];
      if reply.failure.Some? {
        return Outcome(false, Lift(reply.failure), calls);
      }
      nodes := nodes + reply.value;
    }

    var unique := NoRepeatedNode(nodes);
    return Outcome(unique, None, calls);
  }
}
