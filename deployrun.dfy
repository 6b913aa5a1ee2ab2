/** `IsDeployed` and `IsRunning`: fail-fast loops over the components whose result is the last
    checked component's, not a conjunction over all of them. */
module DeployRun {
  import opened Wrappers
  import opened GoStrings
  import opened Kubectl
  import opened Install

  /** The named results before the loop runs: `yes == false`, `err == nil`. */
  const Start := Outcome(false, None, [])

  /** `isComponentDeployed`: a pass-through of the runner's existence query. */
  function IsComponentDeployed(k: Kube, c: Component): (r: Outcome)
    ensures r.calls == [IsResourceDeployed(c.kind, c.name, c.namespace, c.labels)]
    ensures r.yes == k.isResourceDeployed(c.kind, c.name, c.namespace, c.labels).value
    ensures r.err == Lift(k.isResourceDeployed(c.kind, c.name, c.namespace, c.labels).failure)
  {
    var reply := k.isResourceDeployed(c.kind, c.name, c.namespace, c.labels);
    Outcome(reply.value, Lift(reply.failure), [IsResourceDeployed(c.kind, c.name, c.namespace, c.labels)])
  }

  /** `isPodComponentRunning`. A blank kind records "kind is required" without returning, so a
      non-pod blank kind answers `true` together with that error. */
  function IsPodComponentRunning(k: Kube, c: Component): (r: Outcome)
    ensures !k.isPod(c.kind) ==> r.yes && r.calls == [] && (r.err.Some? <==> IsBlank(c.kind))
    ensures !k.isPod(c.kind) && IsBlank(c.kind) ==> r.err == Some(KindRequired)
    ensures k.isPod(c.kind) && IsBlank(c.labels) ==> r == Outcome(false, Some(LabelsRequired), [])
    ensures k.isPod(c.kind) && !IsBlank(c.labels) ==>
              && r.calls == [ArePodsRunning(c.namespace, c.labels)]
              && r.yes == k.arePodsRunning(c.namespace, c.labels).value
              && r.err == Lift(k.arePodsRunning(c.namespace, c.labels).failure)
  {
    var kindErr := if IsBlank(c.kind) then Some(KindRequired) else None;
    if !k.isPod(c.kind) then Outcome(true, kindErr, [])
    else if IsBlank(c.labels) then Outcome(false, Some(LabelsRequired), [])
    else
      var reply := k.arePodsRunning(c.namespace, c.labels);
      Outcome(reply.value, Lift(reply.failure), [ArePodsRunning(c.namespace, c.labels)])
  }

  /** The loop body: `yes, err = step` and the step's calls, then `break` on an error. */
  function Then(acc: Outcome, step: Outcome): Outcome {
    Outcome(step.yes, step.err, acc.calls + step.calls)
  }

  /** The loop over per-component outcomes, from the state `acc`. */
  function Sweep(acc: Outcome, steps: seq<Outcome>): Outcome
    decreases |steps|
  {
    if |steps| == 0 then acc
    else if steps[0].err.Some? then Then(acc, steps[0])
    else Sweep(Then(acc, steps[0]), steps[1..])
  }

  /** All calls of a sequence of steps, in order. */
  function AllCalls(steps: seq<Outcome>): seq<Call> {
    if |steps| == 0 then [] else steps[0].calls + AllCalls(steps[1..])
  }

  function DeploySteps(k: Kube, cs: seq<Component>): (r: seq<Outcome>)
    ensures |r| == |cs| && forall i :: 0 <= i < |cs| ==> r[i] == IsComponentDeployed(k, cs[i])
  {
    seq(|cs|, i requires 0 <= i < |cs| => IsComponentDeployed(k, cs[i]))
  }

  function RunSteps(k: Kube, cs: seq<Component>): (r: seq<Outcome>)
    ensures |r| == |cs| && forall i :: 0 <= i < |cs| ==> r[i] == IsPodComponentRunning(k, cs[i])
  {
    seq(|cs|, i requires 0 <= i < |cs| => IsPodComponentRunning(k, cs[i]))
  }

  lemma {:induction false} AllCallsAppend(s: seq<Outcome>, t: seq<Outcome>)
    ensures AllCalls(s + t) == AllCalls(s) + AllCalls(t)
  {
    if |s| == 0 {
      assert s + t == t;
    } else {
      assert (s + t)[1..] == s[1..] + t;
      AllCallsAppend(s[1..], t);
    }
  }

  /** The first failing step ends the loop: its `(yes, err)` is the result and no later step's
      calls are made. */
  lemma {:induction false} SweepStopsAtFirstError(acc: Outcome, steps: seq<Outcome>, i: nat)
    requires i < |steps| && steps[i].err.Some?
    requires forall j :: 0 <= j < i ==> steps[j].err.None?
    ensures Sweep(acc, steps) == Outcome(steps[i].yes, steps[i].err, acc.calls + AllCalls(steps[..i + 1]))
    decreases |steps|
  {
    assert steps[..i + 1][1..] == steps[1..][..i];
    if i == 0 {
      assert AllCalls(steps[..1]) == steps[0].calls;
    } else {
      SweepStopsAtFirstError(Then(acc, steps[0]), steps[1..], i - 1);
    }
  }

  /** With no failing step the loop runs to the end, and the result is the LAST step's `yes`. */
  lemma {:induction false} SweepLastWins(acc: Outcome, steps: seq<Outcome>)
    requires |steps| > 0
    requires forall j :: 0 <= j < |steps| ==> steps[j].err.None?
    ensures Sweep(acc, steps) == Outcome(steps[|steps| - 1].yes, None, acc.calls + AllCalls(steps))
    decreases |steps|
  {
    if |steps| == 1 {
      assert AllCalls(steps) == steps[0].calls;
    } else {
      SweepLastWins(Then(acc, steps[0]), steps[1..]);
    }
  }

  /** The aggregation is not a conjunction: a component that is not deployed followed by one
      that is gives `yes == true`. */
  lemma {:induction false} DeployedIsNotConjunction(k: Kube, c1: Component, c2: Component)
    requires k.isResourceDeployed(c1.kind, c1.name, c1.namespace, c1.labels) == Reply(false, None)
    requires k.isResourceDeployed(c2.kind, c2.name, c2.namespace, c2.labels) == Reply(true, None)
    ensures Sweep(Start, DeploySteps(k, [c1, c2])).yes
  {
    SweepLastWins(Start, DeploySteps(k, [c1, c2]));
  }

  /** From the loop's initial state, the first failing step's calls are preceded by exactly
      those of the steps before it. */
  lemma {:induction false} SweepFromStartStops(steps: seq<Outcome>, i: nat)
    requires i < |steps| && steps[i].err.Some?
    requires forall j :: 0 <= j < i ==> steps[j].err.None?
    ensures Sweep(Start, steps) == Outcome(steps[i].yes, steps[i].err, AllCalls(steps[..i]) + steps[i].calls)
  {
    SweepStopsAtFirstError(Start, steps, i);
    assert steps[..i + 1] == steps[..i] + [steps[i]];
    AllCallsAppend(steps[..i], [steps[i]]);
    assert AllCalls([steps[i]]) == steps[i].calls + AllCalls([]);
  }

  /** A pod component with blank labels, reached without an earlier error, ends `IsRunning` with
      "labels are required" after the calls of the components before it. */
  lemma {:induction false} RunningStopsAtUnlabelledPod(k: Kube, cs: seq<Component>, i: nat)
    requires i < |cs| && k.isPod(cs[i].kind) && IsBlank(cs[i].labels)
    requires forall j :: 0 <= j < i ==> IsPodComponentRunning(k, cs[j]).err.None?
    ensures Sweep(Start, RunSteps(k, cs)) ==
            Outcome(false, Some(LabelsRequired), AllCalls(RunSteps(k, cs)[..i]))
  {
    var steps := RunSteps(k, cs);
    assert steps[i] == Outcome(false, Some(LabelsRequired), []);
    forall j | 0 <= j < i ensures steps[j].err.None? {
      assert steps[j] == IsPodComponentRunning(k, cs[j]);
    }
    SweepFromStartStops(steps, i);
    assert AllCalls(steps[..i]) + [] == AllCalls(steps[..i]);
  }

  /** `IsDeployed`. */
  method IsDeployed(v: KubeInstallVerify) returns (o: Outcome)
    ensures v.installation.None? ==> o == Outcome(false, Some(InstallationNil), [])
    ensures v.installation.Some? ==> o == Sweep(Start, DeploySteps(v.kubectl, v.installation.value.components))
    ensures v.installation.Some? && v.installation.value.components == [] ==> o == Outcome(false, None, [])
  {
    if v.installation.None? {
      return Outcome(false, Some(InstallationNil), []);
    }
    var cs := v.installation.value.components;
    ghost var steps := DeploySteps(v.kubectl, cs);
    o := Start;
    var i := 0;
    while i < |cs|
      invariant 0 <= i <= |cs|
      invariant Sweep(o, steps[i..]) == Sweep(Start, steps)
    {
      o := Then(o, IsComponentDeployed(v.kubectl, cs[i]));
      if o.err.Some? {
        break;
      }
      i := i + 1;
    }
  }

  /** `IsRunning`. */
  method IsRunning(v: KubeInstallVerify) returns (o: Outcome)
    ensures v.installation.None? ==> o == Outcome(false, Some(InstallationNil), [])
    ensures v.installation.Some? ==> o == Sweep(Start, RunSteps(v.kubectl, v.installation.value.components))
    ensures v.installation.Some? && v.installation.value.components == [] ==> o == Outcome(false, None, [])
  {
    if v.installation.None? {
      return Outcome(false, Some(InstallationNil), []);
    }
    var cs := v.installation.value.components;
    ghost var steps := RunSteps(v.kubectl, cs);
    o := Start;
    var i := 0;
    while i < |cs|
      invariant 0 <= i <= |cs|
      invariant Sweep(o, steps[i..]) == Sweep(Start, steps)
    {
      o := Then(o, IsPodComponentRunning(v.kubectl, cs[i]));
      if o.err.Some? {
        break;
      }
      i := i + 1;
    }
  }
}
