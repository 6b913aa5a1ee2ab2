/** Alias resolution (`getMatchingPodComponent`): the one pod-kind component carrying an alias. */
module Matching {
  import opened Wrappers
  import opened Install
  import opened Seqs

  /** The filter `c.Alias == alias && kubectl.IsPod(c.Kind)`. */
  function AliasPod(isPod: string -> bool, alias: string): Component -> bool {
    (c: Component) => c.alias == alias && isPod(c.kind)
  }

  /** Position `i` holds a pod component with the alias, and no other position does. */
  ghost predicate OnlyMatchAt(isPod: string -> bool, alias: string, cs: seq<Component>, i: int) {
    && 0 <= i < |cs|
    && AliasPod(isPod, alias)(cs[i])
    && forall j :: 0 <= j < |cs| && j != i ==> !AliasPod(isPod, alias)(cs[j])
  }

  /** What alias resolution yields: the single match, or which way the match count is wrong. */
  function MatchPodComponent(isPod: string -> bool, alias: string, cs: seq<Component>): Result<Component, Error> {
    var filtered := Filter(cs, AliasPod(isPod, alias));
    if |filtered| == 0 then Failure(ComponentNotFound)
    else if |filtered| > 1 then Failure(MultipleComponents)
    else Success(filtered[0])
  }

  /** Resolution succeeds exactly when one position matches, and then yields that component;
      no match is "not found" and two or more are "multiple components". */
  lemma {:induction false} MatchPodComponentCases(isPod: string -> bool, alias: string, cs: seq<Component>)
    ensures MatchPodComponent(isPod, alias, cs).Success? <==> exists i :: OnlyMatchAt(isPod, alias, cs, i)
    ensures forall i :: OnlyMatchAt(isPod, alias, cs, i) ==> MatchPodComponent(isPod, alias, cs) == Success(cs[i])
    ensures MatchPodComponent(isPod, alias, cs) == Failure(ComponentNotFound) <==>
            forall i :: 0 <= i < |cs| ==> !AliasPod(isPod, alias)(cs[i])
    ensures MatchPodComponent(isPod, alias, cs) == Failure(MultipleComponents) <==>
            exists i, j :: 0 <= i < j < |cs| && AliasPod(isPod, alias)(cs[i]) && AliasPod(isPod, alias)(cs[j])
  {
    var keep := AliasPod(isPod, alias);
    var filtered := Filter(cs, keep);
    FilterEmptyIff(cs, keep);
    FilterTwoIff(cs, keep);
    if |filtered| == 1 {
      var x := filtered[0];
      assert x in filtered;
      FilterMembers(cs, keep);
      var i :| 0 <= i < |cs| && cs[i] == x;
      assert OnlyMatchAt(isPod, alias, cs, i);
      forall i' | OnlyMatchAt(isPod, alias, cs, i') ensures MatchPodComponent(isPod, alias, cs) == Success(cs[i']) {
        assert i' == i;
      }
    } else if |filtered| >= 2 {
      var a, b :| 0 <= a < b < |cs| && keep(cs[a]) && keep(cs[b]);
      forall i | 0 <= i < |cs| ensures !OnlyMatchAt(isPod, alias, cs, i) {
        if a != i { assert keep(cs[a]); } else { assert keep(cs[b]); }
      }
    }
  }

  /** `getMatchingPodComponent`: collect the matching components, then insist on exactly one.
      The source dereferences the installation without a nil check. */
  method GetMatchingPodComponent(v: KubeInstallVerify, alias: string) returns (comp: Component, err: Option<Error>)
    requires v.installation.Some?
    ensures var r := MatchPodComponent(v.kubectl.isPod, alias, v.installation.value.components);
            if err.None? then r == Success(comp) else r == Failure(err.value) && comp == ZeroComponent
  {
    var cs := v.installation.value.components;
    ghost var keep := AliasPod(v.kubectl.isPod, alias);
    var filtered: seq<Component> := [];
    for i := 0 to |cs|
      invariant filtered == Filter(cs[..i], keep)
    {
      var c := cs[i];
      if c.alias == alias && v.kubectl.isPod(c.kind) {
        filtered := filtered + [c];
      }
      assert cs[..i + 1] == cs[..i] + [c];
      FilterAppend(cs[..i], [c], keep);
    }
    assert cs[..|cs|] == cs;
    if |filtered| == 0 {
      return ZeroComponent, Some(ComponentNotFound);
    }
    if |filtered| > 1 {
      return ZeroComponent, Some(MultipleComponents);
    }
    return filtered[0], None;
  }
}
