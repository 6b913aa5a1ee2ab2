/** Filtering and duplicate detection over sequences, as the verifier's loops do them with `append`
    and a seen-map. */
module Seqs {

  /** The elements of `s` that `keep` accepts, in order. */
  function Filter<T>(s: seq<T>, keep: T -> bool): (r: seq<T>)
    ensures |r| <= |s|
  {
    if s == [] then [] else (if keep(s[0]) then [s[0]] else []) + Filter(s[1..], keep)
  }

  /** Every survivor is an accepted element of the input. */
  lemma {:induction false} FilterMembers<T>(s: seq<T>, keep: T -> bool)
    ensures forall x :: x in Filter(s, keep) ==> x in s && keep(x)
  {
    if s != [] {
      FilterMembers(s[1..], keep);
    }
  }

  lemma {:induction false} FilterAppend<T>(s: seq<T>, t: seq<T>, keep: T -> bool)
    ensures Filter(s + t, keep) == Filter(s, keep) + Filter(t, keep)
  {
    if s == [] {
      assert s + t == t;
    } else {
      var head := if keep(s[0]) then [s[0]] else [];
      assert (s + t)[0] == s[0] && (s + t)[1..] == s[1..] + t;
      assert Filter(s + t, keep) == head + Filter(s[1..] + t, keep);
      FilterAppend(s[1..], t, keep);
      assert head + (Filter(s[1..], keep) + Filter(t, keep)) == (head + Filter(s[1..], keep)) + Filter(t, keep);
    }
  }

  /** Splits the filter around position `i`. */
  lemma {:induction false} FilterAround<T>(s: seq<T>, i: nat, keep: T -> bool)
    requires i < |s|
    ensures Filter(s, keep) == Filter(s[..i], keep) + (Filter([s[i]], keep) + Filter(s[i + 1..], keep))
  {
    assert [s[i]] + s[i + 1..] == s[i..];
    assert s[..i] + s[i..] == s;
    FilterAppend(s[..i], s[i..], keep);
    FilterAppend([s[i]], s[i + 1..], keep);
  }

  /** Nothing survives the filter exactly when no element is accepted. */
  lemma {:induction false} FilterEmptyIff<T>(s: seq<T>, keep: T -> bool)
    ensures Filter(s, keep) == [] <==> forall i :: 0 <= i < |s| ==> !keep(s[i])
  {
    if s != [] {
      FilterEmptyIff(s[1..], keep);
      if Filter(s, keep) == [] {
        forall i | 0 <= i < |s| ensures !keep(s[i]) {
          if i > 0 { assert s[i] == s[1..][i - 1]; }
        }
      } else {
        assert exists i :: 0 <= i < |s| && keep(s[i]) by {
          if !keep(s[0]) {
            var i :| 0 <= i < |s[1..]| && keep(s[1..][i]);
            assert s[i + 1] == s[1..][i];
          }
        }
      }
    }
  }

  /** At least two elements survive exactly when two distinct positions are accepted. */
  lemma {:induction false} FilterTwoIff<T>(s: seq<T>, keep: T -> bool)
    ensures |Filter(s, keep)| >= 2 <==>
            exists i, j :: 0 <= i < j < |s| && keep(s[i]) && keep(s[j])
  {
    if s != [] {
      var tail := s[1..];
      FilterTwoIff(tail, keep);
      FilterEmptyIff(tail, keep);
      if |Filter(s, keep)| >= 2 {
        if keep(s[0]) {
          var j :| 0 <= j < |tail| && keep(tail[j]);
          assert keep(s[0]) && keep(s[j + 1]);
        } else {
          var i, j :| 0 <= i < j < |tail| && keep(tail[i]) && keep(tail[j]);
          assert keep(s[i + 1]) && keep(s[j + 1]);
        }
      }
      if exists i, j :: 0 <= i < j < |s| && keep(s[i]) && keep(s[j]) {
        var i, j :| 0 <= i < j < |s| && keep(s[i]) && keep(s[j]);
        assert keep(tail[j - 1]);
        if i > 0 {
          assert keep(tail[i - 1]);
        }
      }
    }
  }

  /** No value occurs twice. */
  predicate NoDuplicates<T(==)>(s: seq<T>) {
    forall i, j :: 0 <= i < j < |s| ==> s[i] != s[j]
  }

  /** The positional definition agrees with counting: no value has multiplicity above one. */
  lemma {:induction false} NoDuplicatesIffMultiplicity<T>(s: seq<T>)
    ensures NoDuplicates(s) <==> forall x :: multiset(s)[x] <= 1
  {
    if s != [] {
      var tail := s[1..];
      NoDuplicatesIffMultiplicity(tail);
      assert s == [s[0]] + tail;
      assert multiset(s) == multiset{s[0]} + multiset(tail);
      if NoDuplicates(s) {
        assert NoDuplicates(tail) by {
          forall i, j | 0 <= i < j < |tail| ensures tail[i] != tail[j] {
            assert s[i + 1] != s[j + 1];
          }
        }
        assert s[0] !in tail;
        assert multiset(tail)[s[0]] == 0;
      } else {
        var i, j :| 0 <= i < j < |s| && s[i] == s[j];
        if i == 0 {
          assert s[j] in tail by { assert tail[j - 1] == s[j]; }
          assert multiset(s)[s[0]] >= 2;
        } else {
          assert !NoDuplicates(tail) by { assert tail[i - 1] == tail[j - 1]; }
          var x :| multiset(tail)[x] > 1;
          assert multiset(s)[x] > 1;
        }
      }
    }
  }
}
