/**
  The seeded Fisher-Yates shuffle.  The digest that drives it is an arbitrary function, so the
  results hold for every digest; each permutation comes from exactly one list of choices.
 */
module Shuffle {

  /** Choice i is a position from 0 to i. */
  predicate IsChoices(c: seq<nat>) {
    forall i :: 0 <= i < |c| ==> c[i] <= i
  }

  function Swapped(s: seq<nat>, i: nat, j: nat): (t: seq<nat>)
    requires i < |s| && j < |s|
    ensures |t| == |s|
  {
    s[i := s[j]][j := s[i]]
  }

  /** Positions k - 1 down to 1, each exchanged with its choice. */
  function Shuffled(s: seq<nat>, c: seq<nat>, k: nat): (t: seq<nat>)
    requires IsChoices(c) && |c| == |s| && k <= |s|
    ensures |t| == |s|
    decreases k
  {
    if k <= 1 then s else Shuffled(Swapped(s, k - 1, c[k - 1]), c, k - 1)
  }

  lemma SwappedPermutes(s: seq<nat>, i: nat, j: nat)
    requires i < |s| && j < |s|
    ensures multiset(Swapped(s, i, j)) == multiset(s)
  {
  }

  lemma {:induction false} ShuffledPermutes(s: seq<nat>, c: seq<nat>, k: nat)
    requires IsChoices(c) && |c| == |s| && k <= |s|
    ensures multiset(Shuffled(s, c, k)) == multiset(s)
    decreases k
  {
    hide Swapped;
    if k > 1 {
      SwappedPermutes(s, k - 1, c[k - 1]);
      ShuffledPermutes(Swapped(s, k - 1, c[k - 1]), c, k - 1);
    }
  }

  function Identity(n: nat): (s: seq<nat>)
    ensures |s| == n && forall i :: 0 <= i < n ==> s[i] == i
  {
    seq(n, i => i)
  }

  ghost predicate Distinct(s: seq<nat>) {
    forall i, j :: 0 <= i < j < |s| ==> s[i] != s[j]
  }

  ghost predicate IsPermutation(s: seq<nat>) {
    multiset(s) == multiset(Identity(|s|))
  }

  function Choices(count: nat, draw: nat -> nat): (c: seq<nat>)
    ensures |c| == count && IsChoices(c)
  {
    seq(count, i requires 0 <= i < count => draw(i) % (i + 1))
  }

  lemma ChoiceAt(count: nat, draw: nat -> nat, i: nat)
    requires i < count
    ensures Choices(count, draw)[i] == draw(i) % (i + 1) <= i
  {
  }

  method Exchange(list: array<nat>, i: nat, j: nat)
    requires i < list.Length && j < list.Length
    modifies list
    ensures list[..] == Swapped(old(list[..]), i, j)
  {
    hide Swapped;
    ghost var before := list[..];
    list[i], list[j] := list[j], list[i];
    SwappedIs(before, i, j, list[..]);
  }

  /** The trainer's loop, swapping list elements in place. */
  method DeterministicPermutation(count: nat, draw: nat -> nat) returns (result: seq<nat>)
    ensures |result| == count && IsPermutation(result)
    ensures result == Shuffled(Identity(count), Choices(count, draw), count)
  {
    hide Shuffled, Swapped, IsPermutation, Choices, Identity, IsChoices;
    var list := new nat[count](i => i);
    ghost var c := Choices(count, draw);
    assert list[..] == Identity(count);
    var current := count - 1;
    while current > 0
      invariant -1 <= current < count && (count > 0 ==> current >= 0)
      invariant Shuffled(list[..], c, current + 1) == Shuffled(Identity(count), c, count)
    {
      var selected := draw(current) % (current + 1);
      ghost var before := list[..];
      ChoiceAt(count, draw, current);
      Exchange(list, current, selected);
      ShuffledStep(before, c, current + 1);
      current := current - 1;
    }
    result := list[..];
    ShuffledStep(result, c, current + 1);
    ShuffleIsPermutation(count, c);
  }

  lemma ShuffleIsPermutation(count: nat, c: seq<nat>)
    requires IsChoices(c) && |c| == count
    ensures IsPermutation(Shuffled(Identity(count), c, count))
  {
    hide Shuffled;
    ShuffledPermutes(Identity(count), c, count);
  }

  lemma SwappedIs(s: seq<nat>, i: nat, j: nat, t: seq<nat>)
    requires i < |s| && j < |s| && |t| == |s| && t[i] == s[j] && t[j] == s[i]
    requires forall k :: 0 <= k < |s| && k != i && k != j ==> t[k] == s[k]
    ensures t == Swapped(s, i, j)
  {
  }

  lemma ShuffledStep(s: seq<nat>, c: seq<nat>, k: nat)
    requires IsChoices(c) && |c| == |s| && k <= |s|
    ensures Shuffled(s, c, k) == if k <= 1 then s else Shuffled(Swapped(s, k - 1, c[k - 1]), c, k - 1)
  {
    hide Swapped;
  }

  // ----- Each permutation exactly once.

  lemma {:induction false} UpperStays(s: seq<nat>, c: seq<nat>, k: nat, i: nat)
    requires IsChoices(c) && |c| == |s| && k <= i < |s|
    ensures Shuffled(s, c, k)[i] == s[i]
    decreases k
  {
    if k > 1 {
      UpperStays(Swapped(s, k - 1, c[k - 1]), c, k - 1, i);
    }
  }

  lemma SwappedDistinct(s: seq<nat>, i: nat, j: nat)
    requires Distinct(s) && i < |s| && j < |s|
    ensures Distinct(Swapped(s, i, j))
  {
  }

  lemma SwappedAt(s: seq<nat>, i: nat, j: nat)
    requires i < |s| && j < |s|
    ensures Swapped(s, i, j)[i] == s[j]
  {
  }

  lemma SameIndex(s: seq<nat>, i: nat, j: nat)
    requires Distinct(s) && i < |s| && j < |s| && s[i] == s[j]
    ensures i == j
  {
  }

  /** Different choices give different orders. */
  lemma {:induction false} ShuffleInjective(s: seq<nat>, c: seq<nat>, d: seq<nat>, k: nat)
    requires IsChoices(c) && IsChoices(d) && |c| == |s| && |d| == |s| && k <= |s| && Distinct(s)
    requires Shuffled(s, c, k) == Shuffled(s, d, k)
    ensures forall i :: 0 <= i < k ==> c[i] == d[i]
    decreases k
  {
    hide Shuffled, Swapped, Distinct;
    if k > 1 {
      var i := k - 1;
      ShuffledStep(s, c, k);
      ShuffledStep(s, d, k);
      UpperStays(Swapped(s, i, c[i]), c, i, i);
      UpperStays(Swapped(s, i, d[i]), d, i, i);
      SwappedAt(s, i, c[i]);
      SwappedAt(s, i, d[i]);
      SameIndex(s, c[i], d[i]);
      SwappedDistinct(s, i, c[i]);
      ShuffleInjective(Swapped(s, i, c[i]), c, d, k - 1);
    }
  }

  lemma DistinctByMultiset(s: seq<nat>, t: seq<nat>)
    requires Distinct(s) && multiset(s) == multiset(t)
    ensures Distinct(t)
  {
    forall i, j | 0 <= i < j < |t| ensures t[i] != t[j] {
      if t[i] == t[j] {
        assert t == t[..i] + [t[i]] + t[i + 1..j] + [t[j]] + t[j + 1..];
        assert multiset(t)[t[i]] >= 2;
        CountOfDistinct(s, t[i]);
      }
    }
  }

  lemma {:induction false} CountOfDistinct(s: seq<nat>, x: nat)
    requires Distinct(s)
    ensures multiset(s)[x] <= 1
  {
    if |s| > 0 {
      var init := s[..|s| - 1];
      assert s == init + [s[|s| - 1]];
      CountOfDistinct(init, x);
      assert s[|s| - 1] !in init;
    }
  }

  /** Every reordering that agrees from position k on is reached by some choices. */
  lemma {:induction false} ShuffleReaches(s: seq<nat>, t: seq<nat>, k: nat) returns (c: seq<nat>)
    requires Distinct(s) && multiset(s) == multiset(t) && |s| == |t| && k <= |s|
    requires forall i :: k <= i < |s| ==> s[i] == t[i]
    ensures |c| == |s| && IsChoices(c) && Shuffled(s, c, k) == t
    decreases k
  {
    hide Shuffled, Swapped, Distinct;
    if k <= 1 {
      c := seq(|s|, i => 0);
      FirstAgrees(s, t);
      ShuffledStep(s, c, k);
    } else {
      var i := k - 1;
      var j := Locate(s, t, i);
      SwappedDistinct(s, i, j);
      SwappedPermutes(s, i, j);
      assert forall l :: i <= l < |s| ==> Swapped(s, i, j)[l] == t[l] by { SwappedUpper(s, i, j); }
      var d := ShuffleReaches(Swapped(s, i, j), t, i);
      c := d[i := j];
      SameChoices(Swapped(s, i, j), c, d, i);
      ShuffledStep(s, c, k);
    }
  }

  lemma SwappedUpper(s: seq<nat>, i: nat, j: nat)
    requires j <= i < |s|
    ensures Swapped(s, i, j)[i] == s[j] && forall l :: i < l < |s| ==> Swapped(s, i, j)[l] == s[l]
  {
  }

  lemma FirstAgrees(s: seq<nat>, t: seq<nat>)
    requires multiset(s) == multiset(t) && |s| == |t| && forall i :: 1 <= i < |s| ==> s[i] == t[i]
    ensures s == t
  {
    if |s| > 0 {
      assert s == [s[0]] + s[1..] && t == [t[0]] + t[1..];
      assert s[1..] == t[1..];
      assert multiset(s) == multiset{s[0]} + multiset(s[1..]);
      assert multiset(t) == multiset{t[0]} + multiset(t[1..]);
      assert multiset{s[0]} == multiset(s) - multiset(s[1..]) == multiset{t[0]};
      assert s[0] in multiset{t[0]};
    }
  }

  /** Where the value wanted at position i is now: not above i. */
  lemma Locate(s: seq<nat>, t: seq<nat>, i: nat) returns (j: nat)
    requires Distinct(s) && multiset(s) == multiset(t) && |s| == |t| && i < |s|
    requires forall l :: i < l < |s| ==> s[l] == t[l]
    ensures j <= i && s[j] == t[i]
  {
    DistinctByMultiset(s, t);
    assert t[i] in multiset(t);
    assert t[i] in multiset(s);
    j :| 0 <= j < |s| && s[j] == t[i];
  }

  lemma {:induction false} SameChoices(s: seq<nat>, c: seq<nat>, d: seq<nat>, k: nat)
    requires IsChoices(c) && IsChoices(d) && |c| == |s| && |d| == |s| && k <= |s|
    requires forall i :: 0 <= i < k ==> c[i] == d[i]
    ensures Shuffled(s, c, k) == Shuffled(s, d, k)
    decreases k
  {
    if k > 1 {
      SameChoices(Swapped(s, k - 1, c[k - 1]), c, d, k - 1);
    }
  }

  /** Each permutation of 0..n-1 is the shuffle of one and only one list of choices. */
  lemma EachPermutationOnce(t: seq<nat>) returns (c: seq<nat>)
    requires IsPermutation(t)
    ensures |c| == |t| && IsChoices(c) && Shuffled(Identity(|t|), c, |t|) == t
    ensures forall d: seq<nat> :: |d| == |t| && IsChoices(d) && Shuffled(Identity(|t|), d, |t|) == t ==> d == c
  {
    var s := Identity(|t|);
    c := ShuffleReaches(s, t, |t|);
    forall d: seq<nat> | |d| == |t| && IsChoices(d) && Shuffled(s, d, |t|) == t ensures d == c {
      ShuffleInjective(s, c, d, |t|);
    }
  }

  /** A permutation visits every index, once. */
  lemma PermutationVisits(s: seq<nat>, x: nat)
    requires IsPermutation(s) && x < |s|
    ensures multiset(s)[x] == 1
  {
    assert Identity(|s|)[x] == x;
    assert x in multiset(Identity(|s|));
    CountOfDistinct(Identity(|s|), x);
  }
}
