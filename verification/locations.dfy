/**
 Location lists: two lists of location ids are compared position by position,
 and each list's ids are tallied.
 */
module Locations {

  import opened Numbers

  function Min(a: nat, b: nat): nat
  {
    if a < b then a else b
  }

  // ---------------------------------------------------------------------------
  // Total distance
  // ---------------------------------------------------------------------------

  /** The summed distances of the first `n` pairs. */
  function DistanceUpTo(left: seq<int>, right: seq<int>, n: nat): nat
    requires n <= |left| && n <= |right|
    decreases n
  {
    if n == 0 then 0
    else DistanceUpTo(left, right, n - 1) + Abs(left[n - 1] - right[n - 1])
  }

  /** The distances of the two lists paired position by position, summed; the
      pairing stops at the end of the shorter list. */
  function TotalDistance(left: seq<int>, right: seq<int>): nat
  {
    DistanceUpTo(left, right, Min(|left|, |right|))
  }

  /** Swapping the lists leaves every partial sum unchanged. */
  lemma {:induction false} DistanceUpToSymmetric(left: seq<int>, right: seq<int>, n: nat)
    requires n <= |left| && n <= |right|
    ensures DistanceUpTo(left, right, n) == DistanceUpTo(right, left, n)
    decreases n
  {
    if n > 0 {
      DistanceUpToSymmetric(left, right, n - 1);
      assert Abs(left[n - 1] - right[n - 1]) == Abs(right[n - 1] - left[n - 1]);
    }
  }

  /** The total distance does not depend on which list is on the left. */
  lemma TotalDistanceSymmetric(left: seq<int>, right: seq<int>)
    ensures TotalDistance(left, right) == TotalDistance(right, left)
  {
    DistanceUpToSymmetric(left, right, Min(|left|, |right|));
  }

  /** A partial sum is zero exactly when the lists agree on those positions. */
  lemma {:induction false} DistanceUpToZero(left: seq<int>, right: seq<int>, n: nat)
    requires n <= |left| && n <= |right|
    ensures DistanceUpTo(left, right, n) == 0 <==> forall i :: 0 <= i < n ==> left[i] == right[i]
    decreases n
  {
    if n > 0 {
      DistanceUpToZero(left, right, n - 1);
    }
  }

  /** The total distance is zero exactly when the lists agree on every
      position they share. */
  lemma TotalDistanceZero(left: seq<int>, right: seq<int>)
    ensures TotalDistance(left, right) == 0 <==>
      forall i :: 0 <= i < |left| && i < |right| ==> left[i] == right[i]
  {
    DistanceUpToZero(left, right, Min(|left|, |right|));
  }

  /** A partial sum reads only the positions it covers. */
  lemma {:induction false} DistanceUpToPrefix(left: seq<int>, right: seq<int>, left': seq<int>, right': seq<int>, n: nat)
    requires n <= |left| && n <= |right| && n <= |left'| && n <= |right'|
    requires forall i :: 0 <= i < n ==> left[i] == left'[i] && right[i] == right'[i]
    ensures DistanceUpTo(left, right, n) == DistanceUpTo(left', right', n)
    decreases n
  {
    if n > 0 {
      DistanceUpToPrefix(left, right, left', right', n - 1);
    }
  }

  /** The entries past the end of the shorter list are ignored. */
  lemma TotalDistanceTruncates(left: seq<int>, right: seq<int>)
    ensures var m := Min(|left|, |right|);
      TotalDistance(left, right) == TotalDistance(left[..m], right[..m])
  {
    var m := Min(|left|, |right|);
    DistanceUpToPrefix(left, right, left[..m], right[..m], m);
  }

  /** Each pair adds its distance: the total over lists extended by one pair
      each is the old total plus that pair's distance. */
  lemma TotalDistanceSnoc(left: seq<int>, right: seq<int>, a: int, b: int)
    requires |left| == |right|
    ensures TotalDistance(left + [a], right + [b]) == TotalDistance(left, right) + Abs(a - b)
  {
    DistanceUpToPrefix(left + [a], right + [b], left, right, |left|);
  }

  // ---------------------------------------------------------------------------
  // Occurrence counts
  // ---------------------------------------------------------------------------

  /** The tally of the first `n` ids: an id seen for the first time enters
      with count one, and a repeated id has its count raised by one. */
  function OccurrencesUpTo(ids: seq<int>, n: nat): map<int, nat>
    requires n <= |ids|
    decreases n
  {
    if n == 0 then map[]
    else
      var m := OccurrencesUpTo(ids, n - 1);
      var id := ids[n - 1];
      m[id := (if id in m then m[id] else 0) + 1]
  }

  /** The tally of all ids. */
  function CountOccurrences(ids: seq<int>): map<int, nat>
  {
    OccurrencesUpTo(ids, |ids|)
  }

  /** The tally of the first `n` ids has exactly those ids as keys, and maps
      each to the number of positions among the first `n` holding it. */
  lemma {:induction false} OccurrencesUpToSpec(ids: seq<int>, n: nat)
    requires n <= |ids|
    ensures var m := OccurrencesUpTo(ids, n);
      && (forall x :: x in m <==> x in ids[..n])
      && (forall x :: x in m ==> m[x] == multiset(ids[..n])[x])
    decreases n
  {
    if n > 0 {
      OccurrencesUpToSpec(ids, n - 1);
      assert ids[..n] == ids[..n - 1] + [ids[n - 1]];
    }
  }

  /** The tally's keys are exactly the ids present, and each id maps to the
      number of positions holding it, which is at least one. */
  lemma CountOccurrencesSpec(ids: seq<int>)
    ensures var m := CountOccurrences(ids);
      && (forall x :: x in m <==> x in ids)
      && (forall x :: x in m ==> m[x] == multiset(ids)[x] && m[x] >= 1)
  {
    OccurrencesUpToSpec(ids, |ids|);
    assert ids[..|ids|] == ids;
  }

  /** The tally depends only on which ids occur how often, not on their
      order, so sorting the list first leaves it unchanged. */
  lemma CountOccurrencesOrderFree(a: seq<int>, b: seq<int>)
    requires multiset(a) == multiset(b)
    ensures CountOccurrences(a) == CountOccurrences(b)
  {
    CountOccurrencesSpec(a);
    CountOccurrencesSpec(b);
    var ma := CountOccurrences(a);
    var mb := CountOccurrences(b);
    forall x ensures x in ma <==> x in mb {
      assert x in a <==> x in multiset(a);
      assert x in b <==> x in multiset(b);
    }
    assert ma.Keys == mb.Keys;
    assert forall x :: x in ma ==> ma[x] == mb[x];
  }

  /** A set is empty or has a member. */
  lemma EmptyOrMember(s: set<int>)
    ensures s == {} || exists x :: x in s
  {
    if !(exists x :: x in s) {
      assert s == {};
    }
  }

  /** The sum of the values a map gives the keys in `keys`. */
  ghost function SumOver(m: map<int, nat>, keys: set<int>): nat
    requires keys <= m.Keys
    decreases keys
  {
    if keys == {} then 0
    else
      EmptyOrMember(keys);
      var k :| k in keys;
      m[k] + SumOver(m, keys - {k})
  }

  /** The sum of all the values of a map. */
  ghost function SumValues(m: map<int, nat>): nat
  {
    SumOver(m, m.Keys)
  }

  /** Any key can be taken out first when summing. */
  lemma {:induction false} SumOverRemove(m: map<int, nat>, keys: set<int>, k: int)
    requires keys <= m.Keys
    requires k in keys
    ensures SumOver(m, keys) == m[k] + SumOver(m, keys - {k})
    decreases keys
  {
    var j :| j in keys && SumOver(m, keys) == m[j] + SumOver(m, keys - {j});
    if j != k {
      var kj := keys - {j};
      var kk := keys - {k};
      SumOverRemove(m, kj, k);
      SumOverRemove(m, kk, j);
      assert kj - {k} == kk - {j};
    }
  }

  /** Maps that agree on `keys` have the same sum over `keys`. */
  lemma {:induction false} SumOverAgree(m1: map<int, nat>, m2: map<int, nat>, keys: set<int>)
    requires keys <= m1.Keys && keys <= m2.Keys
    requires forall x :: x in keys ==> m1[x] == m2[x]
    ensures SumOver(m1, keys) == SumOver(m2, keys)
    decreases keys
  {
    if keys != {} {
      EmptyOrMember(keys);
      var k :| k in keys;
      SumOverRemove(m1, keys, k);
      SumOverRemove(m2, keys, k);
      SumOverAgree(m1, m2, keys - {k});
    }
  }

  /** Raising one entry by one, or adding it with value one, raises the sum
      of the values by one. */
  lemma SumValuesBump(m: map<int, nat>, k: int)
    ensures SumValues(m[k := (if k in m then m[k] else 0) + 1]) == SumValues(m) + 1
  {
    var m' := m[k := (if k in m then m[k] else 0) + 1];
    if k in m {
      assert m'.Keys == m.Keys;
      SumOverRemove(m', m.Keys, k);
      SumOverRemove(m, m.Keys, k);
      SumOverAgree(m', m, m.Keys - {k});
    } else {
      assert m'.Keys - {k} == m.Keys;
      SumOverRemove(m', m'.Keys, k);
      SumOverAgree(m', m, m.Keys);
    }
  }

  /** The counts of the tally of the first `n` ids add up to `n`. */
  lemma {:induction false} OccurrencesUpToSum(ids: seq<int>, n: nat)
    requires n <= |ids|
    ensures SumValues(OccurrencesUpTo(ids, n)) == n
    decreases n
  {
    if n == 0 {
      assert OccurrencesUpTo(ids, 0).Keys == {};
    } else {
      OccurrencesUpToSum(ids, n - 1);
      SumValuesBump(OccurrencesUpTo(ids, n - 1), ids[n - 1]);
    }
  }

  /** The counts of the tally add up to the length of the list. */
  lemma CountOccurrencesSum(ids: seq<int>)
    ensures SumValues(CountOccurrences(ids)) == |ids|
  {
    OccurrencesUpToSum(ids, |ids|);
  }
}
