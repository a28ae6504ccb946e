/** The leaves of an m-of-n address are the m-element sets of its n signers; this module counts them. */
module Subsets {
  import opened Binomial

  /** All subsets of `s` with `k` members. */
  ghost function SubsetsOfSize<T(!new)>(s: set<T>, k: nat): set<set<T>> {
    set t | t <= s && |t| == k
  }

  /** The image of a set of sets when `x` is added to every member. */
  ghost function WithMember<T(!new)>(ts: set<set<T>>, x: T): set<set<T>> {
    set t | t in ts :: t + {x}
  }

  lemma {:induction false} WithMemberKeepsCount<T(!new)>(ts: set<set<T>>, x: T)
    requires forall t | t in ts :: x !in t
    ensures |WithMember(ts, x)| == |ts|
  {
    if ts != {} {
      var u :| u in ts;
      var rest := ts - {u};
      WithMemberKeepsCount(rest, x);
      WithMemberSplits(ts, x, u);
      forall t | t in rest
        ensures t + {x} != u + {x}
      {
        RemoveMember(t, x);
        RemoveMember(u, x);
      }
      assert u + {x} !in WithMember(rest, x);
    }
  }

  lemma WithMemberSplits<T(!new)>(ts: set<set<T>>, x: T, u: set<T>)
    requires u in ts
    ensures WithMember(ts, x) == WithMember(ts - {u}, x) + {u + {x}}
  {
  }

  lemma RemoveMember<T(!new)>(t: set<T>, x: T)
    requires x !in t
    ensures (t + {x}) - {x} == t
  {
  }

  /** The subsets of `s` of size `k` either leave out `x` or arise from a smaller subset by adding it. */
  lemma SplitOnMember<T(!new)>(s: set<T>, k: nat, x: T)
    requires x in s && k >= 1
    ensures SubsetsOfSize(s, k)
         == SubsetsOfSize(s - {x}, k) + WithMember(SubsetsOfSize(s - {x}, k - 1), x)
  {
    var without, small := SubsetsOfSize(s - {x}, k), SubsetsOfSize(s - {x}, k - 1);
    forall t | t in SubsetsOfSize(s, k)
      ensures t in without + WithMember(small, x)
    {
      if x in t {
        var u := t - {x};
        assert u in small && u + {x} == t;
      }
    }
  }

  lemma NoMembers<T(!new)>(s: set<T>)
    ensures |SubsetsOfSize(s, 0)| == 1
  {
    assert forall t | t in SubsetsOfSize(s, 0) :: t == {};
    assert {} in SubsetsOfSize(s, 0);
    assert SubsetsOfSize(s, 0) == {{}};
  }

  /** Pascal's rule for sets of subsets. */
  lemma CountSplit<T(!new)>(s: set<T>, k: nat, x: T)
    requires x in s && k >= 1
    ensures |SubsetsOfSize(s, k)| == |SubsetsOfSize(s - {x}, k)| + |SubsetsOfSize(s - {x}, k - 1)|
  {
    var without, small := SubsetsOfSize(s - {x}, k), SubsetsOfSize(s - {x}, k - 1);
    var added := WithMember(small, x);
    SplitOnMember(s, k, x);
    assert forall t | t in without :: x !in t;
    assert forall t | t in small :: x !in t;
    WithMemberKeepsCount(small, x);
    assert forall t | t in added :: x in t;
    assert without !! added;
  }

  /** There are `Choose(|s|, k)` subsets of size `k`. */
  lemma {:induction false} CountSubsets<T(!new)>(s: set<T>, k: nat)
    ensures |SubsetsOfSize(s, k)| == Choose(|s|, k)
    decreases |s|
  {
    if k == 0 {
      NoMembers(s);
    } else if s == {} {
      assert SubsetsOfSize(s, k) == {};
    } else {
      var x :| x in s;
      CountSubsets(s - {x}, k);
      CountSubsets(s - {x}, k - 1);
      CountSplit(s, k, x);
    }
  }
}
