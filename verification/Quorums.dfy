/** Counting: why two quorums of 2f+1 share an honest validator exactly when n = 3f+1. */
module Quorums {

  function FaultBound(n: nat): nat requires n > 0 { (n - 1) / 3 }

  function QuorumSize(n: nat): (q: nat)
    requires n > 0
    ensures q <= n
  {
    2 * FaultBound(n) + 1
  }

  lemma SubsetSize<T>(a: set<T>, b: set<T>)
    requires a <= b
    ensures |a| <= |b|
  {
    assert b == a + (b - a);
  }

  /** A list has no more members than places, and as many when they are distinct. */
  lemma {:induction false} DistinctCount<T>(ids: seq<T>)
    ensures |set v | v in ids| <= |ids|
    ensures (forall i, j :: 0 <= i < j < |ids| ==> ids[i] != ids[j]) ==> |set v | v in ids| == |ids|
  {
    if ids != [] {
      var init := ids[..|ids| - 1];
      DistinctCount(init);
      assert (set v | v in ids) == (set v | v in init) + {ids[|ids| - 1]};
    }
  }

  /** Inclusion and exclusion inside a universe. */
  lemma OverlapSize<T>(a: set<T>, b: set<T>, universe: set<T>)
    requires a <= universe && b <= universe
    ensures |a * b| >= |a| + |b| - |universe|
  {
    SubsetSize(a + b, universe);
  }

  /** Every two quorums over `validators` share a member outside every faulty set the bound allows. */
  ghost predicate QuorumsMeet<T(!new)>(validators: set<T>)
    requires validators != {}
  {
    forall a: set<T>, b: set<T>, faulty: set<T> ::
      a <= validators && b <= validators && faulty <= validators &&
      |a| >= QuorumSize(|validators|) && |b| >= QuorumSize(|validators|) &&
      |faulty| <= FaultBound(|validators|)
      ==> exists v :: v in a && v in b && v !in faulty
  }

  lemma HonestOverlap<T>(a: set<T>, b: set<T>, faulty: set<T>, validators: set<T>) returns (v: T)
    requires a <= validators && b <= validators
    requires |a| + |b| > |validators| + |faulty|
    ensures v in a && v in b && v !in faulty
  {
    OverlapSize(a, b, validators);
    if a * b <= faulty {
      SubsetSize(a * b, faulty);
      assert false;
    }
    v :| v in a * b && v !in faulty;
  }

  lemma TakeSubset<T>(s: set<T>, k: nat) returns (t: set<T>)
    requires k <= |s|
    ensures t <= s && |t| == k
  {
    t := {};
    while |t| < k
      invariant t <= s && |t| <= k
    {
      if s <= t { SubsetSize(s, t); assert false; }
      var x :| x in s && x !in t;
      t := t + {x};
    }
  }

  /** Outside n = 3f+1 the witness is tight: two quorums whose whole overlap can be faulty. */
  lemma DisjointQuorums<T>(validators: set<T>) returns (a: set<T>, b: set<T>, faulty: set<T>)
    requires validators != {} && |validators| % 3 != 1
    ensures a <= validators && b <= validators && faulty <= validators
    ensures |a| >= QuorumSize(|validators|) && |b| >= QuorumSize(|validators|)
    ensures |faulty| <= FaultBound(|validators|) && a * b <= faulty
  {
    var n, q := |validators|, QuorumSize(|validators|);
    a := TakeSubset(validators, q);
    var rest := validators - a;
    if n - q >= q {
      b := TakeSubset(rest, q);
      faulty := {};
      assert a * b == {};
    } else {
      faulty := TakeSubset(a, 2 * q - n);
      b := rest + faulty;
      assert a * b == faulty;
    }
  }

  lemma QuorumsMeetIff<T(!new)>(validators: set<T>)
    requires validators != {}
    ensures QuorumsMeet(validators) <==> |validators| % 3 == 1
  {
    if |validators| % 3 == 1 {
      forall a: set<T>, b: set<T>, faulty: set<T> |
        a <= validators && b <= validators && faulty <= validators &&
        |a| >= QuorumSize(|validators|) && |b| >= QuorumSize(|validators|) &&
        |faulty| <= FaultBound(|validators|)
        ensures exists v :: v in a && v in b && v !in faulty
      {
        var v := HonestOverlap(a, b, faulty, validators);
      }
    } else {
      var a, b, faulty := DisjointQuorums(validators);
      assert !exists v :: v in a && v in b && v !in faulty;
    }
  }
}
