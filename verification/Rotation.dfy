/** The proposer rotates through the validators. */
module Rotation {
  import opened Messages
  import opened Protocol

  lemma MultipleBounds(n: nat, k: int)
    ensures k >= 1 ==> n * k >= n
    ensures k <= -1 ==> n * k <= 0 - n
  {
    if k >= 1 { assert n * k >= n * 1; }
    if k <= -1 { assert n * k <= n * -1; }
  }

  lemma SmallMultiple(n: nat, k: int)
    requires 0 - n < n * k < n
    ensures k == 0
  {
    MultipleBounds(n, k);
  }

  lemma RemainderUnique(a: int, q: int, r: nat, n: nat)
    requires n > r && a == n * q + r
    ensures a % n == r
  {
    var q' := a / n;
    assert a == n * q' + a % n;
    assert n * q - n * q' == n * (q - q');
    SmallMultiple(n, q - q');
  }

  /** Rounds have the same proposer exactly when they are congruent modulo n. */
  lemma SameProposerIff(p: Params, height: int, r1: int, r2: int)
    requires p.WellFormed()
    ensures p.ProposerFor(height, r1) == p.ProposerFor(height, r2) <==> (r1 - r2) % p.N() == 0
  {
    var n, a, b := p.N(), height + r1, height + r2;
    assert a == n * (a / n) + a % n && b == n * (b / n) + b % n;
    if a % n == b % n {
      assert n * (a / n) - n * (b / n) == n * (a / n - b / n);
      RemainderUnique(a - b, a / n - b / n, 0, n);
    }
    if (a - b) % n == 0 {
      var q := (a - b) / n;
      assert a - b == n * q;
      assert n * q + n * (b / n) == n * (q + b / n);
      RemainderUnique(a, q + b / n, b % n, n);
    }
    assert a - b == r1 - r2;
    assert p.validators[a % n] == p.validators[b % n] <==> a % n == b % n;
  }

  /** The first validator listed leads the first round of the first height; the next round of a height and the same round of
      the next height have one leader, the validator listed next. */
  lemma Succession(p: Params, height: int, round: int, i: nat)
    requires p.WellFormed() && i < p.N()
    ensures p.ProposerFor(0, 0) == p.validators[0]
    ensures p.ProposerFor(height + 1, round) == p.ProposerFor(height, round + 1)
    ensures p.ProposerFor(height, round) == p.validators[i] ==>
              p.ProposerFor(height, round + 1) == p.validators[if i + 1 < p.N() then i + 1 else 0]
  {
    var n, turn := p.N(), height + round;
    assert turn == n * (turn / n) + turn % n;
    if p.ProposerFor(height, round) == p.validators[i] {
      assert turn % n == i;
      if i + 1 < n {
        RemainderUnique(turn + 1, turn / n, i + 1, n);
      } else {
        assert n * (turn / n + 1) == n * (turn / n) + n;
        RemainderUnique(turn + 1, turn / n + 1, 0, n);
      }
    }
  }

  /** Every n consecutive rounds of a height give each validator exactly one turn to propose. */
  lemma EachProposesOnce(p: Params, height: int, first: int, v: Id) returns (r: int)
    requires p.WellFormed() && v in p.validators
    ensures first <= r < first + p.N() && p.ProposerFor(height, r) == v
    ensures forall r' :: first <= r' < first + p.N() && p.ProposerFor(height, r') == v ==> r' == r
  {
    var n := p.N();
    var i :| 0 <= i < n && p.validators[i] == v;
    r := TurnOf(height, first, i, n);
    forall r' | first <= r' < first + n && p.ProposerFor(height, r') == v ensures r' == r {
      SameProposerIff(p, height, r', r);
      assert r' - r == n * ((r' - r) / n) + (r' - r) % n;
      SmallMultiple(n, (r' - r) / n);
    }
  }

  lemma TurnOf(height: int, first: int, i: nat, n: nat) returns (r: int)
    requires i < n
    ensures first <= r < first + n && (height + r) % n == i
  {
    var start := height + first;
    var q, m := start / n, start % n;
    assert start == n * q + m;
    if i >= m {
      r := first + i - m;
      RemainderUnique(height + r, q, i, n);
    } else {
      r := first + i - m + n;
      assert n * (q + 1) == n * q + n;
      RemainderUnique(height + r, q + 1, i, n);
    }
  }
}
