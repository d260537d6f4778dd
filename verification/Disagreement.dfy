/** When agreement holds, and with it lock persistence and one quorum per slot. The engine accepts any number of validators
    and computes its fault bound and quorum from it; whether all runs agree depends on that number and on how many
    validators are faulty. */
module Disagreement {
  import opened Messages
  import opened Quorums
  import opened Protocol
  import opened Consensus
  import opened Rotation
  import opened Safety
  import opened Runs
  import opened Factions

  // ---- two factions ----

  /** The honest validators in two parts, each a quorum together with the faulty ones, when two quorums need not share
      an honest validator. */
  lemma TwoParts(cfg: Config) returns (a: set<Id>, b: set<Id>)
    requires cfg.Formed() && !cfg.Valid()
    ensures a <= HonestSet(cfg) && b == HonestSet(cfg) - a && a != {} && b != {}
    ensures |a| + |cfg.byzantine| >= cfg.params.Quorum() && |b| + |cfg.byzantine| >= cfg.params.Quorum()
  {
    HonestSize(cfg);
    a := TakeSubset(HonestSet(cfg), cfg.params.Quorum() - |cfg.byzantine|);
    b := HonestSet(cfg) - a;
    assert |HonestSet(cfg)| == |a| + |b|;
  }

  /** A round after a given one that some validator of a part leads. */
  lemma LedRound(cfg: Config, part: set<Id>, after: nat) returns (round: nat)
    requires cfg.Formed() && part <= HonestSet(cfg) && part != {}
    ensures round > after && cfg.params.ProposerFor(0, round) in part
  {
    var v :| v in part;
    var r := EachProposesOnce(cfg.params, 0, after + 1, v);
    round := r;
  }

  /** A part that is a quorum together with the faulty ones forms a faction in a round it leads. */
  lemma LedGroup(cfg: Config, part: set<Id>, after: nat) returns (f: Faction)
    requires cfg.Formed() && part <= HonestSet(cfg) && part != {} && |part| + |cfg.byzantine| >= cfg.params.Quorum()
    ensures f.Formed(cfg) && f.round > after && f.txs == [] && f.odd == {} && forall v :: v in f.members <==> v in part
  {
    var round := LedRound(cfg, part, after);
    hide Faction.Formed, HonestSet, Params.ProposerFor, Config.Formed, QuorumSize, FaultBound;
    assert part - {} == part;
    GroupIsFormed(cfg, part, {}, round, []);
    f := Group(cfg, part, {}, round, []);
  }

  /** One faction finalizes a block in one round, then another one a block in a later round. */
  lemma BothDecide(cfg: Config, first: Faction, second: Faction) returns (g: System)
    requires cfg.Formed() && Ideal(cfg.params.crypto) && first.Formed(cfg) && second.Formed(cfg)
    requires first.txs == [] == second.txs && first.odd == {} == second.odd && 0 < first.round < second.round
    requires forall v :: v in first.members ==> v !in second.members
    ensures CanReach(cfg, true, g) && first.members[0] in g.nodes && second.members[0] in g.nodes
    ensures g.nodes[first.members[0]].ledger == [first.Block(cfg.params)]
    ensures g.nodes[second.members[0]].ledger == [second.Block(cfg.params)]
  {
    WaitsAtStart(cfg, true, first);
    WaitsAtStart(cfg, true, second);
    hide CanReach, Start, Ideal, FirstBlock, Faction.Formed, Config.Formed, Waiting;
    var g1 := ComesAndDecides(cfg, true, Start(cfg), first);
    StillWaits(cfg, true, Start(cfg), g1, second, first.members);
    g := ComesAndDecides(cfg, true, g1, second);
  }

  lemma TwoFactions(cfg: Config) returns (first: Faction, second: Faction)
    requires cfg.Formed() && !cfg.Valid()
    ensures first.Formed(cfg) && second.Formed(cfg) && 0 < first.round < second.round
    ensures first.txs == [] == second.txs && first.odd == {} == second.odd
    ensures forall v :: v in first.members ==> v !in second.members
  {
    hide Faction.Formed, HonestSet, Config.Formed, QuorumSize, FaultBound;
    var a, b := TwoParts(cfg);
    first := LedGroup(cfg, a, 0);
    second := LedGroup(cfg, b, first.round);
  }

  /** Whenever two quorums need not share an honest validator, two honest validators can finalize different blocks. */
  lemma Disagree(cfg: Config)
    requires cfg.Formed() && !cfg.Valid() && Ideal(cfg.params.crypto)
    ensures !AlwaysAgree(cfg, true)
  {
    var first, second := TwoFactions(cfg);
    var g := BothDecide(cfg, first, second);
    hide AlwaysAgree, CanReach, FirstBlock;
    Refuted(cfg, true, g, first.members[0], second.members[0], first.round, second.round);
  }

  /** Agreement holds in every run exactly when two quorums are together more than all validators and the faulty ones
      once more. */
  lemma AgreementIff(cfg: Config)
    requires cfg.Formed() && Ideal(cfg.params.crypto)
    ensures AlwaysAgree(cfg, true) <==> 2 * cfg.params.Quorum() > cfg.params.N() + |cfg.byzantine|
  {
    if cfg.Valid() { AgreesWhenSafe(cfg); } else { Disagree(cfg); }
  }

  // ---- the same for quorums in a slot and for locks ----

  /** Two honest validators, each at some time of a run and at the same height, count a quorum. */
  ghost predicate BothCount(cfg: Config, states: seq<System>, moves: seq<Move>, a: nat, v: Id, r: int, phase: Phase, x: Hash,
                            b: nat, w: Id, r': int, phase': Phase, y: Hash)
    requires cfg.Formed()
  {
    && IsRun(cfg, states, moves) && a < |states| && b < |states|
    && cfg.Honest(v) && cfg.Honest(w) && v in states[a].nodes && w in states[b].nodes
    && states[a].nodes[v].height == states[b].nodes[w].height
    && HasQuorum(cfg.params, states[a].nodes[v].cs, r, phase, x) && HasQuorum(cfg.params, states[b].nodes[w].cs, r', phase', y)
  }

  /** No two of them ever count quorums for different hashes in one slot. */
  ghost predicate SlotsAgree(cfg: Config)
    requires cfg.Formed()
  {
    forall states, moves, a, v, x, b, w, y, round, phase ::
      BothCount(cfg, states, moves, a, v, round, phase, x, b, w, round, phase, y) ==> x == y
  }

  /** Nor a precommit quorum for a block and a prevote quorum for another one in a later round. */
  ghost predicate LocksPersist(cfg: Config)
    requires cfg.Formed()
  {
    forall states, moves, a, v, round, x, b, w, later, y ::
      BothCount(cfg, states, moves, a, v, round, Precommit, x, b, w, later, Prevote, y) && round < later && x != NIL && y != NIL
      ==> x == y
  }

  lemma CountedAtOnce(cfg: Config, g: System, v: Id, r: int, phase: Phase, x: Hash, w: Id, r': int, phase': Phase, y: Hash)
    returns (states: seq<System>, moves: seq<Move>)
    requires cfg.Formed() && CanReach(cfg, true, g) && cfg.Honest(v) && cfg.Honest(w) && v in g.nodes && w in g.nodes
    requires g.nodes[v].height == g.nodes[w].height
    requires HasQuorum(cfg.params, g.nodes[v].cs, r, phase, x) && HasQuorum(cfg.params, g.nodes[w].cs, r', phase', y)
    ensures BothCount(cfg, states, moves, |moves|, v, r, phase, x, |moves|, w, r', phase', y)
  {
    states, moves :| IsRunUnder(cfg, true, states, moves) && states[|moves|] == g;
  }

  /** One faction precommits a block; then the other prevotes another. */
  lemma LockForgotten(cfg: Config, first: Faction, second: Faction) returns (g: System)
    requires cfg.Formed() && Ideal(cfg.params.crypto) && first.Formed(cfg) && second.Formed(cfg)
    requires first.txs == [] == second.txs && first.odd == {} == second.odd && 0 < first.round < second.round
    requires forall v :: v in first.members ==> v !in second.members
    ensures var (v, w) := (first.members[0], second.members[0]);
      && CanReach(cfg, true, g) && v in g.nodes && w in g.nodes && g.nodes[v].height == g.nodes[w].height
      && HasQuorum(cfg.params, g.nodes[v].cs, first.round, Precommit, first.Hash(cfg.params))
      && HasQuorum(cfg.params, g.nodes[w].cs, second.round, Prevote, second.Hash(cfg.params))
  {
    var w := second.members[0];
    assert w !in first.members;
    hide CanReach, Start, Ideal, Faction.Formed, Faction.Hash, Faction.PrevoteOf, HasQuorum, HasPrevoted, Waiting, Standing;
    WaitsAtStart(cfg, true, first);
    WaitsAtStart(cfg, true, second);
    var g1 := ComesAndPrecommits(cfg, Start(cfg), first);
    StillWaits(cfg, true, Start(cfg), g1, second, first.members);
    g := ComesAndPrevotes(cfg, g1, second);
  }

  /** Locks persist in every run exactly when two quorums always share an honest validator. */
  lemma LocksPersistIff(cfg: Config)
    requires cfg.Formed() && Ideal(cfg.params.crypto)
    ensures LocksPersist(cfg) <==> 2 * cfg.params.Quorum() > cfg.params.N() + |cfg.byzantine|
  {
    if cfg.Valid() {
      forall states, moves, a, v, round, x, b, w, later, y |
        BothCount(cfg, states, moves, a, v, round, Precommit, x, b, w, later, Prevote, y) && round < later && x != NIL && y != NIL
        ensures x == y
      {
        LockPersistence(cfg, states, moves, a, v, round, x, b, w, later, y);
      }
    } else {
      var first, second := TwoFactions(cfg);
      var g := LockForgotten(cfg, first, second);
      FirstBlocksDiffer(cfg.params, first.round, second.round);
      var v, w, x, y := first.members[0], second.members[0], first.Hash(cfg.params), second.Hash(cfg.params);
      var states, moves := CountedAtOnce(cfg, g, v, first.round, Precommit, x, w, second.round, Prevote, y);
      assert BothCount(cfg, states, moves, |moves|, v, first.round, Precommit, x, |moves|, w, second.round, Prevote, y);
    }
  }

  /** All honest validators in a round that one part leads, with a transaction of which the others hold unsigned copies. */
  lemma SplitFaction(cfg: Config, tx: Transaction) returns (f: Faction, against: seq<Id>, c: Id)
    requires cfg.Formed() && !cfg.Valid() && cfg.params.crypto.TxVerifies(tx)
    ensures f.Formed(cfg) && f.round > 0 && f.txs == [tx] && f.members[0] !in f.odd
    ensures Against(cfg, f, against) && c in against && c in f.odd && c in f.members
  {
    var a, b := TwoParts(cfg);
    var round := LedRound(cfg, a, 0);
    c :| c in b;
    assert HonestSet(cfg) - b == a;
    GroupIsFormed(cfg, HonestSet(cfg), b, round, [tx]);
    f := Group(cfg, HonestSet(cfg), b, round, [tx]);
    against := Picked(cfg.params.validators, b + cfg.byzantine);
    PickedAre(cfg.params.validators, b + cfg.byzantine);
    PickedSize(cfg.params.validators, b + cfg.byzantine);
  }

  /** Each part counts a quorum of its own in one slot: one for the block, the other against it. */
  lemma SlotSplit(cfg: Config, f: Faction, against: seq<Id>, c: Id) returns (g: System)
    requires cfg.Formed() && Ideal(cfg.params.crypto) && f.Formed(cfg) && f.round > 0 && |f.txs| == 1 && f.members[0] !in f.odd
    requires Against(cfg, f, against) && c in against && c in f.odd && c in f.members
    ensures var v := f.members[0];
      && CanReach(cfg, true, g) && v in g.nodes && c in g.nodes && g.nodes[v].height == g.nodes[c].height
      && HasQuorum(cfg.params, g.nodes[v].cs, f.round, Prevote, f.Hash(cfg.params))
      && HasQuorum(cfg.params, g.nodes[c].cs, f.round, Prevote, NIL)
  {
    WaitsAtStart(cfg, true, f);
    hide CanReach, Start, Ideal, Faction.Formed, Faction.Hash, Config.Formed, HasQuorum, HasPrevoted, Waiting, Against, Faction.PrevoteOf;
    g := ComesAndPrevotes(cfg, Start(cfg), f);
    g := HearsAgainst(cfg, g, f, c, against);
  }

  /** No two honest validators ever count quorums for different hashes in one slot, exactly when two quorums always share
      an honest validator. */
  lemma SlotsAgreeIff(cfg: Config, tx: Transaction)
    requires cfg.Formed() && Ideal(cfg.params.crypto) && cfg.params.crypto.TxVerifies(tx)
    ensures SlotsAgree(cfg) <==> 2 * cfg.params.Quorum() > cfg.params.N() + |cfg.byzantine|
  {
    if cfg.Valid() {
      forall states, moves, a, v, x, b, w, y, round, phase |
        BothCount(cfg, states, moves, a, v, round, phase, x, b, w, round, phase, y)
        ensures x == y
      {
        OneQuorumEverywhere(cfg, states, moves, a, v, x, b, w, y, round, phase);
      }
    } else {
      var f, against, c := SplitFaction(cfg, tx);
      var g := SlotSplit(cfg, f, against, c);
      var v, x := f.members[0], f.Hash(cfg.params);
      var states, moves := CountedAtOnce(cfg, g, v, f.round, Prevote, x, c, f.round, Prevote, NIL);
      assert BothCount(cfg, states, moves, |moves|, v, f.round, Prevote, x, |moves|, c, f.round, Prevote, NIL);
    }
  }

  /** Whoever the faulty validators are, as many as the bound allows: exactly when n = 3f+1. */
  lemma AgreementForAllIff(p: Params)
    requires p.WellFormed() && Ideal(p.crypto)
    ensures (forall byzantine :: Config(p, byzantine).Formed() ==> AlwaysAgree(Config(p, byzantine), true)) <==> p.N() % 3 == 1
  {
    if p.N() % 3 == 1 {
      forall byzantine | Config(p, byzantine).Formed() ensures AlwaysAgree(Config(p, byzantine), true) {
        AgreementIff(Config(p, byzantine));
      }
    } else {
      DistinctCount(p.validators);
      var byzantine := TakeSubset(p.ValidatorSet(), p.F());
      AgreementIff(Config(p, byzantine));
    }
  }

  /** The shipped number of validators, of which the bound allows two to be faulty, is safe with one. */
  lemma EightIff(cfg: Config)
    requires cfg.Formed() && cfg.params.N() == 8 && Ideal(cfg.params.crypto)
    ensures AlwaysAgree(cfg, true) <==> |cfg.byzantine| <= 1
  {
    AgreementIff(cfg);
  }
}
