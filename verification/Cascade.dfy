/** Where the re-entrant cascade of the handlers is not what it is elsewhere: with a single validator it never ends,
    and with two, three or six a tally may find two quorums, so that the order of counting matters. */
module Cascade {
  import opened Messages
  import opened Quorums
  import opened Protocol
  import opened Trace
  import opened Consensus
  import opened Replay
  import opened Runs
  import opened Engine
  import opened Factions
  import opened Disagreement
  import opened Counterexamples

  // ---- a single validator ----

  /** From entering a height to deciding it. */
  function LapSteps(p: Params, block: Block): seq<Action> {
    [Action.EnterRound(0), ProposeBlock, CastPrevote(block), LockOn(0), CastPrecommit(p.crypto.BlockHash(block)), Decide(0)]
  }

  /** From entering a round to giving it up. */
  function NilSteps(round: int, block: Block): seq<Action> {
    [Action.EnterRound(round), ProposeBlock, CastPrevote(block), CastPrecommit(NIL)]
  }

  /** The states before, between and after some steps, each of them allowed. */
  ghost predicate Passes(p: Params, me: Id, t: seq<Node>, steps: seq<Action>)
    requires p.N() > 0
  {
    && |t| == |steps| + 1
    && forall k :: 0 <= k < |steps| ==> Enabled(p, me, t[k], steps[k]) && t[k + 1] == Apply(p, me, t[k], steps[k])
  }

  /** Each step of the lap is the one the handlers call after the one before: the validator leads the round, acts on its
      own block, finds its own prevote a quorum, then its own precommit, and enters the next height. */
  ghost predicate Forced(p: Params, me: Id, t: seq<Node>, block: Block)
    requires p.N() > 0 && |t| == 7
  {
    var x := p.crypto.BlockHash(block);
    && Leads(p, me, t[0].height, 0)
    && OnBlock(p, me, t[2], block, 0) == [CastPrevote(block)]
    && HasQuorum(p, t[3].cs, 0, Prevote, x) && Reaction(p, me, t[3], 0, Prevote, x) == [LockOn(0), CastPrecommit(x)]
    && HasQuorum(p, t[5].cs, 0, Precommit, x) && Reaction(p, me, t[5], 0, Precommit, x) == [Decide(0), Action.EnterRound(0)]
  }

  /** Likewise, ending in the next round. */
  ghost predicate NilForced(p: Params, me: Id, t: seq<Node>, round: int, block: Block)
    requires p.N() > 0 && |t| == 5
  {
    && Leads(p, me, t[0].height, round)
    && OnBlock(p, me, t[2], block, round) == [CastPrevote(block)]
    && HasQuorum(p, t[3].cs, round, Prevote, NIL) && Reaction(p, me, t[3], round, Prevote, NIL) == [CastPrecommit(NIL)]
    && HasQuorum(p, t[4].cs, round, Precommit, NIL)
    && Reaction(p, me, t[4], round, Precommit, NIL) == [Action.EnterRound(round + 1)]
  }

  lemma OwnVoteIsQuorum(p: Params, me: Id, cs: HeightState, round: int, phase: Phase, x: Hash)
    requires p.N() == 1 && me in cs.BucketAt(round, phase) && cs.BucketAt(round, phase)[me].blockHash == x
    ensures HasQuorum(p, cs, round, phase, x)
  {
    assert me in cs.Voters(round, phase, x);
  }

  lemma AlwaysLeads(p: Params, me: Id, height: int, round: int)
    requires p.N() == 1 && me == p.validators[0]
    ensures Leads(p, me, height, round)
  {
  }

  ghost predicate AllVerify(p: Params, pool: seq<Transaction>) { forall tx :: tx in pool ==> p.crypto.TxVerifies(tx) }

  /** The proposal of a validator alone is valid when everything in its pool verifies, and only then. */
  lemma OwnBlockPassesIff(p: Params, me: Id, s: Node, round: int) returns (block: Block)
    requires p.N() == 1 && me == p.validators[0] && p.crypto.SignaturesCheck() && s.cs.valid.None? && s.cs.round == round
    ensures block == ProposedBlock(p, me, s) && block.transactions == s.mempool
    ensures ValidateBlock(p, s, block, round) <==> AllVerify(p, s.mempool)
  {
    block := ProposedBlock(p, me, s);
    assert block.header.Payload() == block.header.Payload().Payload();
  }

  lemma SameVerdict(p: Params, s: Node, s': Node, block: Block, round: int)
    requires p.N() > 0 && s'.height == s.height && s'.ledger == s.ledger && s'.store == s.store
    ensures ValidateBlock(p, s', block, round) == ValidateBlock(p, s, block, round)
  {
  }

  /** The validator proposes its pool and prevotes it. */
  lemma ProposesToItself(p: Params, me: Id, s: Node) returns (block: Block, s2: Node, s3: Node)
    requires p.N() == 1 && me == p.validators[0] && p.crypto.SignaturesCheck() && HashesAreNotNil(p.crypto)
    requires s.cs == FreshHeight && AllVerify(p, s.mempool)
    ensures p.crypto.BlockHash(block) != NIL && block.transactions == s.mempool && Leads(p, me, s.height, 0)
    ensures Enabled(p, me, s, Action.EnterRound(0)) && Apply(p, me, s, Action.EnterRound(0)) == s
    ensures Enabled(p, me, s, ProposeBlock) && s2 == Apply(p, me, s, ProposeBlock)
    ensures OnBlock(p, me, s2, block, 0) == [CastPrevote(block)]
    ensures Enabled(p, me, s2, CastPrevote(block)) && s3 == Apply(p, me, s2, CastPrevote(block))
    ensures s3 == s.(cs := FreshHeight.(step := PrevoteStep, proposals := map[0 := block],
              votes := map[Slot(0, Prevote) := map[me := Vote(me, s.height, 0, Prevote, p.crypto.BlockHash(block))]]))
  {
    block := OwnBlockPassesIff(p, me, s, 0);
    assert p.crypto.BlockHash(block) != NIL;
    hide ProposedBlock, ValidateBlock, HashesAreNotNil, Crypto.SignaturesCheck;
    s2 := Apply(p, me, s, ProposeBlock);
    SameVerdict(p, s, s2, block, 0);
    s3 := Apply(p, me, s2, CastPrevote(block));
  }

  lemma {:induction false} NothingRemains(mempool: seq<Transaction>, block: Block)
    requires forall tx :: tx in mempool ==> tx in block.transactions
    ensures Remaining(mempool, block) == []
  {
    if mempool != [] { NothingRemains(mempool[1..], block); }
  }

  /** It finds its prevote a quorum, locks, precommits, finds that a quorum, and decides. */
  lemma DecidesByItself(p: Params, me: Id, s: Node, block: Block) returns (s4: Node, s5: Node, s6: Node)
    requires p.N() == 1 && p.crypto.BlockHash(block) != NIL && s.mempool == block.transactions
    requires s.cs == FreshHeight.(step := PrevoteStep, proposals := map[0 := block],
               votes := map[Slot(0, Prevote) := map[me := Vote(me, s.height, 0, Prevote, p.crypto.BlockHash(block))]])
    ensures var x := p.crypto.BlockHash(block);
      && HasQuorum(p, s.cs, 0, Prevote, x) && Reaction(p, me, s, 0, Prevote, x) == [LockOn(0), CastPrecommit(x)]
      && Enabled(p, me, s, LockOn(0)) && s4 == Apply(p, me, s, LockOn(0))
      && Enabled(p, me, s4, CastPrecommit(x)) && s5 == Apply(p, me, s4, CastPrecommit(x))
      && HasQuorum(p, s5.cs, 0, Precommit, x) && Reaction(p, me, s5, 0, Precommit, x) == [Decide(0), Action.EnterRound(0)]
      && Enabled(p, me, s5, Decide(0)) && s6 == Apply(p, me, s5, Decide(0))
    ensures s6.cs == FreshHeight && s6.mempool == [] && s6.height == s.height + 1
  {
    hide HasQuorum;
    var x := p.crypto.BlockHash(block);
    NothingRemains(s.mempool, block);
    OwnVoteIsQuorum(p, me, s.cs, 0, Prevote, x);
    s4 := Apply(p, me, s, LockOn(0));
    OwnVoteIsQuorum(p, me, s4.cs, 0, Prevote, x);
    s5 := Apply(p, me, s4, CastPrecommit(x));
    OwnVoteIsQuorum(p, me, s5.cs, 0, Precommit, x);
    s6 := Apply(p, me, s5, Decide(0));
  }

  /** A lap around one height, from an untouched height to the next, which finalizes the whole pool. */
  lemma Lap(p: Params, me: Id, s: Node) returns (block: Block, t: seq<Node>)
    requires p.N() == 1 && me == p.validators[0] && p.crypto.SignaturesCheck() && HashesAreNotNil(p.crypto)
    requires s.cs == FreshHeight && AllVerify(p, s.mempool)
    ensures Passes(p, me, t, LapSteps(p, block)) && t[0] == s && Forced(p, me, t, block)
    ensures t[6].cs == FreshHeight && t[6].mempool == [] && t[6].height == s.height + 1
  {
    hide Enabled, Apply, HasQuorum, Reaction, OnBlock, HashesAreNotNil, Crypto.SignaturesCheck;
    var s2, s3, s4, s5, s6;
    block, s2, s3 := ProposesToItself(p, me, s);
    s4, s5, s6 := DecidesByItself(p, me, s3, block);
    t := [s, s, s2, s3, s4, s5, s6];
  }

  /** Before a round it will lead, with nothing locked and nothing seen of it. */
  ghost predicate ShortOf(s: Node, round: nat) {
    && !s.cs.decided && s.cs.locked.None? && s.cs.valid.None?
    && (if round == 0 then s.cs == FreshHeight else s.cs.round == round - 1)
    && (forall slot :: slot in s.cs.votes ==> slot.round < round)
    && (forall r :: r in s.cs.proposals ==> r < round)
  }

  /** Likewise within it, having prevoted NIL alone. */
  ghost predicate AgainstItself(s: Node, me: Id, round: nat) {
    && !s.cs.decided && s.cs.locked.None? && s.cs.valid.None? && s.cs.round == round && s.cs.step == PrevoteStep
    && s.cs.BucketAt(round, Prevote) == map[me := Vote(me, s.height, round, Prevote, NIL)]
    && s.cs.BucketAt(round, Precommit) == map[]
    && (forall slot :: slot in s.cs.votes ==> slot.round <= round)
    && (forall r :: r in s.cs.proposals ==> r <= round)
  }

  /** The validator proposes its pool, finds its own block invalid and prevotes against it. */
  lemma ProposesInVain(p: Params, me: Id, s: Node, round: nat) returns (block: Block, s1: Node, s2: Node, s3: Node)
    requires p.N() == 1 && me == p.validators[0] && p.crypto.SignaturesCheck()
    requires ShortOf(s, round) && !AllVerify(p, s.mempool)
    ensures Leads(p, me, s.height, round)
    ensures Enabled(p, me, s, Action.EnterRound(round)) && s1 == Apply(p, me, s, Action.EnterRound(round))
    ensures Enabled(p, me, s1, ProposeBlock) && s2 == Apply(p, me, s1, ProposeBlock)
    ensures OnBlock(p, me, s2, block, round) == [CastPrevote(block)]
    ensures Enabled(p, me, s2, CastPrevote(block)) && s3 == Apply(p, me, s2, CastPrevote(block))
    ensures AgainstItself(s3, me, round) && s3.mempool == s.mempool && s3.height == s.height
  {
    AlwaysLeads(p, me, s.height, round);
    s1 := Apply(p, me, s, Action.EnterRound(round));
    block := OwnBlockPassesIff(p, me, s1, round);
    hide ProposedBlock, ValidateBlock, Crypto.SignaturesCheck, AllVerify, Params.ProposerFor;
    s2 := Apply(p, me, s1, ProposeBlock);
    SameVerdict(p, s1, s2, block, round);
    assert Slot(round, Prevote) !in s2.cs.votes && Slot(round, Precommit) !in s2.cs.votes;
    s3 := Apply(p, me, s2, CastPrevote(block));
  }

  /** It finds its prevote a quorum, precommits NIL, finds that a quorum, and enters the next round. */
  lemma GivesUp(p: Params, me: Id, s: Node, round: nat) returns (s4: Node)
    requires p.N() == 1 && AgainstItself(s, me, round)
    ensures HasQuorum(p, s.cs, round, Prevote, NIL) && Reaction(p, me, s, round, Prevote, NIL) == [CastPrecommit(NIL)]
    ensures Enabled(p, me, s, CastPrecommit(NIL)) && s4 == Apply(p, me, s, CastPrecommit(NIL))
    ensures HasQuorum(p, s4.cs, round, Precommit, NIL)
    ensures Reaction(p, me, s4, round, Precommit, NIL) == [Action.EnterRound(round + 1)]
    ensures ShortOf(s4, round + 1) && s4.mempool == s.mempool && s4.height == s.height
  {
    hide HasQuorum;
    OwnVoteIsQuorum(p, me, s.cs, round, Prevote, NIL);
    s4 := Apply(p, me, s, CastPrecommit(NIL));
    OwnVoteIsQuorum(p, me, s4.cs, round, Precommit, NIL);
  }

  /** A round given up, when the pool holds something that does not verify: the validator prevotes against its own block. */
  lemma NilLap(p: Params, me: Id, s: Node, round: nat) returns (block: Block, t: seq<Node>)
    requires p.N() == 1 && me == p.validators[0] && p.crypto.SignaturesCheck()
    requires ShortOf(s, round) && !AllVerify(p, s.mempool)
    ensures Passes(p, me, t, NilSteps(round, block)) && t[0] == s && NilForced(p, me, t, round, block)
    ensures ShortOf(t[4], round + 1) && t[4].mempool == s.mempool && t[4].height == s.height
  {
    hide Apply, Enabled, HasQuorum, Reaction, OnBlock, ShortOf, AllVerify, Crypto.SignaturesCheck;
    var s1, s2, s3;
    block, s1, s2, s3 := ProposesInVain(p, me, s, round);
    var s4 := GivesUp(p, me, s3, round);
    t := [s, s1, s2, s3, s4];
  }

  lemma {:induction false} ExtendAll(p: Params, me: Id, base: Node, trace: seq<Action>, said: seq<Message>, t: seq<Node>, steps: seq<Action>)
    returns (said': seq<Message>)
    requires p.N() > 0 && Passes(p, me, t, steps) && forall a :: a in steps ==> !a.ReceiveVote?
    requires Reached(p, me, base, trace, t[0], said, [])
    ensures Reached(p, me, base, trace + steps, t[|steps|], said', [])
  {
    hide Reached;
    if steps == [] {
      said' := said;
      assert trace + steps == trace;
    } else {
      var k := |steps| - 1;
      assert steps == steps[..k] + [steps[k]];
      said' := ExtendAll(p, me, base, trace, said, t[..k + 1], steps[..k]);
      Extend(p, me, base, trace + steps[..k], t[k], said', [], steps[k]);
      said' := said' + Announced(p, me, t[k], steps[k]);
      assert [] + Taken(steps[k]) == [];
      assert trace + steps == trace + steps[..k] + [steps[k]];
    }
  }

  /** With a good pool, lap after lap, height after height. */
  lemma {:induction false} EndlessHeights(p: Params, me: Id, base: Node, laps: nat)
    returns (trace: seq<Action>, s: Node, said: seq<Message>)
    requires p.N() == 1 && me == p.validators[0] && p.crypto.SignaturesCheck() && HashesAreNotNil(p.crypto)
    requires IsBeginning(base) && AllVerify(p, base.mempool)
    ensures Reached(p, me, base, trace, s, said, []) && |trace| == 6 * laps
    ensures s.cs == FreshHeight && AllVerify(p, s.mempool) && s.height == base.height + laps
  {
    if laps == 0 {
      trace, s, said := [], base, [];
      ReachedAtFirst(p, me, base);
    } else {
      trace, s, said := EndlessHeights(p, me, base, laps - 1);
      hide Reached, HashesAreNotNil, Crypto.SignaturesCheck;
      var block, t := Lap(p, me, s);
      said := ExtendAll(p, me, base, trace, said, t, LapSteps(p, block));
      trace, s := trace + LapSteps(p, block), t[6];
    }
  }

  /** With something bad in the pool, round after round of one height. */
  lemma {:induction false} EndlessRounds(p: Params, me: Id, base: Node, laps: nat)
    returns (trace: seq<Action>, s: Node, said: seq<Message>)
    requires p.N() == 1 && me == p.validators[0] && p.crypto.SignaturesCheck()
    requires IsBeginning(base) && !AllVerify(p, base.mempool)
    ensures Reached(p, me, base, trace, s, said, []) && |trace| == 4 * laps
    ensures ShortOf(s, laps) && s.mempool == base.mempool && s.height == base.height
  {
    if laps == 0 {
      trace, s, said := [], base, [];
      ReachedAtFirst(p, me, base);
    } else {
      trace, s, said := EndlessRounds(p, me, base, laps - 1);
      hide Reached, Crypto.SignaturesCheck;
      var block, t := NilLap(p, me, s, laps - 1);
      said := ExtendAll(p, me, base, trace, said, t, NilSteps(laps - 1, block));
      trace, s := trace + NilSteps(laps - 1, block), t[4];
    }
  }

  /** A validator alone, whatever it begins with, never comes to an end with no message delivered: a good pool is
      finalized and one empty height decided after the other, a bad one makes it give up one round after the other. With
      two validators or more every handler ends, whatever it holds; that is the termination of the handlers. */
  lemma EndlessAlone(p: Params, me: Id, base: Node, laps: nat) returns (trace: seq<Action>, s: Node, said: seq<Message>)
    requires p.N() == 1 && me == p.validators[0] && p.crypto.SignaturesCheck() && HashesAreNotNil(p.crypto) && IsBeginning(base)
    ensures Reached(p, me, base, trace, s, said, []) && |trace| >= 4 * laps
    ensures if AllVerify(p, base.mempool) then s.height == base.height + laps else s.height == base.height && ShortOf(s, laps)
  {
    hide Reached;
    if AllVerify(p, base.mempool) {
      trace, s, said := EndlessHeights(p, me, base, laps);
    } else {
      trace, s, said := EndlessRounds(p, me, base, laps);
    }
  }

  // ---- two quorums in one bucket ----

  /** A validator about to tally its prevotes, with a quorum for the block it holds beside one for NIL. Counted first, the
      block is locked and precommitted; counted after NIL, it is locked while NIL was precommitted. */
  ghost predicate Torn(p: Params, me: Id, s: Node, round: int, x: Hash)
    requires p.N() > 0
  {
    && x != NIL && HasQuorum(p, s.cs, round, Prevote, x) && HasQuorum(p, s.cs, round, Prevote, NIL)
    && Reaction(p, me, s, round, Prevote, x) == [LockOn(round), CastPrecommit(x)]
    && Reaction(p, me, s, round, Prevote, NIL) == [CastPrecommit(NIL)]
    && Enabled(p, me, s, LockOn(round)) && Enabled(p, me, Apply(p, me, s, LockOn(round)), CastPrecommit(x))
    && Enabled(p, me, s, CastPrecommit(NIL))
    && EitherWay(p, me, Apply(p, me, Apply(p, me, s, LockOn(round)), CastPrecommit(x)),
                 Apply(p, me, s, CastPrecommit(NIL)), round, x)
  }

  ghost predicate EitherWay(p: Params, me: Id, blockFirst: Node, nilFirst: Node, round: int, x: Hash) {
    && Reaction(p, me, blockFirst, round, Prevote, NIL) == []
    && Reaction(p, me, nilFirst, round, Prevote, x) == [LockOn(round)]
    && me in blockFirst.cs.BucketAt(round, Precommit) && blockFirst.cs.BucketAt(round, Precommit)[me].blockHash == x
    && me in nilFirst.cs.BucketAt(round, Precommit) && nilFirst.cs.BucketAt(round, Precommit)[me].blockHash == NIL
  }

  /** About to tally: locked on nothing, its own prevote cast, no precommit. */
  ghost predicate AboutToTally(p: Params, me: Id, s: Node, round: int, x: Hash) {
    && s.cs.round == round && s.cs.step == PrevoteStep && s.cs.lockedRound == -1 <= round && x != NIL
    && round in s.cs.proposals && p.crypto.BlockHash(s.cs.proposals[round]) == x && me !in s.cs.BucketAt(round, Precommit)
  }

  lemma BlockFirst(p: Params, me: Id, s: Node, round: int, x: Hash) returns (locked: Node, t: Node)
    requires p.N() > 0 && AboutToTally(p, me, s, round, x) && HasQuorum(p, s.cs, round, Prevote, x)
    ensures Reaction(p, me, s, round, Prevote, x) == [LockOn(round), CastPrecommit(x)]
    ensures Enabled(p, me, s, LockOn(round)) && locked == Apply(p, me, s, LockOn(round))
    ensures Enabled(p, me, locked, CastPrecommit(x)) && t == Apply(p, me, locked, CastPrecommit(x))
    ensures Reaction(p, me, t, round, Prevote, NIL) == []
    ensures me in t.cs.BucketAt(round, Precommit) && t.cs.BucketAt(round, Precommit)[me].blockHash == x
  {
    hide HasQuorum;
    locked := Apply(p, me, s, LockOn(round));
    QuorumStays(p, s.cs, locked.cs, round, Prevote, x);
    t := Apply(p, me, locked, CastPrecommit(x));
  }

  lemma NilFirst(p: Params, me: Id, s: Node, round: int, x: Hash) returns (t: Node)
    requires p.N() > 0 && AboutToTally(p, me, s, round, x) && HasQuorum(p, s.cs, round, Prevote, NIL)
    ensures Reaction(p, me, s, round, Prevote, NIL) == [CastPrecommit(NIL)]
    ensures Enabled(p, me, s, CastPrecommit(NIL)) && t == Apply(p, me, s, CastPrecommit(NIL))
    ensures Reaction(p, me, t, round, Prevote, x) == [LockOn(round)]
    ensures me in t.cs.BucketAt(round, Precommit) && t.cs.BucketAt(round, Precommit)[me].blockHash == NIL
  {
    hide HasQuorum;
    t := Apply(p, me, s, CastPrecommit(NIL));
  }

  lemma IsTorn(p: Params, me: Id, s: Node, round: int, x: Hash)
    requires p.N() > 0 && HasQuorum(p, s.cs, round, Prevote, x) && HasQuorum(p, s.cs, round, Prevote, NIL)
    requires AboutToTally(p, me, s, round, x)
    ensures Torn(p, me, s, round, x)
  {
    var locked, blockFirst := BlockFirst(p, me, s, round, x);
    var nilFirst := NilFirst(p, me, s, round, x);
    hide HasQuorum, Reaction, Apply, Enabled;
    assert EitherWay(p, me, blockFirst, nilFirst, round, x);
  }

  lemma QuorumStays(p: Params, cs: HeightState, cs': HeightState, round: int, phase: Phase, x: Hash)
    requires p.N() > 0 && HasQuorum(p, cs, round, phase, x) && cs'.votes == cs.votes
    ensures HasQuorum(p, cs', round, phase, x)
  {
    assert cs'.Voters(round, phase, x) == cs.Voters(round, phase, x);
  }

  lemma TwoPiles(all: set<Id>, a: Id, c: Id, size: nat) returns (left: set<Id>, right: set<Id>)
    requires a in all && c in all && a != c && 1 <= size && 2 * size <= |all|
    ensures left !! right && left + right == all && |left| >= size && |right| >= size
    ensures a in left && c in right
  {
    assert |all - {a, c}| == |all| - 2;
    var more := TakeSubset(all - {a, c}, size - 1);
    left, right := {a} + more, all - ({a} + more);
    assert |left| == 1 + |more| && |all| == |left| + |right|;
  }

  /** The validators in two parts, each a quorum; the leader of a round in one, the torn validator in the other. */
  lemma TwoSides(cfg: Config) returns (left: set<Id>, right: set<Id>, a: Id, c: Id)
    requires cfg.Formed() && !cfg.params.Decisive()
    ensures left !! right && left + right == cfg.params.ValidatorSet()
    ensures |left| >= cfg.params.Quorum() && |right| >= cfg.params.Quorum()
    ensures a in left && c in right && cfg.Honest(a) && cfg.Honest(c)
  {
    a, c := TwoHonest(cfg);
    DistinctCount(cfg.params.validators);
    left, right := TwoPiles(cfg.params.ValidatorSet(), a, c, cfg.params.Quorum());
  }

  lemma LeftIsEnough(cfg: Config, left: set<Id>, right: set<Id>, members: set<Id>, odd: set<Id>, c: Id)
    requires cfg.Formed() && left !! right && left + right == cfg.params.ValidatorSet() && |left| >= cfg.params.Quorum()
    requires members == HonestSet(cfg) - {c} && odd == members * right && c in right
    ensures |members - odd| + |cfg.byzantine| >= cfg.params.Quorum()
  {
    hide FaultBound, QuorumSize, Params.WellFormed;
    var enough := (members - odd) + cfg.byzantine;
    forall v | v in left ensures v in enough {
      assert v in cfg.params.ValidatorSet();
    }
    SubsetSize(left, enough);
    hide HonestSet;
    assert |enough| <= |members - odd| + |cfg.byzantine|;
  }

  lemma SidesCanGroup(cfg: Config, left: set<Id>, right: set<Id>, members: set<Id>, odd: set<Id>, a: Id, c: Id, round: nat, tx: Transaction)
    requires cfg.Formed() && left !! right && left + right == cfg.params.ValidatorSet() && |left| >= cfg.params.Quorum()
    requires members == HonestSet(cfg) - {c} && odd == members * right
    requires a in left && c in right && cfg.Honest(a) && cfg.params.crypto.TxVerifies(tx)
    requires cfg.params.ProposerFor(0, round) == a
    ensures CanGroup(cfg, members, odd, round, [tx])
  {
    hide Params.ProposerFor, FaultBound, QuorumSize, Params.WellFormed;
    LeftIsEnough(cfg, left, right, members, odd, c);
    assert a in members - odd;
    hide Config.Formed, HonestSet, Config.Honest, Params.ValidatorSet;
    assert members <= HonestSet(cfg) && odd <= members;
  }

  /** All honest validators but the torn one: those on the left hold the block as proposed, the others unsigned copies. */
  lemma SidesFaction(cfg: Config, left: set<Id>, right: set<Id>, a: Id, c: Id, tx: Transaction) returns (f: Faction)
    requires cfg.Formed() && left !! right && left + right == cfg.params.ValidatorSet() && |left| >= cfg.params.Quorum()
    requires a in left && c in right && cfg.Honest(a) && cfg.Honest(c) && cfg.params.crypto.TxVerifies(tx)
    ensures f.Formed(cfg) && f.round > 0 && f.txs == [tx]
    ensures forall v :: v in f.members <==> cfg.Honest(v) && v != c
    ensures forall v :: v in f.odd <==> cfg.Honest(v) && v != c && v in right
  {
    hide Faction.Formed, CanGroup, Params.ProposerFor, FaultBound, QuorumSize, Params.WellFormed;
    var members := HonestSet(cfg) - {c};
    var odd := members * right;
    var round := LedRound(cfg, {a}, 0);
    assert forall v :: v in members <==> cfg.Honest(v) && v != c;
    hide HonestSet, Config.Honest;
    SidesCanGroup(cfg, left, right, members, odd, a, c, round, tx);
    GroupIsFormed(cfg, members, odd, round, [tx]);
    f := Group(cfg, members, odd, round, [tx]);
    hide Group;
  }

  /** The votes of one side, all for one hash, may be heard by the torn validator before it has voted. */
  lemma SideMayBeHeard(cfg: Config, g: System, c: Id, round: int, side: seq<Id>, hash: Hash)
    requires c in g.nodes && Distinct(side) && g.nodes[c].height == 0
    requires forall v :: v in side ==> v in cfg.params.validators && v !in g.nodes[c].cs.BucketAt(round, Prevote)
    requires forall v :: v in side && v != c && cfg.Honest(v) ==> Vote(v, 0, round, Prevote, hash) in g.sent
    ensures MayHear(cfg, true, g, c, Prevote, round, Votes(side, c, round, Prevote, hash))
  {
    VotesAre(side, c, round, Prevote, hash);
  }

  /** Where the torn validator is before it votes: come to the round, having heard the others. */
  ghost predicate Listening(s: Node, round: int) {
    && AtGenesis(s) && s.cs.round == round && s.cs.step == ProposeStep && s.cs.locked.None? && s.cs.lockedRound == -1
    && round !in s.cs.proposals && s.cs.BucketAt(round, Precommit) == map[]
  }

  /** The torn validator hears one side, then the other. */
  lemma HearsBoth(cfg: Config, g: System, c: Id, round: int, xs: seq<Id>, ys: seq<Id>, x: Hash, pool: seq<Transaction>)
    returns (g': System)
    requires Ready(cfg, true, g, c) && Idle(g.nodes[c], round, pool) && Distinct(xs) && Distinct(ys)
    requires c !in xs && c in ys && (forall v :: v in xs ==> v !in ys)
    requires forall v :: v in xs || v in ys ==> v in cfg.params.validators
    requires forall v :: v in xs && cfg.Honest(v) ==> Vote(v, 0, round, Prevote, x) in g.sent
    requires forall v :: v in ys && v != c && cfg.Honest(v) ==> Vote(v, 0, round, Prevote, NIL) in g.sent
    ensures Ready(cfg, true, g', c) && Listening(g'.nodes[c], round) && c !in g'.nodes[c].cs.BucketAt(round, Prevote)
    ensures var bucket := g'.nodes[c].cs.BucketAt(round, Prevote);
      && (forall v :: v in xs ==> v in bucket && bucket[v].blockHash == x)
      && (forall v :: v in ys && v != c ==> v in bucket && bucket[v].blockHash == NIL)
  {
    var cs := g.nodes[c].cs;
    assert Slot(round, Prevote) !in cs.votes && Slot(round, Precommit) !in cs.votes;
    var left, right := Votes(xs, c, round, Prevote, x), Votes(ys, c, round, Prevote, NIL);
    SideMayBeHeard(cfg, g, c, round, xs, x);
    VotesAre(xs, c, round, Prevote, x);
    VotesAre(ys, c, round, Prevote, NIL);
    PutAllIs(cs, Prevote, round, left);
    AddedAre(map[], left);
    hide CanReach, PutAll, Added, Votes;
    g' := HearAll(cfg, true, g, c, Prevote, round, left);
    SideMayBeHeard(cfg, g', c, round, ys, NIL);
    PutAllIs(g'.nodes[c].cs, Prevote, round, right);
    AddedAre(g'.nodes[c].cs.BucketAt(round, Prevote), right);
    g' := HearAll(cfg, true, g', c, Prevote, round, right);
  }

  lemma PrevotesAgainst(p: Params, c: Id, s: Node, round: nat, block: Block)
    requires p.N() > 0 && Listening(s, round) && PrevoteFor(p, s, block) == NIL && p.crypto.BlockHash(block) != NIL
    ensures var s' := Prevoted(p, c, s, block);
      && AboutToTally(p, c, s', round, p.crypto.BlockHash(block))
      && s'.cs.BucketAt(round, Prevote) == s.cs.BucketAt(round, Prevote)[c := Vote(c, 0, round, Prevote, NIL)]
  {
    hide PrevoteFor;
  }

  /** Then the block reaches it, rebuilt from an unsigned copy, and its own prevote against it tears it. */
  lemma VotesLast(cfg: Config, g: System, f: Faction, c: Id, xs: seq<Id>, ys: seq<Id>) returns (g': System)
    requires Ready(cfg, true, g, c) && f.Formed(cfg) && Ideal(cfg.params.crypto) && f.txs != []
    requires Listening(g.nodes[c], f.round) && c !in g.nodes[c].cs.BucketAt(f.round, Prevote)
    requires c !in xs && c in ys && Distinct(xs) && Distinct(ys) && |xs| >= cfg.params.Quorum() && |ys| >= cfg.params.Quorum()
    requires var bucket := g.nodes[c].cs.BucketAt(f.round, Prevote);
      && (forall v :: v in xs ==> v in bucket && bucket[v].blockHash == f.Hash(cfg.params))
      && (forall v :: v in ys && v != c ==> v in bucket && bucket[v].blockHash == NIL)
    ensures CanReach(cfg, true, g') && c in g'.nodes && Torn(cfg.params, c, g'.nodes[c], f.round, f.Hash(cfg.params))
  {
    var p, s, block := cfg.params, g.nodes[c], Unsigned(f.Block(cfg.params));
    FirstBlockPasses(p, s, f.round, f.txs);
    UnsignedFails(p, s, f.Block(p), f.round);
    hide CanReach, FirstBlock, AcceptHeader, ValidateBlock, PrevoteFor, HasQuorum, Torn, Unsigned, Faction.Formed;
    PrevotesAgainst(p, c, s, f.round, block);
    hide AboutToTally, Prevoted, CastVote;
    g' := SeeBlock(cfg, true, g, c, block);
    QuorumOf(p, g'.nodes[c].cs, f.round, Prevote, xs, f.Hash(p));
    QuorumOf(p, g'.nodes[c].cs, f.round, Prevote, ys, NIL);
    IsTorn(p, c, g'.nodes[c], f.round, f.Hash(p));
  }

  /** The others prevote; the torn one comes to the round with an unsigned copy in its pool and hears both sides. */
  lemma HearsSides(cfg: Config, f: Faction, c: Id, xs: seq<Id>, ys: seq<Id>) returns (g: System)
    requires cfg.Formed() && Ideal(cfg.params.crypto) && f.Formed(cfg) && f.round > 0 && |f.txs| == 1
    requires cfg.Honest(c) && c !in f.members && c !in xs && c in ys && Distinct(xs) && Distinct(ys)
    requires forall v :: v in xs || v in ys ==> v in cfg.params.validators && (cfg.Honest(v) && v != c ==> v in f.members)
    requires forall v :: v in xs ==> v !in ys && v !in f.odd
    requires forall v :: v in ys && v in f.members ==> v in f.odd
    ensures Ready(cfg, true, g, c) && Listening(g.nodes[c], f.round) && c !in g.nodes[c].cs.BucketAt(f.round, Prevote)
    ensures var bucket := g.nodes[c].cs.BucketAt(f.round, Prevote);
      && (forall v :: v in xs ==> v in bucket && bucket[v].blockHash == f.Hash(cfg.params))
      && (forall v :: v in ys && v != c ==> v in bucket && bucket[v].blockHash == NIL)
  {
    WaitsAtStart(cfg, true, f);
    AllStart(cfg);
    var copy := f.(odd := {c});
    hide CanReach, Passing, Start, AllIdle, HasPrevoted, Faction.Formed, Config.Formed, Idle, FirstBlock, Listening;
    g := AllCome(cfg, true, Start(cfg), f);
    g := Prevotes(cfg, true, g, f);
    g := OneComes(cfg, true, g, copy, c);
    forall v | v in xs && cfg.Honest(v) ensures Vote(v, 0, f.round, Prevote, f.Hash(cfg.params)) in g.sent {
      assert f.PrevoteOf(cfg.params, v) in g.sent;
    }
    forall v | v in ys && v != c && cfg.Honest(v) ensures Vote(v, 0, f.round, Prevote, NIL) in g.sent {
      assert f.PrevoteOf(cfg.params, v) in g.sent;
    }
    g := HearsBoth(cfg, g, c, f.round, xs, ys, f.Hash(cfg.params), copy.Pool(c));
  }

  /** With two, three or six validators, whichever of them are faulty, a run leads an honest validator to two quorums in
      one bucket, where counting one first or the other makes it cast a different vote. */
  lemma OrderMatters(cfg: Config, tx: Transaction) returns (g: System, c: Id, round: int, x: Hash)
    requires cfg.Formed() && !cfg.params.Decisive() && Ideal(cfg.params.crypto) && cfg.params.crypto.TxVerifies(tx)
    ensures Reachable(cfg, g) && cfg.Honest(c) && c in g.nodes && Torn(cfg.params, c, g.nodes[c], round, x)
  {
    var left, right, a;
    left, right, a, c := TwoSides(cfg);
    var f := SidesFaction(cfg, left, right, a, c, tx);
    var ids := cfg.params.validators;
    var xs, ys := Picked(ids, left), Picked(ids, right);
    PickedAre(ids, left);
    PickedAre(ids, right);
    PickedSize(ids, left);
    PickedSize(ids, right);
    round, x := f.round, f.Hash(cfg.params);
    hide CanReach, Ideal, Picked, Listening, Torn, Faction.Formed, FirstBlock;
    g := HearsSides(cfg, f, c, xs, ys);
    g := VotesLast(cfg, g, f, c, xs, ys);
  }

  /** In some reachable state an honest validator holds two quorums in one bucket. */
  ghost predicate CanBeTorn(cfg: Config)
    requires cfg.Formed()
  {
    exists g, v, round, phase, x, y :: Reachable(cfg, g) && cfg.Honest(v) && v in g.nodes && x != y &&
      HasQuorum(cfg.params, g.nodes[v].cs, round, phase, x) && HasQuorum(cfg.params, g.nodes[v].cs, round, phase, y)
  }

  /** Exactly with two, three or six validators. */
  lemma TornIff(cfg: Config, tx: Transaction)
    requires cfg.Formed() && Ideal(cfg.params.crypto) && cfg.params.crypto.TxVerifies(tx)
    ensures CanBeTorn(cfg) <==> cfg.params.N() in {2, 3, 6}
  {
    OneQuorumIff(cfg.params);
    if cfg.params.Decisive() {
      forall g, v, round, phase, x, y | Reachable(cfg, g) && cfg.Honest(v) && v in g.nodes &&
        HasQuorum(cfg.params, g.nodes[v].cs, round, phase, x) && HasQuorum(cfg.params, g.nodes[v].cs, round, phase, y)
        ensures x == y
      {
        ReachableIsOk(cfg, g);
        OneQuorumPerBucket(cfg.params, g.nodes[v], round, phase, x, y);
      }
    } else {
      var g, c, round, x := OrderMatters(cfg, tx);
      assert HasQuorum(cfg.params, g.nodes[c].cs, round, Prevote, x) && HasQuorum(cfg.params, g.nodes[c].cs, round, Prevote, NIL);
    }
  }
}
