/** A group of validators that finalizes a block of its own at the first height, while the others hear nothing of it.
    The runs that show which hypotheses agreement needs are put together from such groups. */
module Factions {
  import opened Messages
  import opened Quorums
  import opened Execution
  import opened Protocol
  import opened Consensus
  import opened Runs

  /** An honest validator in a round of the first height, unlocked, that has heard and seen nothing of that round. */
  ghost predicate Idle(s: Node, round: int, pool: seq<Transaction>) {
    && AtGenesis(s) && s.mempool == pool && s.cs.round == round && s.cs.step == ProposeStep
    && s.cs.locked.None? && s.cs.lockedRound == -1 && s.cs.valid.None? && s.cs.validRound == -1
    && (forall slot :: slot in s.cs.votes ==> slot.round < round)
    && (forall r :: r in s.cs.proposals ==> r < round)
  }

  /** Only the given validators moved, and nothing sent was unsaid. */
  ghost predicate OnlyMoved(g: System, g': System, movers: seq<Id>) {
    && g'.nodes.Keys == g.nodes.Keys && (forall v :: v in g.sent ==> v in g'.sent)
    && forall v :: v in g.nodes && v !in movers ==> g'.nodes[v] == g.nodes[v]
  }

  /** The same transactions without their signatures, and so with the same hashes. */
  function Stripped(txs: seq<Transaction>): (r: seq<Transaction>)
    ensures |r| == |txs| && forall i :: 0 <= i < |txs| ==> r[i] == txs[i].Payload()
  {
    seq(|txs|, i requires 0 <= i < |txs| => txs[i].Payload())
  }

  /** A block as rebuilt from a pool that holds unsigned copies of its transactions. */
  function Unsigned(block: Block): Block { block.(transactions := Stripped(block.transactions)) }

  /** Such a block answers to the same header and the same transaction hashes, but fails validation in every round,
      and is prevoted against. */
  lemma UnsignedFails(p: Params, s: Node, block: Block, round: int)
    requires p.N() > 0 && block.transactions != []
    ensures p.crypto.BlockHash(Unsigned(block)) == p.crypto.BlockHash(block)
    ensures p.crypto.TxHashes(Unsigned(block).transactions) == p.crypto.TxHashes(block.transactions)
    ensures AcceptHeader(p, s, Unsigned(block).header, round) == AcceptHeader(p, s, block.header, round)
    ensures !ValidateBlock(p, s, Unsigned(block), round)
    ensures PrevoteFor(p, s, Unsigned(block)) == NIL
  {
    var txs := Unsigned(block).transactions;
    assert txs[0] == block.transactions[0].Payload() && txs[0] in txs && !p.crypto.TxVerifies(txs[0]);
    assert p.crypto.TxHashes(txs) == p.crypto.TxHashes(block.transactions) by {
      forall i | 0 <= i < |txs| ensures p.crypto.TxHash(txs[i]) == p.crypto.TxHash(block.transactions[i]) {
        assert txs[i].Payload() == block.transactions[i].Payload();
      }
    }
  }

  /** Honest members who act in a round, and the voters each of them hears: those members that hold the block as it was
      proposed, and faulty validators, enough for a quorum. The proposer, if honest, acts first and holds its block.
      The odd members rebuilt it from unsigned copies. */
  datatype Faction = Faction(members: seq<Id>, voters: seq<Id>, round: nat, txs: seq<Transaction>, odd: set<Id>) {
    ghost predicate Formed(cfg: Config)
      requires cfg.Formed()
    {
      var proposer := cfg.params.ProposerFor(0, round);
      && members != [] && Distinct(members) && Distinct(voters) && |voters| >= cfg.params.Quorum()
      && (forall v :: v in members ==> cfg.Honest(v) && (v in voters <==> v !in odd))
      && (forall v :: v in voters ==> v in cfg.params.validators && (cfg.Honest(v) ==> v in members))
      && (cfg.Honest(proposer) ==> members[0] == proposer && proposer !in odd)
      && (odd != {} ==> txs != [])
      && (forall tx :: tx in txs ==> cfg.params.crypto.TxVerifies(tx))
    }

    function Block(p: Params): Messages.Block requires p.N() > 0 { FirstBlock(p, round, txs) }

    function Hash(p: Params): Messages.Hash requires p.N() > 0 { p.crypto.BlockHash(Block(p)) }

    /** What is in the pool of a member, and what it makes of the proposal. */
    function Pool(v: Id): seq<Transaction> { if v in odd then Stripped(txs) else txs }

    function Held(p: Params, v: Id): Messages.Block requires p.N() > 0 {
      if v in odd then Unsigned(Block(p)) else Block(p)
    }

    function VoteOf(p: Params, v: Id, phase: Phase): Vote requires p.N() > 0 { Vote(v, 0, round, phase, Hash(p)) }

    /** What a member prevotes: an odd one finds its block invalid. */
    function PrevoteOf(p: Params, v: Id): Vote requires p.N() > 0 {
      Vote(v, 0, round, Prevote, if v in odd then NIL else Hash(p))
    }
  }

  ghost predicate Ideal(c: Crypto) { c.CollisionFree() && c.SignaturesCheck() && HashesAreNotNil(c) }

  ghost predicate Standing(cfg: Config, compared: bool, g: System, f: Faction) {
    && cfg.Formed() && f.Formed(cfg) && Ideal(cfg.params.crypto) && CanReach(cfg, compared, g)
    && forall v :: v in f.members ==> v in g.nodes
  }

  /** The members that count have cast this kind of vote. */
  ghost predicate AllVoted(p: Params, f: Faction, sent: seq<Vote>, phase: Phase)
    requires p.N() > 0
  {
    forall v :: v in f.members && v !in f.odd ==> f.VoteOf(p, v, phase) in sent
  }

  lemma VotesStay(p: Params, f: Faction, sent: seq<Vote>, more: seq<Vote>, phase: Phase)
    requires p.N() > 0 && AllVoted(p, f, sent, phase) && forall v :: v in sent ==> v in more
    ensures AllVoted(p, f, more, phase)
  {
  }

  ghost predicate AllIdle(g: System, f: Faction) {
    forall v :: v in f.members ==> v in g.nodes && Idle(g.nodes[v], f.round, f.Pool(v))
  }

  // ---- prevotes ----

  /** Having prevoted and heard nothing. */
  ghost predicate HasPrevoted(p: Params, f: Faction, s: Node, me: Id)
    requires p.N() > 0
  {
    && AtGenesis(s) && s.mempool == f.Pool(me) && s.cs.round == f.round && s.cs.step == PrevoteStep
    && s.cs.locked.None? && s.cs.lockedRound == -1 && s.cs.valid.None? && s.cs.validRound == -1
    && f.round in s.cs.proposals && s.cs.proposals[f.round] == f.Held(p, me)
    && s.cs.BucketAt(f.round, Prevote) == map[me := f.PrevoteOf(p, me)] && s.cs.BucketAt(f.round, Precommit) == map[]
    && (forall slot :: slot in s.cs.votes ==> slot.round <= f.round)
    && (forall r :: r in s.cs.proposals ==> r <= f.round)
  }

  lemma PrevotedIs(p: Params, f: Faction, s: Node, me: Id)
    requires p.N() > 0 && Idle(s, f.round, f.Pool(me)) && PrevoteFor(p, s, f.Held(p, me)) == f.PrevoteOf(p, me).blockHash
    ensures HasPrevoted(p, f, Prevoted(p, me, s, f.Held(p, me)), me)
    ensures CastVote(me, s, Prevote, PrevoteFor(p, s, f.Held(p, me))) == f.PrevoteOf(p, me)
  {
    hide FirstBlock, PrevoteFor;
    assert Slot(f.round, Prevote) !in s.cs.votes && Slot(f.round, Precommit) !in s.cs.votes;
  }

  lemma WhatToPrevote(cfg: Config, f: Faction, s: Node, me: Id)
    requires cfg.Formed() && f.Formed(cfg) && Ideal(cfg.params.crypto)
    requires AtGenesis(s) && s.cs.round == f.round && s.cs.locked.None?
    ensures AcceptHeader(cfg.params, s, f.Held(cfg.params, me).header, f.round)
    ensures PrevoteFor(cfg.params, s, f.Held(cfg.params, me)) == f.PrevoteOf(cfg.params, me).blockHash
  {
    FirstBlockPasses(cfg.params, s, f.round, f.txs);
    if me in f.odd { UnsignedFails(cfg.params, s, f.Block(cfg.params), f.round); }
  }

  lemma OnePrevotes(cfg: Config, compared: bool, g: System, f: Faction, me: Id) returns (g': System)
    requires Standing(cfg, compared, g, f) && me in f.members && Idle(g.nodes[me], f.round, f.Pool(me))
    ensures Standing(cfg, compared, g', f) && OnlyMoved(g, g', [me]) && HasPrevoted(cfg.params, f, g'.nodes[me], me)
    ensures f.PrevoteOf(cfg.params, me) in g'.sent
  {
    hide Enabled, AcceptHeader, PrevoteFor, CanReach, FirstBlock, ProposedBlock, Crypto.CollisionFree, Prevoted, HasPrevoted;
    var p, s := cfg.params, g.nodes[me];
    WhatToPrevote(cfg, f, s, me);
    PrevotedIs(p, f, s, me);
    if me == p.ProposerFor(0, f.round) {
      FreshIsFirst(p, s, f.round);
      g' := Lead(cfg, compared, g, me);
    } else {
      g' := SeeBlock(cfg, compared, g, me, f.Held(p, me));
    }
  }

  lemma LastOfFirst(cfg: Config, f: Faction, k: nat)
    requires cfg.Formed() && f.Formed(cfg) && 0 < k <= |f.members|
    ensures f.members[..k] == f.members[..k - 1] + [f.members[k - 1]]
    ensures f.members[k - 1] !in f.members[..k - 1] && f.members[k - 1] in f.members && cfg.Honest(f.members[k - 1])
  {
  }

  /** The first k members prevote. */
  lemma {:induction false} AllPrevote(cfg: Config, compared: bool, g: System, f: Faction, k: nat) returns (g': System)
    requires Standing(cfg, compared, g, f) && k <= |f.members| && AllIdle(g, f)
    ensures Standing(cfg, compared, g', f) && OnlyMoved(g, g', f.members[..k])
    ensures forall v :: v in f.members[..k] ==>
              HasPrevoted(cfg.params, f, g'.nodes[v], v) && f.PrevoteOf(cfg.params, v) in g'.sent
  {
    hide HasPrevoted, Idle, CanReach, Ideal, Faction.PrevoteOf, Config.Formed, Faction.Formed;
    g' := g;
    if k > 0 {
      var me := f.members[k - 1];
      LastOfFirst(cfg, f, k);
      g' := AllPrevote(cfg, compared, g, f, k - 1);
      g' := OnePrevotes(cfg, compared, g', f, me);
    }
  }

  /** Everybody in the faction prevotes. */
  lemma Prevotes(cfg: Config, compared: bool, g: System, f: Faction) returns (g': System)
    requires Standing(cfg, compared, g, f) && AllIdle(g, f)
    ensures Standing(cfg, compared, g', f) && OnlyMoved(g, g', f.members)
    ensures forall v :: v in f.members ==> HasPrevoted(cfg.params, f, g'.nodes[v], v) && f.PrevoteOf(cfg.params, v) in g'.sent
    ensures AllVoted(cfg.params, f, g'.sent, Prevote)
  {
    hide HasPrevoted, Idle, CanReach, Ideal, Config.Formed;
    assert f.members[..|f.members|] == f.members;
    g' := AllPrevote(cfg, compared, g, f, |f.members|);
  }

  // ---- hearing all voters ----

  /** Votes for a hash, of one kind, by some validators but not by the one that hears them. */
  function Votes(voters: seq<Id>, me: Id, round: int, signed: Phase, hash: Hash): (votes: seq<Vote>)
  {
    if voters == [] then []
    else Votes(voters[..|voters| - 1], me, round, signed, hash) +
         (if voters[|voters| - 1] == me then [] else [Vote(voters[|voters| - 1], 0, round, signed, hash)])
  }

  lemma {:induction false} VotesAre(voters: seq<Id>, me: Id, round: int, signed: Phase, hash: Hash)
    requires Distinct(voters)
    ensures var votes := Votes(voters, me, round, signed, hash);
      && OneEach(votes)
      && (forall v :: v in votes ==> v == Vote(v.validator, 0, round, signed, hash) && v.validator in voters && v.validator != me)
      && (forall i :: i in voters && i != me ==> Vote(i, 0, round, signed, hash) in votes)
  {
    if voters != [] {
      VotesAre(voters[..|voters| - 1], me, round, signed, hash);
      assert voters == voters[..|voters| - 1] + [voters[|voters| - 1]];
    }
  }

  /** A quorum of distinct voters in a bucket. */
  lemma QuorumOf(p: Params, cs: HeightState, round: int, phase: Phase, voters: seq<Id>, hash: Hash)
    requires p.N() > 0 && Distinct(voters) && |voters| >= p.Quorum()
    requires forall v :: v in voters ==> v in cs.BucketAt(round, phase) && cs.BucketAt(round, phase)[v].blockHash == hash
    ensures HasQuorum(p, cs, round, phase, hash)
  {
    DistinctCount(voters);
    SubsetSize((set v | v in voters), cs.Voters(round, phase, hash));
  }

  /** The slot holds the member's own vote alone; it is one for the hash if the member counts. */
  ghost predicate OwnAlone(p: Params, f: Faction, cs: HeightState, me: Id, phase: Phase)
    requires p.N() > 0
  {
    var bucket := cs.BucketAt(f.round, phase);
    bucket.Keys == {me} && (me !in f.odd ==> bucket[me].blockHash == f.Hash(p))
  }

  lemma BallotsMayBeHeard(cfg: Config, compared: bool, g: System, f: Faction, me: Id, signed: Phase, phase: Phase)
    requires Standing(cfg, compared, g, f) && me in f.members && (compared ==> signed == phase) && g.nodes[me].height == 0
    requires AllVoted(cfg.params, f, g.sent, signed) && OwnAlone(cfg.params, f, g.nodes[me].cs, me, phase)
    ensures MayHear(cfg, compared, g, me, phase, f.round, Votes(f.voters, me, f.round, signed, f.Hash(cfg.params)))
    ensures OneRound(Votes(f.voters, me, f.round, signed, f.Hash(cfg.params)), f.round)
  {
    hide CanReach, FirstBlock, Ideal;
    var votes := Votes(f.voters, me, f.round, signed, f.Hash(cfg.params));
    VotesAre(f.voters, me, f.round, signed, f.Hash(cfg.params));
    hide Votes;
    forall v | v in votes ensures cfg.Honest(v.validator) ==> v in g.sent {
      assert v == f.VoteOf(cfg.params, v.validator, signed);
    }
  }

  lemma BallotsAreQuorum(p: Params, f: Faction, cs: HeightState, me: Id, signed: Phase, phase: Phase)
    requires p.N() > 0 && Distinct(f.voters) && |f.voters| >= p.Quorum() && (me in f.voters ==> me !in f.odd)
    requires OwnAlone(p, f, cs, me, phase)
    ensures HasQuorum(p, PutAll(cs, phase, Votes(f.voters, me, f.round, signed, f.Hash(p))), f.round, phase, f.Hash(p))
  {
    hide FirstBlock, HasQuorum;
    var votes := Votes(f.voters, me, f.round, signed, f.Hash(p));
    VotesAre(f.voters, me, f.round, signed, f.Hash(p));
    PutAllIs(cs, phase, f.round, votes);
    AddedAre(cs.BucketAt(f.round, phase), votes);
    hide PutAll, Added, Votes;
    var bucket := PutAll(cs, phase, votes).BucketAt(f.round, phase);
    forall v | v in f.voters ensures v in bucket && bucket[v].blockHash == f.Hash(p) {
      if v != me { assert Vote(v, 0, f.round, signed, f.Hash(p)) in votes; }
    }
    QuorumOf(p, PutAll(cs, phase, votes), f.round, phase, f.voters, f.Hash(p));
  }

  lemma BallotsReady(cfg: Config, compared: bool, g: System, f: Faction, me: Id, signed: Phase, phase: Phase) returns (votes: seq<Vote>)
    requires Standing(cfg, compared, g, f) && me in f.members && (compared ==> signed == phase) && g.nodes[me].height == 0
    requires AllVoted(cfg.params, f, g.sent, signed) && OwnAlone(cfg.params, f, g.nodes[me].cs, me, phase)
    ensures Ready(cfg, compared, g, me) && MayHear(cfg, compared, g, me, phase, f.round, votes) && OneRound(votes, f.round)
    ensures HasQuorum(cfg.params, PutAll(g.nodes[me].cs, phase, votes), f.round, phase, f.Hash(cfg.params))
  {
    votes := Votes(f.voters, me, f.round, signed, f.Hash(cfg.params));
    BallotsMayBeHeard(cfg, compared, g, f, me, signed, phase);
    hide CanReach, FirstBlock, PutAll, Votes, HasQuorum, OwnAlone, AllVoted, Faction.Hash, MayHear, OneRound;
    BallotsAreQuorum(cfg.params, f, g.nodes[me].cs, me, signed, phase);
  }

  /** A member hears everybody, in a slot where it has its own vote, and counts a quorum. The votes may be of the other
      kind than the messages they come in, where that is not compared. */
  lemma HearsQuorum(cfg: Config, compared: bool, g: System, f: Faction, me: Id, signed: Phase, phase: Phase)
    returns (g': System, votes: seq<Vote>)
    requires Standing(cfg, compared, g, f) && me in f.members && (compared ==> signed == phase) && g.nodes[me].height == 0
    requires AllVoted(cfg.params, f, g.sent, signed) && OwnAlone(cfg.params, f, g.nodes[me].cs, me, phase)
    ensures Standing(cfg, compared, g', f) && OnlyMoved(g, g', [me]) && g'.sent == g.sent && OneRound(votes, f.round)
    ensures g'.nodes[me] == g.nodes[me].(cs := PutAll(g.nodes[me].cs, phase, votes))
    ensures HasQuorum(cfg.params, g'.nodes[me].cs, f.round, phase, f.Hash(cfg.params))
  {
    hide CanReach, FirstBlock, Ideal, PutAll, HasQuorum, OwnAlone, AllVoted, Faction.Hash, MayHear, OneRound, Faction.Formed, Config.Formed;
    votes := BallotsReady(cfg, compared, g, f, me, signed, phase);
    g' := HearAll(cfg, compared, g, me, phase, f.round, votes);
  }

  // ---- from prevotes to a decision ----

  /** Having locked on what it holds, precommitted its hash and heard no other precommit. */
  ghost predicate HasPrecommitted(p: Params, f: Faction, s: Node, me: Id)
    requires p.N() > 0
  {
    && AtGenesis(s) && s.cs.round == f.round && s.cs.locked == Some(f.Held(p, me))
    && s.cs.BucketAt(f.round, Precommit) == map[me := f.VoteOf(p, me, Precommit)]
  }

  lemma OnePrecommits(cfg: Config, compared: bool, g: System, f: Faction, me: Id) returns (g': System)
    requires Standing(cfg, compared, g, f) && me in f.members && HasPrevoted(cfg.params, f, g.nodes[me], me)
    requires AllVoted(cfg.params, f, g.sent, Prevote)
    ensures Standing(cfg, compared, g', f) && OnlyMoved(g, g', [me]) && HasPrecommitted(cfg.params, f, g'.nodes[me], me)
    ensures f.VoteOf(cfg.params, me, Precommit) in g'.sent
  {
    hide CanReach, FirstBlock, HasQuorum, Crypto.CollisionFree, PutAll;
    var votes: seq<Vote>;
    g', votes := HearsQuorum(cfg, compared, g, f, me, Prevote, Prevote);
    PutAllIs(g.nodes[me].cs, Prevote, f.round, votes);
    g' := LockAndPrecommit(cfg, compared, g', me, f.Hash(cfg.params));
  }

  lemma {:induction false} AllPrecommit(cfg: Config, compared: bool, g: System, f: Faction, k: nat) returns (g': System)
    requires Standing(cfg, compared, g, f) && k <= |f.members|
    requires forall v :: v in f.members ==> HasPrevoted(cfg.params, f, g.nodes[v], v)
    requires AllVoted(cfg.params, f, g.sent, Prevote)
    ensures Standing(cfg, compared, g', f) && OnlyMoved(g, g', f.members[..k])
    ensures forall v :: v in f.members[..k] ==>
              HasPrecommitted(cfg.params, f, g'.nodes[v], v) && f.VoteOf(cfg.params, v, Precommit) in g'.sent
  {
    hide HasPrevoted, HasPrecommitted, CanReach, Ideal, Faction.VoteOf, Config.Formed, Faction.Formed;
    g' := g;
    if k > 0 {
      var me := f.members[k - 1];
      LastOfFirst(cfg, f, k);
      g' := AllPrecommit(cfg, compared, g, f, k - 1);
      g' := OnePrecommits(cfg, compared, g', f, me);
    }
  }

  /** Everybody in the faction hears the prevotes, locks and precommits. */
  lemma Precommits(cfg: Config, compared: bool, g: System, f: Faction) returns (g': System)
    requires Standing(cfg, compared, g, f)
    requires forall v :: v in f.members ==> HasPrevoted(cfg.params, f, g.nodes[v], v)
    requires AllVoted(cfg.params, f, g.sent, Prevote)
    ensures Standing(cfg, compared, g', f) && OnlyMoved(g, g', f.members)
    ensures forall v :: v in f.members ==> HasPrecommitted(cfg.params, f, g'.nodes[v], v)
    ensures AllVoted(cfg.params, f, g'.sent, Precommit)
  {
    hide HasPrevoted, HasPrecommitted, CanReach, Ideal, Config.Formed;
    assert f.members[..|f.members|] == f.members;
    g' := AllPrecommit(cfg, compared, g, f, |f.members|);
  }

  /** A member hears votes of the others as precommits, and decides what it is locked on. */
  lemma OneDecides(cfg: Config, compared: bool, g: System, f: Faction, me: Id, signed: Phase) returns (g': System)
    requires Standing(cfg, compared, g, f) && me in f.members && HasPrecommitted(cfg.params, f, g.nodes[me], me)
    requires AllVoted(cfg.params, f, g.sent, signed) && (compared ==> signed == Precommit)
    ensures Standing(cfg, compared, g', f) && OnlyMoved(g, g', [me]) && g'.sent == g.sent
    ensures var block := f.Held(cfg.params, me); var s := g'.nodes[me];
      s.height == 1 && s.ledger == [block] && s.store == ApplyAll(cfg.params.crypto, EmptyState, block.transactions)
  {
    hide CanReach, FirstBlock, HasQuorum, Crypto.CollisionFree, ApplyAll, PutAll;
    var votes: seq<Vote>;
    g', votes := HearsQuorum(cfg, compared, g, f, me, signed, Precommit);
    PutAllIs(g.nodes[me].cs, Precommit, f.round, votes);
    g' := DecideLocked(cfg, compared, g', me, f.round);
  }

  /** A faction whose members are idle makes its first member decide its block, and moves nobody else. */
  lemma FactionDecides(cfg: Config, compared: bool, g: System, f: Faction) returns (g': System)
    requires Standing(cfg, compared, g, f) && f.members[0] !in f.odd && AllIdle(g, f)
    ensures Standing(cfg, compared, g', f) && OnlyMoved(g, g', f.members)
    ensures g'.nodes[f.members[0]].ledger == [f.Block(cfg.params)]
  {
    hide HasPrevoted, HasPrecommitted, AllIdle, CanReach, Ideal, AllVoted, Faction.Block, Config.Formed;
    g' := Prevotes(cfg, compared, g, f);
    g' := Precommits(cfg, compared, g', f);
    g' := OneDecides(cfg, compared, g', f, f.members[0], Precommit);
  }

  // ---- coming to a later round ----

  /** Done with the rounds so far and unlocked, a validator is idle once it enters a later one. */
  ghost predicate Passing(s: Node, pool: seq<Transaction>) {
    && AtGenesis(s) && s.mempool == pool
    && s.cs.locked.None? && s.cs.lockedRound == -1 && s.cs.valid.None? && s.cs.validRound == -1
    && (forall slot :: slot in s.cs.votes ==> slot.round <= s.cs.round)
    && (forall r :: r in s.cs.proposals ==> r <= s.cs.round)
  }

  lemma StartIs(cfg: Config, v: Id)
    requires cfg.Honest(v)
    ensures v in Start(cfg).nodes && Passing(Start(cfg).nodes[v], []) && Start(cfg).nodes[v].cs.round == 0
    ensures Idle(Start(cfg).nodes[v], 0, [])
  {
  }

  lemma AllStart(cfg: Config)
    ensures forall v :: cfg.Honest(v) ==>
      v in Start(cfg).nodes && Passing(Start(cfg).nodes[v], []) && Start(cfg).nodes[v].cs.round == 0
  {
    forall v | cfg.Honest(v)
      ensures v in Start(cfg).nodes && Passing(Start(cfg).nodes[v], []) && Start(cfg).nodes[v].cs.round == 0
    {
      StartIs(cfg, v);
    }
  }

  lemma {:induction false} OneArrives(cfg: Config, compared: bool, g: System, me: Id, round: int, pool: seq<Transaction>)
    returns (g': System)
    requires Ready(cfg, compared, g, me) && round >= g.nodes[me].cs.round
    requires if round == g.nodes[me].cs.round then Idle(g.nodes[me], round, pool) else Passing(g.nodes[me], pool)
    ensures CanReach(cfg, compared, g') && OnlyMoved(g, g', [me]) && Idle(g'.nodes[me], round, pool)
    decreases round - g.nodes[me].cs.round
  {
    hide CanReach;
    g' := g;
    if round > g.nodes[me].cs.round {
      g' := NextRound(cfg, compared, g, me);
      g' := OneArrives(cfg, compared, g', me, round, pool);
    }
  }

  /** Its pool is filled, and it comes to the round. */
  lemma OneComes(cfg: Config, compared: bool, g: System, f: Faction, me: Id) returns (g': System)
    requires Ready(cfg, compared, g, me) && Passing(g.nodes[me], []) && g.nodes[me].cs.round < f.round && |f.txs| <= 1
    ensures CanReach(cfg, compared, g') && OnlyMoved(g, g', [me]) && Idle(g'.nodes[me], f.round, f.Pool(me))
  {
    hide CanReach;
    g' := g;
    if f.txs != [] {
      g' := Submit(cfg, compared, g', me, f.Pool(me)[0]);
      assert [] + [f.Pool(me)[0]] == f.Pool(me);
    }
    g' := OneArrives(cfg, compared, g', me, f.round, f.Pool(me));
  }

  lemma {:induction false} FirstCome(cfg: Config, compared: bool, g: System, f: Faction, k: nat) returns (g': System)
    requires Standing(cfg, compared, g, f) && k <= |f.members| && |f.txs| <= 1
    requires forall v :: v in f.members ==> Passing(g.nodes[v], []) && g.nodes[v].cs.round < f.round
    ensures Standing(cfg, compared, g', f) && OnlyMoved(g, g', f.members[..k])
    ensures forall v :: v in f.members[..k] ==> Idle(g'.nodes[v], f.round, f.Pool(v))
  {
    hide CanReach, Idle, Passing, Crypto.CollisionFree, HashesAreNotNil, Config.Formed;
    g' := g;
    if k > 0 {
      var me := f.members[k - 1];
      LastOfFirst(cfg, f, k);
      g' := FirstCome(cfg, compared, g, f, k - 1);
      g' := OneComes(cfg, compared, g', f, me);
    }
  }

  /** Members that have seen nothing and are still in earlier rounds. */
  ghost predicate Waiting(cfg: Config, compared: bool, g: System, f: Faction) {
    && Standing(cfg, compared, g, f) && |f.txs| <= 1
    && forall v :: v in f.members ==> Passing(g.nodes[v], []) && g.nodes[v].cs.round < f.round
  }

  lemma WaitsAtStart(cfg: Config, compared: bool, f: Faction)
    requires cfg.Formed() && f.Formed(cfg) && Ideal(cfg.params.crypto) && f.round > 0 && |f.txs| <= 1
    ensures Waiting(cfg, compared, Start(cfg), f)
  {
    StartCanBeReached(cfg, compared);
    AllStart(cfg);
    assert forall v :: v in f.members ==> cfg.Honest(v);
    hide CanReach, Passing, Start, Ideal, Faction.Formed, Config.Formed;
  }

  /** The moves of others do not disturb them. */
  lemma StillWaits(cfg: Config, compared: bool, g: System, g': System, f: Faction, movers: seq<Id>)
    requires Waiting(cfg, compared, g, f) && CanReach(cfg, compared, g') && OnlyMoved(g, g', movers)
    requires forall v :: v in f.members ==> v !in movers
    ensures Waiting(cfg, compared, g', f)
  {
    hide CanReach, Passing, Ideal, Faction.Formed, Config.Formed;
  }

  /** Clients fill the pools of the members, each with its copy, and all come to the round. */
  lemma AllCome(cfg: Config, compared: bool, g: System, f: Faction) returns (g': System)
    requires Waiting(cfg, compared, g, f)
    ensures Standing(cfg, compared, g', f) && OnlyMoved(g, g', f.members) && AllIdle(g', f)
  {
    hide CanReach, Idle, Passing, Ideal, Config.Formed;
    assert f.members[..|f.members|] == f.members;
    g' := FirstCome(cfg, compared, g, f, |f.members|);
  }

  /** Validators that have seen nothing come to a round, and the first of them decides their block. */
  lemma ComesAndDecides(cfg: Config, compared: bool, g: System, f: Faction) returns (g': System)
    requires Waiting(cfg, compared, g, f) && f.members[0] !in f.odd
    ensures Standing(cfg, compared, g', f) && OnlyMoved(g, g', f.members)
    ensures g'.nodes[f.members[0]].ledger == [f.Block(cfg.params)]
  {
    hide CanReach, Passing, Ideal, AllIdle, Faction.Block, Config.Formed;
    g' := AllCome(cfg, compared, g, f);
    g' := FactionDecides(cfg, compared, g', f);
  }

  lemma CountsPrevotes(cfg: Config, g: System, f: Faction, me: Id) returns (g': System)
    requires Standing(cfg, true, g, f) && me in f.members && me !in f.odd && HasPrevoted(cfg.params, f, g.nodes[me], me)
    requires AllVoted(cfg.params, f, g.sent, Prevote)
    ensures Standing(cfg, true, g', f) && OnlyMoved(g, g', [me]) && g'.sent == g.sent && g'.nodes[me].height == 0
    ensures HasQuorum(cfg.params, g'.nodes[me].cs, f.round, Prevote, f.Hash(cfg.params))
  {
    hide CanReach, Ideal, Faction.Hash, Faction.Formed, Config.Formed, HasQuorum, PutAll, AllVoted, Faction.Held;
    var votes;
    g', votes := HearsQuorum(cfg, true, g, f, me, Prevote, Prevote);
  }

  lemma CountsPrecommits(cfg: Config, g: System, f: Faction, me: Id) returns (g': System)
    requires Standing(cfg, true, g, f) && me in f.members && HasPrecommitted(cfg.params, f, g.nodes[me], me)
    requires AllVoted(cfg.params, f, g.sent, Precommit)
    ensures Standing(cfg, true, g', f) && OnlyMoved(g, g', [me]) && g'.sent == g.sent && g'.nodes[me].height == 0
    ensures HasQuorum(cfg.params, g'.nodes[me].cs, f.round, Precommit, f.Hash(cfg.params))
  {
    hide CanReach, Ideal, Faction.Hash, Faction.Formed, Config.Formed, HasQuorum, PutAll, AllVoted, Faction.Held;
    var votes;
    g', votes := HearsQuorum(cfg, true, g, f, me, Precommit, Precommit);
  }

  /** Likewise, and the first of them counts a quorum of their prevotes. */
  lemma ComesAndPrevotes(cfg: Config, g: System, f: Faction) returns (g': System)
    requires Waiting(cfg, true, g, f) && f.members[0] !in f.odd
    ensures Standing(cfg, true, g', f) && OnlyMoved(g, g', f.members) && g'.nodes[f.members[0]].height == 0
    ensures HasQuorum(cfg.params, g'.nodes[f.members[0]].cs, f.round, Prevote, f.Hash(cfg.params))
    ensures forall v :: v in f.members ==>
      f.PrevoteOf(cfg.params, v) in g'.sent && (v != f.members[0] ==> HasPrevoted(cfg.params, f, g'.nodes[v], v))
  {
    hide CanReach, Passing, Ideal, AllIdle, AllVoted, HasQuorum, HasPrevoted, Faction.Hash, Faction.PrevoteOf, Config.Formed;
    g' := AllCome(cfg, true, g, f);
    g' := Prevotes(cfg, true, g', f);
    g' := CountsPrevotes(cfg, g', f, f.members[0]);
  }

  /** Likewise, and the first of them counts a quorum of their precommits. */
  lemma ComesAndPrecommits(cfg: Config, g: System, f: Faction) returns (g': System)
    requires Waiting(cfg, true, g, f)
    ensures Standing(cfg, true, g', f) && OnlyMoved(g, g', f.members) && g'.nodes[f.members[0]].height == 0
    ensures HasQuorum(cfg.params, g'.nodes[f.members[0]].cs, f.round, Precommit, f.Hash(cfg.params))
  {
    hide CanReach, Passing, Ideal, AllIdle, AllVoted, HasQuorum, HasPrevoted, HasPrecommitted, Faction.Hash, Config.Formed;
    g' := AllCome(cfg, true, g, f);
    g' := Prevotes(cfg, true, g', f);
    g' := Precommits(cfg, true, g', f);
    g' := CountsPrecommits(cfg, g', f, f.members[0]);
  }

  /** The odd members and the faulty ones, enough to be a quorum against the block. */
  ghost predicate Against(cfg: Config, f: Faction, against: seq<Id>)
    requires cfg.Formed()
  {
    && Distinct(against) && |against| >= cfg.params.Quorum()
    && forall v :: v in against ==> v in cfg.params.validators && (cfg.Honest(v) ==> v in f.members && v in f.odd)
  }

  lemma AgainstMayBeHeard(cfg: Config, g: System, f: Faction, c: Id, against: seq<Id>)
    requires Standing(cfg, true, g, f) && c in f.members && HasPrevoted(cfg.params, f, g.nodes[c], c) && Against(cfg, f, against)
    requires forall v :: v in f.members ==> f.PrevoteOf(cfg.params, v) in g.sent
    ensures MayHear(cfg, true, g, c, Prevote, f.round, Votes(against, c, f.round, Prevote, NIL))
  {
    hide CanReach, Ideal, Faction.Hash, Faction.Held, Config.Formed, Faction.Formed;
    var votes := Votes(against, c, f.round, Prevote, NIL);
    VotesAre(against, c, f.round, Prevote, NIL);
    hide Votes;
    forall v | v in votes ensures cfg.Honest(v.validator) ==> v in g.sent {
      if cfg.Honest(v.validator) { assert f.PrevoteOf(cfg.params, v.validator) in g.sent; }
    }
  }

  lemma AgainstIsQuorum(p: Params, cs: HeightState, c: Id, round: int, against: seq<Id>)
    requires p.N() > 0 && Distinct(against) && |against| >= p.Quorum() && c in against
    requires cs.BucketAt(round, Prevote) == map[c := Vote(c, 0, round, Prevote, NIL)]
    ensures HasQuorum(p, PutAll(cs, Prevote, Votes(against, c, round, Prevote, NIL)), round, Prevote, NIL)
  {
    hide HasQuorum;
    var votes := Votes(against, c, round, Prevote, NIL);
    VotesAre(against, c, round, Prevote, NIL);
    PutAllIs(cs, Prevote, round, votes);
    AddedAre(cs.BucketAt(round, Prevote), votes);
    hide PutAll, Added, Votes;
    var bucket := PutAll(cs, Prevote, votes).BucketAt(round, Prevote);
    forall v | v in against ensures v in bucket && bucket[v].blockHash == NIL {
      if v != c { assert Vote(v, 0, round, Prevote, NIL) in votes; }
    }
    QuorumOf(p, PutAll(cs, Prevote, votes), round, Prevote, against, NIL);
  }

  lemma OddHasPrevoted(p: Params, f: Faction, s: Node, c: Id)
    requires p.N() > 0 && HasPrevoted(p, f, s, c) && c in f.odd
    ensures s.height == 0 && s.cs.BucketAt(f.round, Prevote) == map[c := Vote(c, 0, f.round, Prevote, NIL)]
  {
  }

  lemma AgainstReady(cfg: Config, g: System, f: Faction, c: Id, against: seq<Id>) returns (votes: seq<Vote>)
    requires Standing(cfg, true, g, f) && c in f.members && c in f.odd && HasPrevoted(cfg.params, f, g.nodes[c], c)
    requires Against(cfg, f, against) && c in against
    requires forall v :: v in f.members ==> f.PrevoteOf(cfg.params, v) in g.sent
    ensures Ready(cfg, true, g, c) && MayHear(cfg, true, g, c, Prevote, f.round, votes) && g.nodes[c].height == 0
    ensures HasQuorum(cfg.params, PutAll(g.nodes[c].cs, Prevote, votes), f.round, Prevote, NIL)
  {
    votes := Votes(against, c, f.round, Prevote, NIL);
    OddHasPrevoted(cfg.params, f, g.nodes[c], c);
    hide CanReach, Faction.Hash, HasQuorum, Votes, PutAll, MayHear, HasPrevoted, Faction.PrevoteOf;
    AgainstMayBeHeard(cfg, g, f, c, against);
    AgainstIsQuorum(cfg.params, g.nodes[c].cs, c, f.round, against);
  }

  /** An odd member that has prevoted hears the other odd ones and the faulty ones, and counts a quorum against the block. */
  lemma HearsAgainst(cfg: Config, g: System, f: Faction, c: Id, against: seq<Id>) returns (g': System)
    requires Standing(cfg, true, g, f) && c in f.members && c in f.odd && HasPrevoted(cfg.params, f, g.nodes[c], c)
    requires Against(cfg, f, against) && c in against
    requires forall v :: v in f.members ==> f.PrevoteOf(cfg.params, v) in g.sent
    ensures CanReach(cfg, true, g') && OnlyMoved(g, g', [c]) && g'.nodes[c].height == 0
    ensures HasQuorum(cfg.params, g'.nodes[c].cs, f.round, Prevote, NIL)
  {
    hide CanReach, Ideal, PutAll, HasQuorum, MayHear, Faction.Formed, Config.Formed, Against, HasPrevoted, Faction.PrevoteOf;
    var votes := AgainstReady(cfg, g, f, c, against);
    g' := HearAll(cfg, true, g, c, Prevote, f.round, votes);
  }

  lemma PrevotedIsPassing(p: Params, f: Faction, s: Node, me: Id)
    requires p.N() > 0 && HasPrevoted(p, f, s, me)
    ensures Passing(s, f.Pool(me)) && s.cs.round == f.round
  {
  }

  /** Where the phase of a vote is not compared: one member decides on prevotes that reach it a second time as
      precommits, while the others have only prevoted. */
  lemma PrevotesDecide(cfg: Config, g: System, f: Faction, a: Id) returns (g': System)
    requires Standing(cfg, false, g, f) && a in f.members && AllIdle(g, f)
    ensures Standing(cfg, false, g', f) && g'.nodes[a].ledger == [f.Held(cfg.params, a)]
    ensures forall v :: v in f.members && v != a ==> Passing(g'.nodes[v], f.Pool(v)) && g'.nodes[v].cs.round == f.round
  {
    hide HasPrevoted, HasPrecommitted, AllIdle, Passing, AllVoted, CanReach, Ideal, Faction.Formed, Faction.Held;
    var g1 := Prevotes(cfg, false, g, f);
    var g2 := OnePrecommits(cfg, false, g1, f, a);
    VotesStay(cfg.params, f, g1.sent, g2.sent, Prevote);
    g' := OneDecides(cfg, false, g2, f, a, Prevote);
    forall v | v in f.members && v != a ensures Passing(g'.nodes[v], f.Pool(v)) && g'.nodes[v].cs.round == f.round {
      PrevotedIsPassing(cfg.params, f, g1.nodes[v], v);
    }
  }

  /** Two members decide, each what it holds. */
  lemma TwoDecide(cfg: Config, compared: bool, g: System, f: Faction, a: Id, c: Id) returns (g': System)
    requires Standing(cfg, compared, g, f) && a in f.members && c in f.members && a != c && AllIdle(g, f)
    ensures Standing(cfg, compared, g', f)
    ensures forall v :: v in {a, c} ==>
      var block := f.Held(cfg.params, v); var s := g'.nodes[v];
      s.height == 1 && s.ledger == [block] && s.store == ApplyAll(cfg.params.crypto, EmptyState, block.transactions)
  {
    hide HasPrevoted, HasPrecommitted, AllIdle, AllVoted, CanReach, Ideal, Faction.Formed, Config.Formed, Faction.Held, ApplyAll;
    g' := Prevotes(cfg, compared, g, f);
    g' := Precommits(cfg, compared, g', f);
    g' := OneDecides(cfg, compared, g', f, a, Precommit);
    g' := OneDecides(cfg, compared, g', f, c, Precommit);
  }

  // ---- choosing members ----

  /** The identities to keep, in the order listed. */
  function Picked(ids: seq<Id>, keep: set<Id>): seq<Id> {
    if ids == [] then [] else (if ids[0] in keep then [ids[0]] else []) + Picked(ids[1..], keep)
  }

  lemma {:induction false} PickedAre(ids: seq<Id>, keep: set<Id>)
    requires Distinct(ids)
    ensures Distinct(Picked(ids, keep)) && forall v :: v in Picked(ids, keep) <==> v in ids && v in keep
  {
    if ids != [] {
      PickedAre(ids[1..], keep);
      assert ids == [ids[0]] + ids[1..];
    }
  }

  lemma PickedSize(ids: seq<Id>, keep: set<Id>)
    requires Distinct(ids) && keep <= set v | v in ids
    ensures |Picked(ids, keep)| == |keep|
  {
    PickedAre(ids, keep);
    DistinctCount(Picked(ids, keep));
    assert (set v | v in Picked(ids, keep)) == keep;
  }

  /** Some validators, with the one that leads, if it is among them, in front. */
  function LedBy(ids: seq<Id>, keep: set<Id>, leader: Id): seq<Id> {
    if leader in keep then [leader] + Picked(ids, keep - {leader}) else Picked(ids, keep)
  }

  lemma LedByAre(ids: seq<Id>, keep: set<Id>, leader: Id)
    requires Distinct(ids) && keep <= set v | v in ids
    ensures Distinct(LedBy(ids, keep, leader)) && forall v :: v in LedBy(ids, keep, leader) <==> v in keep
    ensures leader in keep ==> LedBy(ids, keep, leader)[0] == leader
  {
    PickedAre(ids, keep);
    PickedAre(ids, keep - {leader});
  }

  function HonestSet(cfg: Config): set<Id> { set v | v in cfg.params.ValidatorSet() && cfg.Honest(v) }

  lemma HonestSize(cfg: Config)
    requires cfg.Formed()
    ensures |HonestSet(cfg)| == cfg.params.N() - |cfg.byzantine|
  {
    DistinctCount(cfg.params.validators);
    assert HonestSet(cfg) == cfg.params.ValidatorSet() - cfg.byzantine;
    assert |cfg.params.ValidatorSet()| == |HonestSet(cfg)| + |cfg.byzantine|;
  }

  /** Some honest validators, with all faulty ones, in a round; some of them odd. */
  function Group(cfg: Config, honest: set<Id>, odd: set<Id>, round: nat, txs: seq<Transaction>): Faction
    requires cfg.Formed()
  {
    Faction(LedBy(cfg.params.validators, honest, cfg.params.ProposerFor(0, round)),
            Picked(cfg.params.validators, (honest - odd) + cfg.byzantine), round, txs, odd)
  }

  ghost predicate CanGroup(cfg: Config, honest: set<Id>, odd: set<Id>, round: nat, txs: seq<Transaction>)
    requires cfg.Formed()
  {
    && honest <= HonestSet(cfg) && odd <= honest && honest != {}
    && |honest - odd| + |cfg.byzantine| >= cfg.params.Quorum()
    && (cfg.Honest(cfg.params.ProposerFor(0, round)) ==> cfg.params.ProposerFor(0, round) in honest - odd)
    && (odd != {} ==> txs != []) && (forall tx :: tx in txs ==> cfg.params.crypto.TxVerifies(tx))
  }

  lemma GroupMembers(cfg: Config, honest: set<Id>, odd: set<Id>, round: nat, txs: seq<Transaction>)
    requires cfg.Formed() && CanGroup(cfg, honest, odd, round, txs)
    ensures var f := Group(cfg, honest, odd, round, txs);
      && Distinct(f.members) && f.members != [] && (forall v :: v in f.members <==> v in honest)
      && (cfg.Honest(cfg.params.ProposerFor(0, round)) ==> f.members[0] == cfg.params.ProposerFor(0, round))
  {
    LedByAre(cfg.params.validators, honest, cfg.params.ProposerFor(0, round));
    hide LedBy;
    var v :| v in honest;
    assert v in Group(cfg, honest, odd, round, txs).members;
  }

  lemma GroupVoters(cfg: Config, honest: set<Id>, odd: set<Id>, round: nat, txs: seq<Transaction>)
    requires cfg.Formed() && CanGroup(cfg, honest, odd, round, txs)
    ensures var f := Group(cfg, honest, odd, round, txs);
      && Distinct(f.voters) && |f.voters| >= cfg.params.Quorum()
      && (forall v :: v in f.voters <==> v in honest - odd || v in cfg.byzantine)
  {
    var ids, all := cfg.params.validators, (honest - odd) + cfg.byzantine;
    PickedAre(ids, all);
    PickedSize(ids, all);
    hide Picked, LedBy;
    assert |all| == |honest - odd| + |cfg.byzantine|;
  }

  lemma FormedWhen(cfg: Config, f: Faction, honest: set<Id>)
    requires cfg.Formed() && honest <= HonestSet(cfg) && CanGroup(cfg, honest, f.odd, f.round, f.txs)
    requires Distinct(f.members) && f.members != [] && (forall v :: v in f.members <==> v in honest)
    requires cfg.Honest(cfg.params.ProposerFor(0, f.round)) ==> f.members[0] == cfg.params.ProposerFor(0, f.round)
    requires Distinct(f.voters) && |f.voters| >= cfg.params.Quorum()
    requires forall v :: v in f.voters <==> v in honest - f.odd || v in cfg.byzantine
    ensures f.Formed(cfg)
  {
    hide Distinct, Params.ProposerFor, FaultBound, QuorumSize, Params.WellFormed;
    assert forall v :: v in cfg.byzantine ==> v in cfg.params.ValidatorSet();
    assert forall v :: v in honest ==> cfg.Honest(v);
    hide HonestSet, Config.Formed, Params.ValidatorSet;
    forall v | v in f.members ensures cfg.Honest(v) && (v in f.voters <==> v !in f.odd) {
      assert v in honest && v !in cfg.byzantine;
    }
    forall v | v in f.voters ensures v in cfg.params.validators && (cfg.Honest(v) ==> v in f.members) {
      assert v in honest || v in cfg.byzantine;
    }
  }

  lemma GroupIsFormed(cfg: Config, honest: set<Id>, odd: set<Id>, round: nat, txs: seq<Transaction>)
    requires cfg.Formed() && CanGroup(cfg, honest, odd, round, txs)
    ensures var f := Group(cfg, honest, odd, round, txs);
      f.Formed(cfg) && f.round == round && f.txs == txs && f.odd == odd && forall v :: v in f.members <==> v in honest
  {
    GroupMembers(cfg, honest, odd, round, txs);
    GroupVoters(cfg, honest, odd, round, txs);
    hide Picked, LedBy, Distinct, Params.ProposerFor, FaultBound, QuorumSize, HonestSet, Config.Formed, Faction.Formed;
    FormedWhen(cfg, Group(cfg, honest, odd, round, txs), honest);
  }
}
