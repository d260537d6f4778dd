/** Building runs of the whole system a few steps at a time, with or without the phase of a delivered vote
    compared with the kind of message it arrives in. */
module Runs {
  import opened Messages
  import opened Execution
  import opened Protocol
  import opened Consensus
  import opened Safety
  import opened Gossip
  import opened Replay

  lemma Act(cfg: Config, compared: bool, g: System, me: Id, a: Action) returns (g': System)
    requires cfg.Formed() && CanReach(cfg, compared, g) && CanHappen(cfg, compared, g, Move(me, a))
    ensures CanReach(cfg, compared, g') && g' == Next(cfg, g, Move(me, a))
  {
    var states, moves :| IsRunUnder(cfg, compared, states, moves) && states[|moves|] == g;
    g' := Next(cfg, g, Move(me, a));
    OneMore(cfg, compared, states, moves, Move(me, a));
    assert (states + [g'])[|moves + [Move(me, a)]|] == g';
  }

  // ---- a few steps at a time ----

  ghost predicate Ready(cfg: Config, compared: bool, g: System, me: Id) {
    cfg.Formed() && CanReach(cfg, compared, g) && cfg.Honest(me) && me in g.nodes && cfg.params.crypto.SignaturesCheck()
  }

  lemma Hear(cfg: Config, compared: bool, g: System, me: Id, phase: Phase, v: Vote) returns (g': System)
    requires Ready(cfg, compared, g, me)
    requires v.validator in cfg.params.validators && v.height == g.nodes[me].height
    requires v.validator !in g.nodes[me].cs.BucketAt(v.round, phase)
    requires cfg.Honest(v.validator) ==> v in g.sent
    requires compared ==> v.phase == phase
    ensures Ready(cfg, compared, g', me) && g'.sent == g.sent
    ensures var s := g.nodes[me]; g'.nodes == g.nodes[me := s.(cs := PutVote(s.cs, Slot(v.round, phase), v))]
  {
    var signature := Some(cfg.params.crypto.sign(v.validator, VoteDomain(v)));
    g' := Act(cfg, compared, g, me, ReceiveVote(phase, v, signature));
    assert g.sent + [] == g.sent;
  }

  /** Votes put in one after the other, each in the slot of its round. */
  function PutAll(cs: HeightState, phase: Phase, votes: seq<Vote>): HeightState {
    if votes == [] then cs
    else var k := |votes| - 1; PutVote(PutAll(cs, phase, votes[..k]), Slot(votes[k].round, phase), votes[k])
  }

  function Added(bucket: Bucket, votes: seq<Vote>): Bucket {
    if votes == [] then bucket
    else var k := |votes| - 1; Added(bucket, votes[..k])[votes[k].validator := votes[k]]
  }

  ghost predicate OneRound(votes: seq<Vote>, round: int) { forall v :: v in votes ==> v.round == round }

  ghost predicate OneEach(votes: seq<Vote>) {
    forall i, j :: 0 <= i < j < |votes| ==> votes[i].validator != votes[j].validator
  }

  lemma {:induction false} PutAllIs(cs: HeightState, phase: Phase, round: int, votes: seq<Vote>)
    requires OneRound(votes, round)
    ensures var cs' := PutAll(cs, phase, votes);
      && cs' == cs.(votes := cs'.votes) && cs'.BucketAt(round, phase) == Added(cs.BucketAt(round, phase), votes)
      && (forall slot :: slot in cs'.votes ==> slot in cs.votes || slot == Slot(round, phase))
      && (forall r, f :: Slot(r, f) != Slot(round, phase) ==> cs'.BucketAt(r, f) == cs.BucketAt(r, f))
  {
    if votes != [] {
      var k := |votes| - 1;
      assert votes[k] in votes;
      PutAllIs(cs, phase, round, votes[..k]);
    }
  }

  lemma {:induction false} AddedAre(bucket: Bucket, votes: seq<Vote>)
    requires OneEach(votes) && forall v :: v in votes ==> v.validator !in bucket
    ensures var b := Added(bucket, votes);
      && (forall v :: v in votes ==> v.validator in b && b[v.validator] == v)
      && (forall i :: i in bucket ==> i in b && b[i] == bucket[i])
      && (forall i :: i in b ==> i in bucket || exists v :: v in votes && v.validator == i)
  {
    if votes != [] {
      var k := |votes| - 1;
      AddedAre(bucket, votes[..k]);
      assert votes == votes[..k] + [votes[k]];
    }
  }

  /** Votes that may be delivered to a validator now. */
  ghost predicate MayHear(cfg: Config, compared: bool, g: System, me: Id, phase: Phase, round: int, votes: seq<Vote>)
    requires me in g.nodes
  {
    OneRound(votes, round) && OneEach(votes) && forall v :: v in votes ==>
      && v.validator in cfg.params.validators && v.height == g.nodes[me].height
      && v.validator !in g.nodes[me].cs.BucketAt(round, phase)
      && (cfg.Honest(v.validator) ==> v in g.sent) && (compared ==> v.phase == phase)
  }

  lemma FirstMayBeHeard(cfg: Config, compared: bool, g: System, me: Id, phase: Phase, round: int, votes: seq<Vote>)
    requires me in g.nodes && votes != [] && MayHear(cfg, compared, g, me, phase, round, votes)
    ensures MayHear(cfg, compared, g, me, phase, round, votes[..|votes| - 1])
    ensures var k := |votes| - 1; votes[k].validator !in Added(g.nodes[me].cs.BucketAt(round, phase), votes[..k])
  {
    var k := |votes| - 1;
    assert votes[k] in votes;
    AddedAre(g.nodes[me].cs.BucketAt(round, phase), votes[..k]);
  }

  lemma {:induction false} HearAll(cfg: Config, compared: bool, g: System, me: Id, phase: Phase, round: int, votes: seq<Vote>)
    returns (g': System)
    requires Ready(cfg, compared, g, me) && MayHear(cfg, compared, g, me, phase, round, votes)
    ensures Ready(cfg, compared, g', me) && g'.sent == g.sent
    ensures var s := g.nodes[me]; g'.nodes == g.nodes[me := s.(cs := PutAll(s.cs, phase, votes))]
  {
    g' := g;
    if votes != [] {
      var k := |votes| - 1;
      assert votes[k] in votes;
      FirstMayBeHeard(cfg, compared, g, me, phase, round, votes);
      g' := HearAll(cfg, compared, g, me, phase, round, votes[..k]);
      PutAllIs(g.nodes[me].cs, phase, round, votes[..k]);
      hide CanReach, Added, MayHear, PutVote;
      g' := Hear(cfg, compared, g', me, phase, votes[k]);
    } else {
      assert g.nodes == g.nodes[me := g.nodes[me]];
    }
  }

  /** What a validator holds after prevoting on the block of its round. */
  function Prevoted(p: Params, me: Id, s: Node, block: Block): Node
    requires p.N() > 0
  {
    s.(cs := PutVote(s.cs, Slot(s.cs.round, Prevote), CastVote(me, s, Prevote, PrevoteFor(p, s, block)))
              .(proposals := s.cs.proposals[s.cs.round := block], step := PrevoteStep))
  }

  lemma PrevoteKept(cfg: Config, compared: bool, g: System, me: Id, s: Node, block: Block) returns (g': System)
    requires Ready(cfg, compared, g, me) && g.nodes[me] == s.(cs := s.cs.(proposals := s.cs.proposals[s.cs.round := block]))
    requires s.cs.step == ProposeStep && me !in s.cs.BucketAt(s.cs.round, Prevote)
    ensures Ready(cfg, compared, g', me) && g'.nodes == g.nodes[me := Prevoted(cfg.params, me, s, block)]
    ensures g'.sent == g.sent + [CastVote(me, s, Prevote, PrevoteFor(cfg.params, s, block))]
  {
    hide CanReach;
    assert PrevoteFor(cfg.params, g.nodes[me], block) == PrevoteFor(cfg.params, s, block);
    g' := Act(cfg, compared, g, me, CastPrevote(block));
  }

  /** A block arrives in the current round and is prevoted on. */
  lemma SeeBlock(cfg: Config, compared: bool, g: System, me: Id, block: Block) returns (g': System)
    requires Ready(cfg, compared, g, me)
    requires var s := g.nodes[me];
      && AcceptHeader(cfg.params, s, block.header, s.cs.round) && s.cs.step == ProposeStep
      && s.cs.round !in s.cs.proposals && me !in s.cs.BucketAt(s.cs.round, Prevote)
    ensures Ready(cfg, compared, g', me)
    ensures var s := g.nodes[me];
      && g'.nodes == g.nodes[me := Prevoted(cfg.params, me, s, block)]
      && g'.sent == g.sent + [CastVote(me, s, Prevote, PrevoteFor(cfg.params, s, block))]
  {
    hide CanReach, AcceptHeader, ValidateBlock, PrevoteFor;
    var s := g.nodes[me];
    g' := Act(cfg, compared, g, me, StoreBlock(s.cs.round, block));
    assert g.sent + [] == g.sent;
    g' := PrevoteKept(cfg, compared, g', me, s, block);
  }

  /** The proposer of the round proposes and prevotes. */
  lemma Lead(cfg: Config, compared: bool, g: System, me: Id) returns (g': System)
    requires Ready(cfg, compared, g, me)
    requires var s := g.nodes[me];
      && me == cfg.params.ProposerFor(s.height, s.cs.round) && s.cs.step == ProposeStep
      && me !in s.cs.BucketAt(s.cs.round, Prevote)
    ensures Ready(cfg, compared, g', me)
    ensures var s := g.nodes[me]; var block := ProposedBlock(cfg.params, me, s);
      && g'.nodes == g.nodes[me := Prevoted(cfg.params, me, s, block)]
      && g'.sent == g.sent + [CastVote(me, s, Prevote, PrevoteFor(cfg.params, s, block))]
  {
    hide CanReach, ProposedBlock, ValidateBlock, PrevoteFor;
    var s := g.nodes[me];
    g' := Act(cfg, compared, g, me, Action.ProposeBlock);
    assert g.sent + [] == g.sent;
    g' := PrevoteKept(cfg, compared, g', me, s, ProposedBlock(cfg.params, me, s));
  }

  /** A prevote quorum for the round's block: lock and precommit. */
  lemma LockAndPrecommit(cfg: Config, compared: bool, g: System, me: Id, x: Hash) returns (g': System)
    requires Ready(cfg, compared, g, me) && x != NIL
    requires var cs := g.nodes[me].cs;
      && cs.step == PrevoteStep && cs.round >= cs.lockedRound && cs.round >= cs.validRound
      && cs.round in cs.proposals && cfg.params.crypto.BlockHash(cs.proposals[cs.round]) == x
      && HasQuorum(cfg.params, cs, cs.round, Prevote, x) && me !in cs.BucketAt(cs.round, Precommit)
    ensures Ready(cfg, compared, g', me)
    ensures var s := g.nodes[me]; var v := CastVote(me, s, Precommit, x); var block := s.cs.proposals[s.cs.round];
      && g'.sent == g.sent + [v]
      && g'.nodes == g.nodes[me := s.(cs := PutVote(s.cs, Slot(s.cs.round, Precommit), v)
           .(locked := Some(block), lockedRound := s.cs.round, valid := Some(block), validRound := s.cs.round, step := PrecommitStep))]
  {
    hide CanReach, AcceptHeader, ValidateBlock;
    var s := g.nodes[me];
    var g1 := Act(cfg, compared, g, me, LockOn(s.cs.round));
    assert g.sent + [] == g.sent;
    assert HasQuorum(cfg.params, g1.nodes[me].cs, s.cs.round, Prevote, x);
    g' := Act(cfg, compared, g1, me, CastPrecommit(x));
  }

  lemma DecideLocked(cfg: Config, compared: bool, g: System, me: Id, round: int) returns (g': System)
    requires Ready(cfg, compared, g, me)
    requires var cs := g.nodes[me].cs;
      && !cs.decided && cs.locked.Some? && cfg.params.crypto.BlockHash(cs.locked.value) != NIL
      && HasQuorum(cfg.params, cs, round, Precommit, cfg.params.crypto.BlockHash(cs.locked.value))
    ensures Ready(cfg, compared, g', me) && g'.sent == g.sent
    ensures var s := g.nodes[me]; g'.nodes == g.nodes[me := Finalize(cfg.params, s, s.cs.locked.value)]
  {
    g' := Act(cfg, compared, g, me, Decide(round));
    assert g.sent + [] == g.sent;
  }

  lemma NextRound(cfg: Config, compared: bool, g: System, me: Id) returns (g': System)
    requires Ready(cfg, compared, g, me) && !g.nodes[me].cs.decided
    ensures Ready(cfg, compared, g', me) && g'.sent == g.sent
    ensures var s := g.nodes[me]; g'.nodes == g.nodes[me := s.(cs := s.cs.(round := s.cs.round + 1, step := ProposeStep))]
  {
    g' := Act(cfg, compared, g, me, EnterRound(g.nodes[me].cs.round + 1));
    assert g.sent + [] == g.sent;
  }

  /** A client hands over a transaction; nothing is asked of it. */
  lemma Submit(cfg: Config, compared: bool, g: System, me: Id, tx: Transaction) returns (g': System)
    requires Ready(cfg, compared, g, me)
    ensures Ready(cfg, compared, g', me) && g'.sent == g.sent
    ensures var s := g.nodes[me]; g'.nodes == g.nodes[me := s.(mempool := s.mempool + [tx])]
  {
    g' := Act(cfg, compared, g, me, AddTransaction(tx));
    assert g.sent + [] == g.sent;
  }

  // ---- first blocks ----

  ghost predicate HashesAreNotNil(c: Crypto) { forall x :: c.hash(x) != NIL }

  /** A block over the given transactions, by the proposer of a round at height 0. */
  function FirstBlock(p: Params, round: int, txs: seq<Transaction>): Block
    requires p.N() > 0
  {
    Block(BuildHeader(p, p.ProposerFor(0, round), InitialNode, txs, LogicalTimestamp(0, round)), txs)
  }

  /** At height 0 with nothing decided; mempool and votes may be anything. */
  predicate AtGenesis(s: Node) { s.height == 0 && s.ledger == [] && s.store == EmptyState && !s.cs.decided }

  lemma FirstBlockPasses(p: Params, s: Node, round: int, txs: seq<Transaction>)
    requires p.N() > 0 && p.crypto.SignaturesCheck() && AtGenesis(s)
    requires forall tx :: tx in txs ==> p.crypto.TxVerifies(tx)
    ensures AcceptHeader(p, s, FirstBlock(p, round, txs).header, round)
    ensures ValidateBlock(p, s, FirstBlock(p, round, txs), round)
    ensures s.cs.round == round && s.cs.locked.None? ==>
      PrevoteFor(p, s, FirstBlock(p, round, txs)) == p.crypto.BlockHash(FirstBlock(p, round, txs))
  {
    BuiltHeaderAccepted(p, p.ProposerFor(0, round), InitialNode, s, txs, LogicalTimestamp(0, round), round);
  }

  lemma FreshIsFirst(p: Params, s: Node, round: int)
    requires p.N() > 0 && AtGenesis(s) && s.cs.valid.None? && s.cs.round == round
    ensures ProposedBlock(p, p.ProposerFor(0, round), s) == FirstBlock(p, round, s.mempool)
  {
  }

  lemma FirstBlocksDiffer(p: Params, round: int, other: int)
    requires p.N() > 0 && p.crypto.CollisionFree() && round != other
    ensures p.crypto.BlockHash(FirstBlock(p, round, [])) != p.crypto.BlockHash(FirstBlock(p, other, []))
  {
    var a, b := FirstBlock(p, round, []).header.Payload(), FirstBlock(p, other, []).header.Payload();
    assert a.timestamp != b.timestamp;
    assert HeaderObject(a) != HeaderObject(b);
  }

  // ---- agreement over all runs ----

  /** In every run the finalized hashes of any two honest validators are one a prefix of the other's. */
  ghost predicate AlwaysAgree(cfg: Config, compared: bool)
    requires cfg.Formed()
  {
    forall states, moves, v, w :: IsRunUnder(cfg, compared, states, moves) && cfg.Honest(v) && cfg.Honest(w) ==>
      AgreeAt(cfg, states[|moves|], v, w)
  }

  ghost predicate AgreeAt(cfg: Config, g: System, v: Id, w: Id) {
    && v in g.nodes && w in g.nodes
    && var x := Hashes(cfg.params, g.nodes[v].ledger); var y := Hashes(cfg.params, g.nodes[w].ledger); x <= y || y <= x
  }

  lemma SafeAtEnd(cfg: Config, g: System, v: Id, w: Id)
    requires cfg.Valid() && CanReach(cfg, true, g) && cfg.Honest(v) && cfg.Honest(w)
    ensures AgreeAt(cfg, g, v, w)
  {
    assert Reachable(cfg, g);
    ReachableIsOk(cfg, g);
    SystemAgrees(cfg, g, v, w);
  }

  lemma AgreesWhenSafe(cfg: Config)
    requires cfg.Valid()
    ensures AlwaysAgree(cfg, true)
  {
    forall states, moves, v, w | IsRunUnder(cfg, true, states, moves) && cfg.Honest(v) && cfg.Honest(w)
      ensures AgreeAt(cfg, states[|moves|], v, w)
    {
      var g := states[|moves|];
      SafeAtEnd(cfg, g, v, w);
    }
  }

  /** Two honest validators with different first blocks refute it. */
  lemma Refuted(cfg: Config, compared: bool, g: System, v: Id, w: Id, round: int, other: int)
    requires cfg.Formed() && CanReach(cfg, compared, g) && cfg.Honest(v) && cfg.Honest(w) && v in g.nodes && w in g.nodes
    requires cfg.params.crypto.CollisionFree() && round != other
    requires g.nodes[v].ledger == [FirstBlock(cfg.params, round, [])] && g.nodes[w].ledger == [FirstBlock(cfg.params, other, [])]
    ensures !AlwaysAgree(cfg, compared)
  {
    var states, moves :| IsRunUnder(cfg, compared, states, moves) && states[|moves|] == g;
    FirstBlocksDiffer(cfg.params, round, other);
    var x, y := Hashes(cfg.params, g.nodes[v].ledger), Hashes(cfg.params, g.nodes[w].ledger);
    assert x[0] != y[0];
    assert !AgreeAt(cfg, states[|moves|], v, w);
  }
}
