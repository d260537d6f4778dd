/** What holds over whole runs. */
module Safety {
  import opened Messages
  import opened Quorums
  import opened Protocol
  import opened Consensus
  import Rotation

  function Hashes(p: Params, ledger: seq<Block>): (hs: seq<Hash>)
    ensures |hs| == |ledger| && forall k :: 0 <= k < |ledger| ==> hs[k] == p.crypto.BlockHash(ledger[k])
  {
    seq(|ledger|, k requires 0 <= k < |ledger| => p.crypto.BlockHash(ledger[k]))
  }

  ghost predicate Grows(cfg: Config, g: System, g': System) {
    && g.sent <= g'.sent
    && forall v :: cfg.Honest(v) ==> v in g.nodes && v in g'.nodes && g.nodes[v].ledger <= g'.nodes[v].ledger
  }

  lemma StepGrows(cfg: Config, g: System, e: Move)
    requires cfg.Formed() && SystemOk(cfg, g) && CanHappen(cfg, true, g, e)
    ensures Grows(cfg, g, Next(cfg, g, e))
  {
    assert g.nodes[e.node].ledger <= Apply(cfg.params, e.node, g.nodes[e.node], e.action).ledger;
  }

  /** Over a run nothing sent is unsaid and nothing finalized is undone. */
  lemma {:induction false} LogGrows(cfg: Config, states: seq<System>, moves: seq<Move>, a: nat, b: nat)
    requires cfg.Formed() && IsRun(cfg, states, moves) && a <= b < |states|
    ensures Grows(cfg, states[a], states[b])
  {
    if a == b {
      RunIsOk(cfg, states, moves, a);
    } else {
      var k := b - 1;
      LogGrows(cfg, states, moves, a, k);
      RunIsOk(cfg, states, moves, k);
      assert CanHappen(cfg, true, states[k], moves[k]);
      StepGrows(cfg, states[k], moves[k]);
      GrowsTrans(cfg, states[a], states[k], states[b]);
    }
  }

  lemma GrowsTrans(cfg: Config, g: System, g1: System, g2: System)
    requires Grows(cfg, g, g1) && Grows(cfg, g1, g2)
    ensures Grows(cfg, g, g2)
  {
  }

  /** Agreement: the finalized hashes of any two honest validators, each at any time of the run,
      are one a prefix of the other. */
  lemma Agreement(cfg: Config, states: seq<System>, moves: seq<Move>, a: nat, v: Id, b: nat, w: Id)
    requires cfg.Valid() && IsRun(cfg, states, moves) && a < |states| && b < |states|
    requires cfg.Honest(v) && cfg.Honest(w)
    ensures v in states[a].nodes && w in states[b].nodes
    ensures var x := Hashes(cfg.params, states[a].nodes[v].ledger); var y := Hashes(cfg.params, states[b].nodes[w].ledger);
            x <= y || y <= x
  {
    hide SystemOk, Config.Formed;
    var last := |moves|;
    RunIsOk(cfg, states, moves, last);
    LogGrows(cfg, states, moves, a, last);
    LogGrows(cfg, states, moves, b, last);
    SystemAgrees(cfg, states[last], v, w);
    var x, y := states[last].nodes[v].ledger, states[last].nodes[w].ledger;
    assert Hashes(cfg.params, states[a].nodes[v].ledger) <= Hashes(cfg.params, x);
    assert Hashes(cfg.params, states[b].nodes[w].ledger) <= Hashes(cfg.params, y);
  }

  lemma SystemAgrees(cfg: Config, g: System, v: Id, w: Id)
    requires cfg.Valid() && SystemOk(cfg, g) && cfg.Honest(v) && cfg.Honest(w)
    ensures var x := Hashes(cfg.params, g.nodes[v].ledger); var y := Hashes(cfg.params, g.nodes[w].ledger);
            forall k :: 0 <= k < |x| && k < |y| ==> x[k] == y[k]
  {
    var x, y := g.nodes[v].ledger, g.nodes[w].ledger;
    forall k | 0 <= k < |x| && k < |y|
      ensures cfg.params.crypto.BlockHash(x[k]) == cfg.params.crypto.BlockHash(y[k])
    {
      var hx, hy := cfg.params.crypto.BlockHash(x[k]), cfg.params.crypto.BlockHash(y[k]);
      assert Decidable(cfg, g.sent, k, hx) && Decidable(cfg, g.sent, k, hy);
      var r1 :| Support(cfg, g.sent, k, r1, Precommit, hx);
      var r2 :| Support(cfg, g.sent, k, r2, Precommit, hy);
      OneDecision(cfg, g.sent, k, r1, hx, r2, hy);
    }
  }

  lemma CountedIsSupport(cfg: Config, states: seq<System>, moves: seq<Move>, k: nat, v: Id, round: int, phase: Phase, x: Hash)
    requires cfg.Formed() && IsRun(cfg, states, moves) && k < |states| && cfg.Honest(v) && v in states[k].nodes
    requires HasQuorum(cfg.params, states[k].nodes[v].cs, round, phase, x)
    ensures Support(cfg, states[|moves|].sent, states[k].nodes[v].height, round, phase, x)
  {
    RunIsOk(cfg, states, moves, k);
    LogGrows(cfg, states, moves, k, |moves|);
    QuorumIsSupport(cfg, states[k].sent, states[k].nodes[v], round, phase, x);
    SupportGrows(cfg, states[k].sent, states[|moves|].sent, states[k].nodes[v].height, round, phase, x);
  }

  /** Two honest validators never count quorums for different hashes in the same slot, NIL included:
      the faulty ones may show each of them something else, but not a whole quorum. */
  lemma OneQuorumEverywhere(cfg: Config, states: seq<System>, moves: seq<Move>,
                            a: nat, v: Id, x: Hash, b: nat, w: Id, y: Hash, round: int, phase: Phase)
    requires cfg.Valid() && IsRun(cfg, states, moves) && a < |states| && b < |states|
    requires cfg.Honest(v) && cfg.Honest(w) && v in states[a].nodes && w in states[b].nodes
    requires states[a].nodes[v].height == states[b].nodes[w].height
    requires HasQuorum(cfg.params, states[a].nodes[v].cs, round, phase, x)
    requires HasQuorum(cfg.params, states[b].nodes[w].cs, round, phase, y)
    ensures x == y
  {
    CountedIsSupport(cfg, states, moves, a, v, round, phase, x);
    CountedIsSupport(cfg, states, moves, b, w, round, phase, y);
    RunIsOk(cfg, states, moves, |moves|);
    OneSupportedHash(cfg, states[|moves|].sent, states[a].nodes[v].height, round, phase, x, y);
  }

  /** Lock persistence: if some honest validator ever counts a precommit quorum for one block, then no honest
      validator ever, before or after, counts a prevote quorum for another block in a later round of that height. */
  lemma LockPersistence(cfg: Config, states: seq<System>, moves: seq<Move>,
                        a: nat, v: Id, round: int, x: Hash, b: nat, w: Id, later: int, y: Hash)
    requires cfg.Valid() && IsRun(cfg, states, moves) && a < |states| && b < |states|
    requires cfg.Honest(v) && cfg.Honest(w) && v in states[a].nodes && w in states[b].nodes
    requires states[a].nodes[v].height == states[b].nodes[w].height && round < later && x != NIL && y != NIL
    requires HasQuorum(cfg.params, states[a].nodes[v].cs, round, Precommit, x)
    requires HasQuorum(cfg.params, states[b].nodes[w].cs, later, Prevote, y)
    ensures x == y
  {
    var last, height := |moves|, states[a].nodes[v].height;
    var sent := states[last].sent;
    CountedIsSupport(cfg, states, moves, a, v, round, Precommit, x);
    CountedIsSupport(cfg, states, moves, b, w, later, Prevote, y);
    RunIsOk(cfg, states, moves, last);
    assert sent[..|sent|] == sent;
    LockPersists(cfg, sent, |sent|, height, round, x, later, y);
  }

  /** The votes an honest validator signs are strictly increasing in (height, round, phase). */
  lemma VoteDiscipline(cfg: Config, states: seq<System>, moves: seq<Move>, k: nat, i: nat, j: nat)
    requires cfg.Formed() && IsRun(cfg, states, moves) && k < |states|
    requires i < j < |states[k].sent| && states[k].sent[i].validator == states[k].sent[j].validator
    ensures Before(states[k].sent[i], states[k].sent[j])
  {
    RunIsOk(cfg, states, moves, k);
  }

  /** Every precommit for a block follows prevotes for it by at least f+1 honest validators in the same round,
      and while its signer stays at that height it is locked on a round at least as recent. */
  lemma PrecommitBacked(cfg: Config, states: seq<System>, moves: seq<Move>, k: nat, i: nat) returns (voters: set<Id>)
    requires cfg.Formed() && IsRun(cfg, states, moves) && k < |states| && i < |states[k].sent|
    requires states[k].sent[i].phase == Precommit && states[k].sent[i].blockHash != NIL
    ensures var v := states[k].sent[i];
      && |voters| >= cfg.params.F() + 1
      && (forall u :: u in voters ==> cfg.Honest(u) && Vote(u, v.height, v.round, Prevote, v.blockHash) in states[k].sent[..i])
      && v.validator in states[k].nodes
      && (states[k].nodes[v.validator].height == v.height ==>
            states[k].nodes[v.validator].cs.locked.Some? && states[k].nodes[v.validator].cs.lockedRound >= v.round)
  {
    RunIsOk(cfg, states, moves, k);
    var v := states[k].sent[i];
    assert v in states[k].sent;
    voters := HonestSupporters(cfg, states[k].sent[..i], v.height, v.round, Prevote, v.blockHash);
  }

  /** Step j of the run is validator v precommitting a hash, in the given height and round, with a prevote quorum for
      it in its own bucket and a lock on that round or a later one. */
  ghost predicate CountedAt(cfg: Config, states: seq<System>, moves: seq<Move>, j: nat, v: Id, height: int, round: int, hash: Hash)
    requires cfg.Formed() && |states| == |moves| + 1
  {
    && j < |moves| && moves[j].node == v && moves[j].action == CastPrecommit(hash) && v in states[j].nodes
    && var s := states[j].nodes[v];
       s.height == height && s.cs.round == round && s.cs.step == PrevoteStep && s.cs.lockedRound >= round &&
       HasQuorum(cfg.params, s.cs, round, Prevote, hash)
  }

  lemma {:induction false} PrecommitCounted(cfg: Config, states: seq<System>, moves: seq<Move>, k: nat, v: Vote) returns (j: nat)
    requires cfg.Formed() && IsRun(cfg, states, moves) && k < |states|
    requires v in states[k].sent && v.phase == Precommit && v.blockHash != NIL
    ensures j < k && CountedAt(cfg, states, moves, j, v.validator, v.height, v.round, v.blockHash)
  {
    var g, e := states[k - 1], moves[k - 1];
    assert states[k] == Next(cfg, g, e);
    if v in g.sent {
      j := PrecommitCounted(cfg, states, moves, k - 1, v);
    } else {
      assert v in Emitted(cfg.params, e.node, g.nodes[e.node], e.action);
      j := k - 1;
    }
  }

  lemma HonestSupporters(cfg: Config, sent: seq<Vote>, height: int, round: int, phase: Phase, hash: Hash)
    returns (voters: set<Id>)
    requires cfg.Formed() && Support(cfg, sent, height, round, phase, hash)
    ensures |voters| >= cfg.params.F() + 1
    ensures forall u :: u in voters ==> cfg.Honest(u) && Vote(u, height, round, phase, hash) in sent
  {
    var all := Supporters(cfg, sent, height, round, phase, hash);
    voters := all - cfg.byzantine;
    SubsetSize(all, voters + cfg.byzantine);
  }

  // ---- external validity ----

  /** Step j of the run is validator v, in the given height and round, prevoting a block with the given hash
      that passed full validation. */
  ghost predicate ValidatedAt(cfg: Config, states: seq<System>, moves: seq<Move>, j: nat, v: Id, height: int, round: int, hash: Hash)
    requires cfg.Formed() && |states| == |moves| + 1
  {
    && j < |moves| && moves[j].node == v && moves[j].action.CastPrevote? && v in states[j].nodes
    && var s := states[j].nodes[v]; var block := moves[j].action.block;
       s.height == height && s.cs.round == round && s.cs.step == ProposeStep &&
       cfg.params.crypto.BlockHash(block) == hash && ValidateBlock(cfg.params, s, block, round)
  }

  lemma {:induction false} PrevoteValidated(cfg: Config, states: seq<System>, moves: seq<Move>, k: nat, v: Vote) returns (j: nat)
    requires cfg.Formed() && IsRun(cfg, states, moves) && k < |states|
    requires v in states[k].sent && v.phase == Prevote && v.blockHash != NIL
    ensures j < k && ValidatedAt(cfg, states, moves, j, v.validator, v.height, v.round, v.blockHash)
  {
    var g, e := states[k - 1], moves[k - 1];
    assert states[k] == Next(cfg, g, e);
    if v in g.sent {
      j := PrevoteValidated(cfg, states, moves, k - 1, v);
    } else {
      assert v in Emitted(cfg.params, e.node, g.nodes[e.node], e.action);
      j := k - 1;
    }
  }

  /** Behind a hash that can be decided stand prevotes of at least f+1 honest validators in one round. */
  lemma DecisionIsPrevoted(cfg: Config, sent: seq<Vote>, h: int, hash: Hash) returns (round: int, voters: set<Id>)
    requires cfg.Formed() && LogOk(cfg, sent) && Decidable(cfg, sent, h, hash)
    ensures |voters| >= cfg.params.F() + 1
    ensures forall u :: u in voters ==> cfg.Honest(u) && Vote(u, h, round, Prevote, hash) in sent
  {
    round :| Support(cfg, sent, h, round, Precommit, hash);
    var backers := HonestSupporters(cfg, sent, h, round, Precommit, hash);
    var u :| u in backers;
    var i :| 0 <= i < |sent| && sent[i] == Vote(u, h, round, Precommit, hash);
    voters := HonestSupporters(cfg, sent[..i], h, round, Prevote, hash);
  }

  /** External validity: every finalized hash was prevoted, in one round of its height, by at least f+1 honest
      validators, each after a block with that hash passed its own full validation. */
  lemma ExternalValidity(cfg: Config, states: seq<System>, moves: seq<Move>, k: nat, v: Id, h: nat)
    returns (round: int, voters: set<Id>)
    requires cfg.Formed() && IsRun(cfg, states, moves) && k < |states| && cfg.Honest(v)
    requires v in states[k].nodes && h < |states[k].nodes[v].ledger|
    ensures |voters| >= cfg.params.F() + 1
    ensures forall u :: u in voters ==> cfg.Honest(u) && exists j ::
      ValidatedAt(cfg, states, moves, j, u, h, round, cfg.params.crypto.BlockHash(states[k].nodes[v].ledger[h]))
  {
    RunIsOk(cfg, states, moves, k);
    var sent, hash := states[k].sent, cfg.params.crypto.BlockHash(states[k].nodes[v].ledger[h]);
    assert Decidable(cfg, sent, h, hash);
    hide SystemOk, LogOk, ValidatedAt, IsRun;
    round, voters := DecisionIsPrevoted(cfg, sent, h, hash);
    forall u | u in voters
      ensures exists j :: ValidatedAt(cfg, states, moves, j, u, h, round, hash)
    {
      var j := PrevoteValidated(cfg, states, moves, k, Vote(u, h, round, Prevote, hash));
    }
  }

  /** Each finalized hash is that of a header for its height that the proposer of some round of it signed. */
  lemma FinalizedIsSigned(cfg: Config, states: seq<System>, moves: seq<Move>, k: nat, v: Id, h: nat)
    returns (round: int, header: BlockHeader)
    requires cfg.Formed() && IsRun(cfg, states, moves) && k < |states| && cfg.Honest(v)
    requires v in states[k].nodes && h < |states[k].nodes[v].ledger|
    ensures cfg.params.crypto.HeaderHash(header) == cfg.params.crypto.BlockHash(states[k].nodes[v].ledger[h])
    ensures header.height == h && header.proposer == cfg.params.ProposerFor(h, round) && header.signature.Some?
    ensures cfg.params.crypto.check(header.proposer, HeaderDomain(header.Payload()), header.signature.value)
  {
    var voters;
    round, voters := ExternalValidity(cfg, states, moves, k, v, h);
    hide IsRun, ValidatedAt;
    assert voters != {};
    var u :| u in voters;
    var hash := cfg.params.crypto.BlockHash(states[k].nodes[v].ledger[h]);
    var j: nat :| ValidatedAt(cfg, states, moves, j, u, h, round, hash);
    header := ValidatedIsSigned(cfg, states, moves, j, u, h, round, hash);
  }

  lemma ValidatedIsSigned(cfg: Config, states: seq<System>, moves: seq<Move>, j: nat, v: Id, height: int, round: int, hash: Hash)
    returns (header: BlockHeader)
    requires cfg.Formed() && |states| == |moves| + 1 && ValidatedAt(cfg, states, moves, j, v, height, round, hash)
    ensures cfg.params.crypto.HeaderHash(header) == hash && header.height == height
    ensures header.proposer == cfg.params.ProposerFor(height, round) && header.signature.Some?
    ensures cfg.params.crypto.check(header.proposer, HeaderDomain(header.Payload()), header.signature.value)
  {
    header := moves[j].action.block.header;
  }

  // ---- rotation ----

  /** With a collision-free hash, all honest prevotes for one block fall in rounds congruent modulo n:
      a block proposed again in another validator's turn is not prevoted. */
  lemma PrevotesCongruent(cfg: Config, states: seq<System>, moves: seq<Move>, k: nat, a: Vote, b: Vote)
    requires cfg.Formed() && IsRun(cfg, states, moves) && k < |states| && cfg.params.crypto.CollisionFree()
    requires a in states[k].sent && b in states[k].sent && a.phase == Prevote && b.phase == Prevote
    requires a.blockHash == b.blockHash != NIL
    ensures a.height == b.height && (a.round - b.round) % cfg.params.N() == 0
  {
    var i := PrevoteValidated(cfg, states, moves, k, a);
    var j := PrevoteValidated(cfg, states, moves, k, b);
    var x, y := moves[i].action.block.header, moves[j].action.block.header;
    assert HeaderObject(x.Payload()) == HeaderObject(y.Payload());
    assert x.height == x.Payload().height == y.height && x.proposer == x.Payload().proposer == y.proposer;
    Rotation.SameProposerIff(cfg.params, a.height, a.round, b.round);
  }

  /** A block that was valid in one round is prevoted in another, by a validator free to prevote it, exactly when the
      rounds are congruent modulo n: proposed again in another validator's turn, it is prevoted against. */
  lemma ReproposedIff(p: Params, s: Node, block: Block, round: int)
    requires p.WellFormed() && ValidateBlock(p, s, block, round) && p.crypto.BlockHash(block) != NIL
    requires s.cs.locked.Some? ==> p.crypto.BlockHash(block) == p.crypto.BlockHash(s.cs.locked.value)
    ensures PrevoteFor(p, s, block) == p.crypto.BlockHash(block) <==> (round - s.cs.round) % p.N() == 0
    ensures (round - s.cs.round) % p.N() != 0 ==> PrevoteFor(p, s, block) == NIL
  {
    Rotation.SameProposerIff(p, s.height, round, s.cs.round);
  }
}
