/** Why agreement asks that a delivered vote carry the phase it was signed for, and why agreement on state asks that a
    finalized block passed its holder's own validation: when each fails, and exactly when. */
module Counterexamples {
  import opened Messages
  import opened Quorums
  import opened Execution
  import opened Protocol
  import opened Consensus
  import opened Safety
  import opened Chain
  import opened Gossip
  import opened Replay
  import opened Runs
  import opened Factions
  import opened Disagreement

  lemma TwoHonest(cfg: Config) returns (a: Id, c: Id)
    requires cfg.Formed() && cfg.params.N() >= 2
    ensures a in HonestSet(cfg) && c in HonestSet(cfg) && a != c
  {
    HonestSize(cfg);
    a :| a in HonestSet(cfg);
    if HonestSet(cfg) <= {a} {
      SubsetSize(HonestSet(cfg), {a});
      assert false;
    }
    c :| c in HonestSet(cfg) && c != a;
  }

  /** All validators but one are still enough for a quorum. */
  lemma AllButOne(cfg: Config, a: Id)
    requires cfg.Formed() && cfg.params.N() >= 2 && a in HonestSet(cfg)
    ensures |HonestSet(cfg) - {a}| + |cfg.byzantine| >= cfg.params.Quorum()
  {
    HonestSize(cfg);
    assert |HonestSet(cfg) - {a}| == |HonestSet(cfg)| - 1;
  }

  // ---- a vote that arrives as the other kind ----

  /** In one round all honest validators prevote X, and one of them counts these prevotes twice: as they are, to lock and
      precommit, and delivered to it again as precommits, to decide. In a later round the others, who have heard
      nothing, finalize Y. */
  lemma TwoDecisions(cfg: Config, first: Faction, a: Id, second: Faction) returns (g: System)
    requires cfg.Formed() && Ideal(cfg.params.crypto) && first.Formed(cfg) && second.Formed(cfg)
    requires first.txs == [] == second.txs && first.odd == {} == second.odd && 0 < first.round < second.round
    requires a in first.members && forall v :: v in second.members ==> v in first.members && v != a
    ensures CanReach(cfg, false, g) && a in g.nodes && second.members[0] in g.nodes
    ensures g.nodes[a].ledger == [first.Block(cfg.params)]
    ensures g.nodes[second.members[0]].ledger == [second.Block(cfg.params)]
  {
    WaitsAtStart(cfg, false, first);
    hide CanReach, Passing, Start, Ideal, FirstBlock, AllIdle, Faction.Formed, Config.Formed;
    g := AllCome(cfg, false, Start(cfg), first);
    g := PrevotesDecide(cfg, g, first, a);
    g := ComesAndDecides(cfg, false, g, second);
  }

  /** All honest validators, and all but one in a later round that one does not lead. */
  lemma NestedFactions(cfg: Config) returns (first: Faction, a: Id, second: Faction)
    requires cfg.Formed() && cfg.params.N() >= 2
    ensures first.Formed(cfg) && second.Formed(cfg) && 0 < first.round < second.round
    ensures first.txs == [] == second.txs && first.odd == {} == second.odd
    ensures a in first.members && forall v :: v in second.members ==> v in first.members && v != a
  {
    hide Faction.Formed, HonestSet, QuorumSize, FaultBound;
    var c: Id;
    a, c := TwoHonest(cfg);
    AllButOne(cfg, a);
    assert c in HonestSet(cfg) - {a} && HonestSet(cfg) - {a} <= HonestSet(cfg);
    SubsetSize(HonestSet(cfg) - {a}, HonestSet(cfg));
    first := LedGroup(cfg, HonestSet(cfg), 0);
    second := LedGroup(cfg, HonestSet(cfg) - {a}, first.round);
  }

  lemma PhaseIgnored(cfg: Config)
    requires cfg.Formed() && cfg.params.N() >= 2 && Ideal(cfg.params.crypto)
    ensures !AlwaysAgree(cfg, false)
  {
    var first, a, second := NestedFactions(cfg);
    var g := TwoDecisions(cfg, first, a, second);
    hide AlwaysAgree, CanReach, FirstBlock;
    Refuted(cfg, false, g, a, second.members[0], first.round, second.round);
  }

  /** A validator alone agrees with itself. */
  lemma AloneAgrees(cfg: Config, compared: bool)
    requires cfg.Formed() && cfg.params.N() == 1
    ensures AlwaysAgree(cfg, compared)
  {
    forall states, moves, v, w | IsRunUnder(cfg, compared, states, moves) && cfg.Honest(v) && cfg.Honest(w)
      ensures AgreeAt(cfg, states[|moves|], v, w)
    {
      EverybodyStays(cfg, compared, states, moves, |moves|, v);
    }
  }

  lemma {:induction false} EverybodyStays(cfg: Config, compared: bool, states: seq<System>, moves: seq<Move>, k: nat, v: Id)
    requires cfg.Formed() && IsRunUnder(cfg, compared, states, moves) && k < |states| && cfg.Honest(v)
    ensures v in states[k].nodes
  {
    if k > 0 {
      var j := k - 1;
      EverybodyStays(cfg, compared, states, moves, j, v);
      assert states[j + 1] == Next(cfg, states[j], moves[j]);
    }
  }

  /** Agreement, exactly. Whatever the number of validators and whichever of them are faulty, honest validators agree in
      every run if and only if there is a single validator, or two quorums always share an honest one and votes are
      delivered as the kind they were signed as. */
  lemma AgreementNeedsThePhase(cfg: Config, compared: bool)
    requires cfg.Formed() && Ideal(cfg.params.crypto)
    ensures AlwaysAgree(cfg, compared) <==>
              cfg.params.N() == 1 || (compared && 2 * cfg.params.Quorum() > cfg.params.N() + |cfg.byzantine|)
  {
    if cfg.params.N() == 1 {
      AloneAgrees(cfg, compared);
    } else if compared {
      AgreementIff(cfg);
    } else {
      PhaseIgnored(cfg);
    }
  }

  // ---- a body nobody validated ----

  /** In every reachable state honest validators at one height hold the same data and nonces. */
  ghost predicate StoresAgree(cfg: Config)
    requires cfg.Formed()
  {
    forall g, v, w ::
      Reachable(cfg, g) && cfg.Honest(v) && cfg.Honest(w) && v in g.nodes && w in g.nodes && g.nodes[v].height == g.nodes[w].height
      ==> g.nodes[v].store == g.nodes[w].store
  }

  /** Each member of a faction with one transaction rebuilds what it holds from its own pool and the proposal. */
  lemma RebuiltFromPool(p: Params, f: Faction, me: Id, tx: Transaction)
    requires p.N() > 0 && f.txs == [tx]
    ensures var hashes, pool := p.crypto.TxHashes(f.Block(p).transactions), Pool(p.crypto, f.Pool(me));
      (forall h :: h in hashes ==> h in pool) && Block(f.Block(p).header, Lookup(hashes, pool)) == f.Held(p, me)
  {
    var hashes := p.crypto.TxHashes(f.Block(p).transactions);
    var copy := f.Pool(me)[0];
    assert copy.Payload() == tx.Payload() && p.crypto.TxHash(copy) == p.crypto.TxHash(tx);
    assert f.Pool(me)[..0] == [] && hashes == [p.crypto.TxHash(tx)];
    assert Lookup(hashes, Pool(p.crypto, f.Pool(me))) == [copy];
    assert f.Held(p, me).transactions == [copy];
  }

  /** All honest validators in a round one of them leads, with a transaction; one of the others holds an unsigned copy. */
  lemma OddFaction(cfg: Config, tx: Transaction) returns (f: Faction, a: Id, c: Id)
    requires cfg.Formed() && cfg.params.N() >= 2 && cfg.params.crypto.TxVerifies(tx)
    ensures f.Formed(cfg) && f.round > 0 && f.txs == [tx] && f.odd == {c}
    ensures a in f.members && c in f.members && a != c
  {
    a, c := TwoHonest(cfg);
    AllButOne(cfg, c);
    var round := LedRound(cfg, {a}, 0);
    hide Faction.Formed, Params.ProposerFor;
    f := Group(cfg, HonestSet(cfg), {c}, round, [tx]);
    GroupIsFormed(cfg, HonestSet(cfg), {c}, round, [tx]);
  }

  /** The odd one rebuilds the block from its pool, prevotes against it, then locks, precommits and finalizes it by its
      hash, skipping the unsigned transaction; another one finalizes the block as it was proposed. */
  lemma TwoBodies(cfg: Config, f: Faction, a: Id, c: Id) returns (g: System)
    requires cfg.Formed() && Ideal(cfg.params.crypto) && f.Formed(cfg) && f.round > 0 && |f.txs| == 1 && f.odd == {c}
    requires a in f.members && c in f.members && a != c
    ensures Reachable(cfg, g) && a in g.nodes && c in g.nodes
    ensures var p := cfg.params; var block := FirstBlock(p, f.round, f.txs);
      && g.nodes[a].height == 1 && g.nodes[a].ledger == [block] && g.nodes[a].store == ApplyAll(p.crypto, EmptyState, f.txs)
      && g.nodes[c].height == 1 && g.nodes[c].ledger == [Unsigned(block)]
      && g.nodes[c].store == ApplyAll(p.crypto, EmptyState, Stripped(f.txs))
  {
    WaitsAtStart(cfg, true, f);
    hide CanReach, Waiting, Start, Ideal, AllIdle, Faction.Formed, Config.Formed, ApplyAll;
    g := AllCome(cfg, true, Start(cfg), f);
    g := TwoDecide(cfg, true, g, f, a, c);
    assert a in {a, c} && c in {a, c};
  }

  lemma UnsignedDoesNothing(c: Crypto, tx: Transaction)
    requires CanApply(c, EmptyState, tx)
    ensures ApplyAll(c, EmptyState, Stripped([tx])) == EmptyState
    ensures tx.key in ApplyAll(c, EmptyState, [tx]).data && c.TxVerifies(tx)
  {
    assert [tx][..0] == [] && Stripped([tx])[..0] == [];
  }

  lemma UnsignedIsNotValidated(p: Params, block: Block)
    requires p.N() > 0 && block.transactions != []
    ensures !LocallyValidated(p, [Unsigned(block)])
  {
    var ledger := [Unsigned(block)];
    forall r ensures !ValidateBlock(p, NodeAt(p, ledger[..0]), ledger[0], r) {
      UnsignedFails(p, NodeAt(p, ledger[..0]), block, r);
    }
    assert !PassesOn(p, ledger[..0], ledger[0]);
  }

  /** State agreement needs local validation. With no validator faulty or some, as long as there are two, a run leads two
      honest validators to equal hashes, as it must, and different data: one of them finalized a block whose body fails
      its own validation. */
  lemma StateAgreementNeedsValidation(cfg: Config, tx: Transaction) returns (g: System, v: Id, w: Id)
    requires cfg.Formed() && cfg.params.N() >= 2 && Ideal(cfg.params.crypto)
    requires CanApply(cfg.params.crypto, EmptyState, tx)
    ensures Reachable(cfg, g) && cfg.Honest(v) && cfg.Honest(w) && v in g.nodes && w in g.nodes
    ensures g.nodes[v].height == g.nodes[w].height
    ensures Hashes(cfg.params, g.nodes[v].ledger) == Hashes(cfg.params, g.nodes[w].ledger)
    ensures g.nodes[v].store.data != g.nodes[w].store.data
    ensures !LocallyValidated(cfg.params, g.nodes[w].ledger)
  {
    UnsignedDoesNothing(cfg.params.crypto, tx);
    var f: Faction;
    f, v, w := OddFaction(cfg, tx);
    assert cfg.Honest(v) && cfg.Honest(w);
    UnsignedIsNotValidated(cfg.params, FirstBlock(cfg.params, f.round, [tx]));
    hide Reachable, LocallyValidated, Faction.Formed, ApplyAll, CanApply, FirstBlock, Stripped;
    g := TwoBodies(cfg, f, v, w);
  }

  /** State agreement, exactly: honest validators at one height hold one store in every reachable state if and only if
      there is a single validator. */
  lemma StoresAgreeIff(cfg: Config, tx: Transaction)
    requires cfg.Formed() && Ideal(cfg.params.crypto) && CanApply(cfg.params.crypto, EmptyState, tx)
    ensures StoresAgree(cfg) <==> cfg.params.N() == 1
  {
    if cfg.params.N() >= 2 {
      hide LocallyValidated, Ideal, CanApply;
      var g, v, w := StateAgreementNeedsValidation(cfg, tx);
      assert g.nodes[v].store != g.nodes[w].store;
    }
  }
}
