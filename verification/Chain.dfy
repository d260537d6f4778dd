/** The finalized chain: what a ledger determines. */
module Chain {
  import opened Messages
  import opened Execution
  import opened Protocol
  import opened Consensus
  import opened Safety

  function Payloads(ledger: seq<Block>): (hs: seq<BlockHeader>)
    ensures |hs| == |ledger| && forall k :: 0 <= k < |ledger| ==> hs[k] == ledger[k].header.Payload()
  {
    seq(|ledger|, k requires 0 <= k < |ledger| => ledger[k].header.Payload())
  }

  lemma SameHashSamePayload(c: Crypto, a: BlockHeader, b: BlockHeader)
    requires c.CollisionFree() && c.HeaderHash(a) == c.HeaderHash(b)
    ensures a.Payload() == b.Payload()
  {
    assert HeaderObject(a.Payload()) == HeaderObject(b.Payload());
  }

  lemma PayloadFields(a: BlockHeader, b: BlockHeader)
    requires a.Payload() == b.Payload()
    ensures b == a.(signature := b.signature)
  {
    assert a == a.Payload().(signature := a.signature) && b == b.Payload().(signature := b.signature);
  }

  lemma NamesParent(p: Params, ledger: seq<Block>, k: nat)
    requires Chained(p, ledger) && 0 < k < |ledger|
    ensures ledger[k].header.parentHash == p.crypto.BlockHash(ledger[k - 1])
  {
    assert ledger[..k][k - 1] == ledger[k - 1];
  }

  /** From equal headers down to equal headers, one parent at a time. */
  lemma {:induction false} SameBelow(p: Params, a: seq<Block>, b: seq<Block>, top: nat, k: nat)
    requires p.crypto.CollisionFree() && Chained(p, a) && Chained(p, b) && k <= top < |a| && top < |b|
    requires a[top].header.Payload() == b[top].header.Payload()
    ensures a[k].header.Payload() == b[k].header.Payload()
    decreases top - k
  {
    hide Crypto.CollisionFree, Chained;
    if k < top {
      SameBelow(p, a, b, top, k + 1);
      PayloadFields(a[k + 1].header, b[k + 1].header);
      NamesParent(p, a, k + 1);
      NamesParent(p, b, k + 1);
      SameHashSamePayload(p.crypto, a[k].header, b[k].header);
    }
  }

  /** The last hash a validator reports, none while its ledger is empty. */
  function LastHash(p: Params, ledger: seq<Block>): Option<Hash> {
    if ledger == [] then None else Some(p.crypto.BlockHash(ledger[|ledger| - 1]))
  }

  lemma SameLengthAsHead(p: Params, a: seq<Block>, b: seq<Block>)
    requires p.crypto.CollisionFree() && Chained(p, a) && Chained(p, b) && LastHash(p, a) == LastHash(p, b)
    ensures |a| == |b|
    ensures a != [] ==> a[|a| - 1].header.Payload() == b[|a| - 1].header.Payload()
  {
    if a != [] {
      SameHashSamePayload(p.crypto, a[|a| - 1].header, b[|b| - 1].header);
      PayloadFields(a[|a| - 1].header, b[|b| - 1].header);
    }
  }

  /** Head determinism: the last hash stands for the whole chain. */
  lemma SameHeadIff(p: Params, a: seq<Block>, b: seq<Block>)
    requires p.crypto.CollisionFree() && Chained(p, a) && Chained(p, b)
    ensures LastHash(p, a) == LastHash(p, b) <==> Payloads(a) == Payloads(b)
  {
    hide Crypto.CollisionFree, Chained;
    if Payloads(a) == Payloads(b) {
      assert |a| == |Payloads(a)| == |b|;
      if a != [] { assert Payloads(a)[|a| - 1] == Payloads(b)[|b| - 1]; }
    }
    if LastHash(p, a) == LastHash(p, b) {
      SameLengthAsHead(p, a, b);
      forall k | 0 <= k < |a| ensures a[k].header.Payload() == b[k].header.Payload() {
        SameBelow(p, a, b, |a| - 1, k);
      }
    }
  }

  /** In every reachable state the live store is the ledger replayed from nothing,
      the height counts the ledger, and the ledger is a hash chain from genesis. */
  lemma LedgerReplay(cfg: Config, states: seq<System>, moves: seq<Move>, k: nat, v: Id)
    requires cfg.Formed() && IsRun(cfg, states, moves) && k < |states| && cfg.Honest(v)
    ensures v in states[k].nodes
    ensures var s := states[k].nodes[v];
      && s.store == ApplyAll(cfg.params.crypto, EmptyState, LedgerTxs(s.ledger))
      && s.height == |s.ledger|
      && Chained(cfg.params, s.ledger)
  {
    RunIsOk(cfg, states, moves, k);
  }

  /** Over the whole chain a (sender, nonce) pair changes the state at most once, and replaying
      anything from the chain against the live state changes nothing. */
  lemma ChainExactlyOnce(cfg: Config, states: seq<System>, moves: seq<Move>, k: nat, v: Id, i: nat, j: nat, replay: seq<Transaction>)
    requires cfg.Formed() && IsRun(cfg, states, moves) && k < |states| && cfg.Honest(v) && v in states[k].nodes
    requires i < j < |LedgerTxs(states[k].nodes[v].ledger)|
    requires LedgerTxs(states[k].nodes[v].ledger)[i].sender == LedgerTxs(states[k].nodes[v].ledger)[j].sender
    requires LedgerTxs(states[k].nodes[v].ledger)[i].nonce == LedgerTxs(states[k].nodes[v].ledger)[j].nonce
    requires forall tx :: tx in replay ==> tx in LedgerTxs(states[k].nodes[v].ledger)
    ensures var txs := LedgerTxs(states[k].nodes[v].ledger); var c := cfg.params.crypto;
      !TakesEffect(c, EmptyState, txs, i) || !TakesEffect(c, EmptyState, txs, j)
    ensures ApplyAll(cfg.params.crypto, states[k].nodes[v].store, replay) == states[k].nodes[v].store
  {
    RunIsOk(cfg, states, moves, k);
    var c, txs := cfg.params.crypto, LedgerTxs(states[k].nodes[v].ledger);
    if TakesEffect(c, EmptyState, txs, i) && TakesEffect(c, EmptyState, txs, j) {
      ExactlyOnce(c, EmptyState, txs, i, j);
    }
    ReplayChangesNothing(c, EmptyState, txs, replay);
  }

  /** Over the whole chain every stored key is owned by whoever wrote it last with effect, under a signature of its own, and
      holds what that wrote; nothing else is stored. */
  lemma ChainOwnership(cfg: Config, states: seq<System>, moves: seq<Move>, k: nat, v: Id, key: string) returns (writer: Option<nat>)
    requires cfg.Formed() && IsRun(cfg, states, moves) && k < |states| && cfg.Honest(v)
    ensures v in states[k].nodes
    ensures var c := cfg.params.crypto; var s := states[k].nodes[v]; var txs := LedgerTxs(s.ledger);
      && (key in s.store.data <==> writer.Some?)
      && (writer.None? ==> Unwritten(c, EmptyState, txs, key))
      && (writer.Some? ==>
            && LastWriter(c, EmptyState, txs, key, writer.value) && Owner(key) == Some(txs[writer.value].sender)
            && s.store.data[key] == txs[writer.value].value && txs[writer.value].signature.Some?
            && c.check(txs[writer.value].sender, TxDomain(txs[writer.value].Payload()), txs[writer.value].signature.value))
  {
    LedgerReplay(cfg, states, moves, k, v);
    writer := StoredByOwner(cfg.params.crypto, EmptyState, LedgerTxs(states[k].nodes[v].ledger), key);
  }

  // ---- state agreement, under local validation ----

  /** The validator as it was when its ledger was this long. */
  function NodeAt(p: Params, ledger: seq<Block>): Node {
    Node(|ledger|, ledger, [], ApplyAll(p.crypto, EmptyState, LedgerTxs(ledger)), FreshHeight)
  }

  ghost predicate PassesOn(p: Params, below: seq<Block>, block: Block)
    requires p.N() > 0
  {
    exists r :: ValidateBlock(p, NodeAt(p, below), block, r)
  }

  /** Every block of the ledger passed full validation against the ledger below it. */
  ghost predicate LocallyValidated(p: Params, ledger: seq<Block>)
    requires p.N() > 0
  {
    forall k :: 0 <= k < |ledger| ==> PassesOn(p, ledger[..k], ledger[k])
  }

  /** Verified transactions that agree but for their signatures do the same. */
  lemma {:induction false} SignaturesDoNotMatter(c: Crypto, s: StateValue, a: seq<Transaction>, b: seq<Transaction>)
    requires |a| == |b| && forall i :: 0 <= i < |a| ==>
      a[i].Payload() == b[i].Payload() && c.TxVerifies(a[i]) && c.TxVerifies(b[i])
    ensures ApplyAll(c, s, a) == ApplyAll(c, s, b)
  {
    if a != [] {
      var k := |a| - 1;
      SignaturesDoNotMatter(c, s, a[..k], b[..k]);
      assert a[k] == b[k].(signature := a[k].signature) by {
        assert a[k] == a[k].Payload().(signature := a[k].signature);
        assert b[k] == b[k].Payload().(signature := b[k].signature);
      }
    }
  }

  lemma SameRootSamePayloads(c: Crypto, a: seq<Transaction>, b: seq<Transaction>)
    requires c.CollisionFree() && c.TxRoot(a) == c.TxRoot(b)
    ensures |a| == |b| && forall i :: 0 <= i < |a| ==> a[i].Payload() == b[i].Payload()
  {
    assert ListObject(c.TxHashes(a)) == ListObject(c.TxHashes(b));
    assert c.TxHashes(a) == c.TxHashes(b);
    forall i | 0 <= i < |a| ensures a[i].Payload() == b[i].Payload() {
      assert c.TxHashes(a)[i] == c.TxHashes(b)[i];
      assert TxObject(a[i].Payload()) == TxObject(b[i].Payload());
    }
  }

  /** Two validated blocks with one hash, on equal states, have the same effect. */
  lemma SameHashSameEffect(p: Params, m: Node, a: Block, ra: int, n: Node, b: Block, rb: int)
    requires p.N() > 0 && p.crypto.CollisionFree() && p.crypto.BlockHash(a) == p.crypto.BlockHash(b)
    requires m.store == n.store && ValidateBlock(p, m, a, ra) && ValidateBlock(p, n, b, rb)
    ensures ApplyAll(p.crypto, m.store, a.transactions) == ApplyAll(p.crypto, n.store, b.transactions)
  {
    SameHashSamePayload(p.crypto, a.header, b.header);
    PayloadFields(a.header, b.header);
    SameRootSamePayloads(p.crypto, a.transactions, b.transactions);
    SignaturesDoNotMatter(p.crypto, m.store, a.transactions, b.transactions);
  }

  /** A block's hash does not cover its body. Of the blocks that share the hash of a valid one, those are valid that
      carry the same transactions in the same order, all signatures good; any other body makes the block invalid. */
  lemma BodyValidIff(p: Params, s: Node, a: Block, b: Block, round: int)
    requires p.N() > 0 && p.crypto.CollisionFree() && p.crypto.BlockHash(a) == p.crypto.BlockHash(b)
    requires ValidateBlock(p, s, a, round)
    ensures ValidateBlock(p, s, b, round) <==>
      && p.crypto.HeaderVerifies(b.header)
      && p.crypto.TxHashes(b.transactions) == p.crypto.TxHashes(a.transactions)
      && forall tx :: tx in b.transactions ==> p.crypto.TxVerifies(tx)
  {
    var c := p.crypto;
    SameHashSamePayload(c, a.header, b.header);
    PayloadFields(a.header, b.header);
    if ValidateBlock(p, s, b, round) {
      assert ListObject(c.TxHashes(a.transactions)) == ListObject(c.TxHashes(b.transactions));
    }
    if c.TxHashes(b.transactions) == c.TxHashes(a.transactions) && forall tx :: tx in b.transactions ==> c.TxVerifies(tx) {
      SameRootSamePayloads(c, a.transactions, b.transactions);
      SignaturesDoNotMatter(c, s.store, a.transactions, b.transactions);
    }
  }

  /** A block that passes validation names the data its transactions lead to: no state with other data has that root. */
  lemma ValidNamesItsState(p: Params, s: Node, block: Block, round: int, t: StateValue)
    requires p.N() > 0 && p.crypto.CollisionFree() && ValidateBlock(p, s, block, round)
    ensures StateRoot(p.crypto, t) == block.header.stateRoot <==> t.data == ApplyAll(p.crypto, s.store, block.transactions).data
  {
    SameRootIff(p.crypto, t, ApplyAll(p.crypto, s.store, block.transactions));
  }

  lemma ValidatedPrefix(p: Params, ledger: seq<Block>, k: nat)
    requires p.N() > 0 && LocallyValidated(p, ledger) && k <= |ledger|
    ensures LocallyValidated(p, ledger[..k]) && Hashes(p, ledger[..k]) == Hashes(p, ledger)[..k]
  {
    forall j | 0 <= j < k ensures ledger[..k][..j] == ledger[..j] {}
  }

  /** Validated ledgers with the same hashes replay to the same state, data and nonces alike. */
  lemma {:induction false} SameHashesSameState(p: Params, a: seq<Block>, b: seq<Block>)
    requires p.N() > 0 && p.crypto.CollisionFree() && Hashes(p, a) == Hashes(p, b)
    requires LocallyValidated(p, a) && LocallyValidated(p, b)
    ensures ApplyAll(p.crypto, EmptyState, LedgerTxs(a)) == ApplyAll(p.crypto, EmptyState, LedgerTxs(b))
  {
    assert |a| == |Hashes(p, a)| == |b|;
    if a != [] {
      var k := |a| - 1;
      ValidatedPrefix(p, a, k);
      ValidatedPrefix(p, b, k);
      SameHashesSameState(p, a[..k], b[..k]);
      assert Hashes(p, a)[k] == Hashes(p, b)[k];
      var ra :| ValidateBlock(p, NodeAt(p, a[..k]), a[k], ra);
      var rb :| ValidateBlock(p, NodeAt(p, b[..k]), b[k], rb);
      SameHashSameEffect(p, NodeAt(p, a[..k]), a[k], ra, NodeAt(p, b[..k]), b[k], rb);
      ApplyAllConcat(p.crypto, EmptyState, LedgerTxs(a[..k]), a[k].transactions);
      ApplyAllConcat(p.crypto, EmptyState, LedgerTxs(b[..k]), b[k].transactions);
    }
  }

  /** State agreement: honest validators at the same height, whose decided blocks passed their own validation,
      hold the same data and nonces, and the state root the last header promised. */
  lemma StateAgreement(cfg: Config, states: seq<System>, moves: seq<Move>, a: nat, v: Id, b: nat, w: Id)
    requires cfg.Valid() && IsRun(cfg, states, moves) && a < |states| && b < |states| && cfg.params.crypto.CollisionFree()
    requires cfg.Honest(v) && cfg.Honest(w) && v in states[a].nodes && w in states[b].nodes
    requires states[a].nodes[v].height == states[b].nodes[w].height
    requires LocallyValidated(cfg.params, states[a].nodes[v].ledger) && LocallyValidated(cfg.params, states[b].nodes[w].ledger)
    ensures states[a].nodes[v].store == states[b].nodes[w].store
    ensures var s := states[a].nodes[v]; s.height > 0 ==>
      s.ledger != [] && StateRoot(cfg.params.crypto, s.store) == s.ledger[|s.ledger| - 1].header.stateRoot
  {
    Agreement(cfg, states, moves, a, v, b, w);
    RunIsOk(cfg, states, moves, a);
    RunIsOk(cfg, states, moves, b);
    var x, y := states[a].nodes[v].ledger, states[b].nodes[w].ledger;
    assert Hashes(cfg.params, x) == Hashes(cfg.params, y);
    SameHashesSameState(cfg.params, x, y);
    if x != [] {
      var k := |x| - 1;
      var r :| ValidateBlock(cfg.params, NodeAt(cfg.params, x[..k]), x[k], r);
      ApplyAllConcat(cfg.params.crypto, EmptyState, LedgerTxs(x[..k]), x[k].transactions);
    }
  }
}
