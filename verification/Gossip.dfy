/** Headers before bodies: a proposal names its transactions by hash, and receivers fill them in. */
module Gossip {
  import opened Messages
  import opened Protocol
  import Chain

  /** Transactions by hash; of several with one hash the last wins. */
  function Pool(c: Crypto, mempool: seq<Transaction>): map<Hash, Transaction> {
    if mempool == [] then map[]
    else var k := |mempool| - 1; Pool(c, mempool[..k])[c.TxHash(mempool[k]) := mempool[k]]
  }

  function Missing(hashes: seq<Hash>, pool: map<Hash, Transaction>): seq<Hash> {
    if hashes == [] then []
    else Missing(hashes[..|hashes| - 1], pool) + (if hashes[|hashes| - 1] in pool then [] else [hashes[|hashes| - 1]])
  }

  function Lookup(hashes: seq<Hash>, pool: map<Hash, Transaction>): seq<Transaction>
    requires forall h :: h in hashes ==> h in pool
  {
    seq(|hashes|, i requires 0 <= i < |hashes| => pool[hashes[i]])
  }

  /** What a holder of the pool answers to a request: the bodies it has, in the order asked. */
  function Bodies(hashes: seq<Hash>, pool: map<Hash, Transaction>): seq<Transaction> {
    if hashes == [] then []
    else Bodies(hashes[..|hashes| - 1], pool) +
         (if hashes[|hashes| - 1] in pool then [pool[hashes[|hashes| - 1]]] else [])
  }

  function KnownHashes(c: Crypto, mempool: seq<Transaction>): set<Hash> { set tx | tx in mempool :: c.TxHash(tx) }

  /** Bodies are taken in only when their signature checks and their hash is new. */
  function Absorb(c: Crypto, mempool: seq<Transaction>, bodies: seq<Transaction>): seq<Transaction> {
    if bodies == [] then mempool
    else
      var pool := Absorb(c, mempool, bodies[..|bodies| - 1]);
      var tx := bodies[|bodies| - 1];
      if c.TxVerifies(tx) && c.TxHash(tx) !in KnownHashes(c, pool) then pool + [tx] else pool
  }

  /** The steps that take the bodies in. */
  function Additions(c: Crypto, mempool: seq<Transaction>, bodies: seq<Transaction>): (steps: seq<Action>)
    ensures forall a :: a in steps ==> a.AddTransaction?
  {
    if bodies == [] then []
    else
      var pool := Absorb(c, mempool, bodies[..|bodies| - 1]);
      var tx := bodies[|bodies| - 1];
      Additions(c, mempool, bodies[..|bodies| - 1]) +
      (if c.TxVerifies(tx) && c.TxHash(tx) !in KnownHashes(c, pool) then [AddTransaction(tx)] else [])
  }

  /** The last transaction of the list with a hash. */
  predicate IsLast(c: Crypto, mempool: seq<Transaction>, h: Hash, tx: Transaction) {
    exists k :: 0 <= k < |mempool| && mempool[k] == tx && c.TxHash(tx) == h && forall j :: k < j < |mempool| ==> c.TxHash(mempool[j]) != h
  }

  lemma LastGrows(c: Crypto, mempool: seq<Transaction>, more: Transaction, h: Hash, tx: Transaction)
    requires IsLast(c, mempool, h, tx) && c.TxHash(more) != h
    ensures IsLast(c, mempool + [more], h, tx)
  {
    var k :| 0 <= k < |mempool| && mempool[k] == tx && c.TxHash(tx) == h && forall j :: k < j < |mempool| ==> c.TxHash(mempool[j]) != h;
    assert (mempool + [more])[k] == tx;
  }

  lemma {:induction false} PoolIsPool(c: Crypto, mempool: seq<Transaction>)
    ensures Pool(c, mempool).Keys == KnownHashes(c, mempool)
    ensures forall h :: h in Pool(c, mempool) ==>
      && Pool(c, mempool)[h] in mempool && c.TxHash(Pool(c, mempool)[h]) == h && IsLast(c, mempool, h, Pool(c, mempool)[h])
  {
    if mempool != [] {
      var k := |mempool| - 1;
      PoolIsPool(c, mempool[..k]);
      assert mempool == mempool[..k] + [mempool[k]];
      forall h | h in Pool(c, mempool[..k]) && h != c.TxHash(mempool[k]) ensures IsLast(c, mempool, h, Pool(c, mempool)[h]) {
        LastGrows(c, mempool[..k], mempool[k], h, Pool(c, mempool)[h]);
      }
    }
  }

  lemma {:induction false} MissingIff(hashes: seq<Hash>, pool: map<Hash, Transaction>)
    ensures forall h :: h in Missing(hashes, pool) <==> h in hashes && h !in pool
  {
    if hashes != [] {
      var k := |hashes| - 1;
      MissingIff(hashes[..k], pool);
      assert hashes == hashes[..k] + [hashes[k]];
    }
  }

  lemma {:induction false} BodiesAre(hashes: seq<Hash>, pool: map<Hash, Transaction>)
    ensures (forall h :: h in hashes ==> h in pool) ==> Bodies(hashes, pool) == Lookup(hashes, pool)
    ensures forall tx :: tx in Bodies(hashes, pool) <==> exists h :: h in hashes && h in pool && tx == pool[h]
  {
    if hashes != [] {
      var k := |hashes| - 1;
      BodiesAre(hashes[..k], pool);
      assert hashes == hashes[..k] + [hashes[k]];
    }
  }

  /** Asking and answering go through the list in order, hash by hash. */
  lemma {:induction false} InOrder(a: seq<Hash>, b: seq<Hash>, pool: map<Hash, Transaction>)
    ensures Missing(a + b, pool) == Missing(a, pool) + Missing(b, pool)
    ensures Bodies(a + b, pool) == Bodies(a, pool) + Bodies(b, pool)
  {
    if b == [] {
      assert a + b == a;
    } else {
      var k := |b| - 1;
      assert (a + b)[..|a + b| - 1] == a + b[..k] && (a + b)[|a + b| - 1] == b[k];
      InOrder(a, b[..k], pool);
    }
  }

  lemma OneByOne(h: Hash, pool: map<Hash, Transaction>)
    ensures Missing([h], pool) == if h in pool then [] else [h]
    ensures Bodies([h], pool) == if h in pool then [pool[h]] else []
  {
    assert [h][..0] == [];
  }

  lemma {:induction false} AbsorbKeeps(c: Crypto, mempool: seq<Transaction>, bodies: seq<Transaction>)
    ensures mempool <= Absorb(c, mempool, bodies)
    ensures forall tx :: tx in Absorb(c, mempool, bodies) ==> tx in mempool || (tx in bodies && c.TxVerifies(tx))
    ensures forall tx :: tx in bodies && c.TxVerifies(tx) ==> c.TxHash(tx) in KnownHashes(c, Absorb(c, mempool, bodies))
    ensures AddsUnknown(c, mempool, Absorb(c, mempool, bodies))
  {
    if bodies != [] {
      var k := |bodies| - 1;
      AbsorbKeeps(c, mempool, bodies[..k]);
      assert bodies == bodies[..k] + [bodies[k]];
      var pool := Absorb(c, mempool, bodies[..k]);
      if Absorb(c, mempool, bodies) != pool { OneMoreUnknown(c, mempool, pool, bodies[k]); }
    }
  }

  /** Nothing was added under a hash the pool held already, given or added before. */
  ghost predicate AddsUnknown(c: Crypto, mempool: seq<Transaction>, after: seq<Transaction>) {
    forall i, j :: 0 <= i < j < |after| && j >= |mempool| ==> c.TxHash(after[i]) != c.TxHash(after[j])
  }

  lemma OneMoreUnknown(c: Crypto, mempool: seq<Transaction>, after: seq<Transaction>, tx: Transaction)
    requires AddsUnknown(c, mempool, after) && c.TxHash(tx) !in KnownHashes(c, after)
    ensures AddsUnknown(c, mempool, after + [tx])
  {
    forall i | 0 <= i < |after| ensures c.TxHash(after[i]) != c.TxHash(tx) { assert after[i] in after; }
  }

  /** The validity of a block depends on the validator's height, ledger and store alone. */
  predicate SameChain(s: Node, t: Node) { s.height == t.height && s.ledger == t.ledger && s.store == t.store }

  /** Every transaction of the list can be looked up in the pool, in a copy that verifies. */
  ghost predicate Covers(c: Crypto, mempool: seq<Transaction>, txs: seq<Transaction>) {
    && (forall tx :: tx in txs ==> c.TxHash(tx) in KnownHashes(c, mempool))
    && (forall tx :: tx in mempool && c.TxHash(tx) in c.TxHashes(txs) ==> c.TxVerifies(tx))
  }

  lemma Found(c: Crypto, mempool: seq<Transaction>, txs: seq<Transaction>)
    requires c.CollisionFree() && Covers(c, mempool, txs)
    ensures forall h :: h in c.TxHashes(txs) ==> h in Pool(c, mempool)
    ensures var found := Lookup(c.TxHashes(txs), Pool(c, mempool));
      |found| == |txs| && forall i :: 0 <= i < |txs| ==>
        c.TxHash(found[i]) == c.TxHash(txs[i]) && found[i].Payload() == txs[i].Payload() && c.TxVerifies(found[i])
  {
    var hashes, pool := c.TxHashes(txs), Pool(c, mempool);
    PoolIsPool(c, mempool);
    forall i | 0 <= i < |txs| ensures hashes[i] in pool { assert txs[i] in txs; }
    forall i | 0 <= i < |txs|
      ensures var tx := pool[hashes[i]];
        c.TxHash(tx) == c.TxHash(txs[i]) && tx.Payload() == txs[i].Payload() && c.TxVerifies(tx)
    {
      var tx := pool[hashes[i]];
      assert tx in mempool && hashes[i] in hashes;
      assert TxObject(tx.Payload()) == TxObject(txs[i].Payload());
    }
  }

  /** A header built on the same chain by the round's proposer is accepted. */
  lemma BuiltHeaderAccepted(p: Params, me: Id, s: Node, t: Node, txs: seq<Transaction>, timestamp: int, round: int)
    requires p.N() > 0 && p.crypto.SignaturesCheck() && SameChain(s, t) && me == p.ProposerFor(s.height, round)
    ensures AcceptHeader(p, t, BuildHeader(p, me, s, txs, timestamp), round)
  {
    var header := BuildHeader(p, me, s, txs, timestamp);
    assert header.Payload() == header.Payload().Payload();
  }

  /** Reassembly restores the proposer's block: same header, same order, and it passes validation. */
  lemma Reassembled(p: Params, me: Id, s: Node, t: Node, txs: seq<Transaction>, timestamp: int, round: int, mempool: seq<Transaction>)
    requires p.N() > 0 && p.crypto.CollisionFree() && p.crypto.SignaturesCheck()
    requires SameChain(s, t) && me == p.ProposerFor(s.height, round)
    requires Covers(p.crypto, mempool, txs) && forall tx :: tx in txs ==> p.crypto.TxVerifies(tx)
    ensures forall h :: h in p.crypto.TxHashes(txs) ==> h in Pool(p.crypto, mempool)
    ensures var block := Block(BuildHeader(p, me, s, txs, timestamp), Lookup(p.crypto.TxHashes(txs), Pool(p.crypto, mempool)));
      && p.crypto.TxHashes(block.transactions) == p.crypto.TxHashes(txs)
      && ValidateBlock(p, t, block, round)
  {
    var c := p.crypto;
    Found(c, mempool, txs);
    var found := Lookup(c.TxHashes(txs), Pool(c, mempool));
    assert c.TxHashes(found) == c.TxHashes(txs);
    assert forall i :: 0 <= i < |txs| ==> txs[i] in txs;
    Chain.SignaturesDoNotMatter(c, s.store, found, txs);
    BuiltHeaderAccepted(p, me, s, t, txs, timestamp, round);
  }

  /** What a receiver holds when the answer comes: it asked for what it lacked then, the holder answered from what
      it had by then, and meanwhile the receiver may have come by more. */
  function AfterFetch(c: Crypto, asked: seq<Transaction>, hashes: seq<Hash>, holder: seq<Transaction>, later: seq<Transaction>)
    : seq<Transaction>
  {
    Absorb(c, later, Bodies(Missing(hashes, Pool(c, asked)), Pool(c, holder)))
  }

  ghost predicate Verified(c: Crypto, mempool: seq<Transaction>, hashes: seq<Hash>) {
    forall tx :: tx in mempool && c.TxHash(tx) in hashes ==> c.TxVerifies(tx)
  }

  /** The holder has every body asked for, the receiver kept what it had, and all copies of these bodies verify. */
  ghost predicate CanFetch(c: Crypto, asked: seq<Transaction>, hashes: seq<Hash>, holder: seq<Transaction>, later: seq<Transaction>) {
    && (forall h :: h in Missing(hashes, Pool(c, asked)) ==> h in KnownHashes(c, holder))
    && (forall tx :: tx in asked ==> tx in later)
    && Verified(c, holder, hashes) && Verified(c, later, hashes)
  }

  lemma FetchCovers(c: Crypto, asked: seq<Transaction>, txs: seq<Transaction>, holder: seq<Transaction>, later: seq<Transaction>)
    requires CanFetch(c, asked, c.TxHashes(txs), holder, later)
    ensures Covers(c, AfterFetch(c, asked, c.TxHashes(txs), holder, later), txs)
  {
    var hashes := c.TxHashes(txs);
    var missing := Missing(hashes, Pool(c, asked));
    var bodies := Bodies(missing, Pool(c, holder));
    PoolIsPool(c, asked);
    PoolIsPool(c, holder);
    MissingIff(hashes, Pool(c, asked));
    BodiesAre(missing, Pool(c, holder));
    AbsorbKeeps(c, later, bodies);
    forall tx | tx in txs ensures c.TxHash(tx) in KnownHashes(c, Absorb(c, later, bodies)) {
      var i :| 0 <= i < |txs| && txs[i] == tx;
      assert hashes[i] == c.TxHash(tx) && hashes[i] in hashes;
      if hashes[i] in Pool(c, asked) {
        assert Pool(c, asked)[hashes[i]] in Absorb(c, later, bodies);
      } else {
        assert Pool(c, holder)[hashes[i]] in bodies;
      }
    }
  }

  /** The round trip: a fresh block goes out as a header and hashes; the receiver asks its proposer for what it
      lacks, takes in the answer, and reassembles a block with the same hash and order that it accepts, whatever
      else the two mempools hold, in whatever order, and however they changed in between. */
  lemma RoundTrip(p: Params, me: Id, s: Node, t: Node, asked: seq<Transaction>, holder: seq<Transaction>, later: seq<Transaction>)
    requires p.N() > 0 && p.crypto.CollisionFree() && p.crypto.SignaturesCheck()
    requires SameChain(s, t) && me == p.ProposerFor(s.height, s.cs.round) && s.cs.valid.None?
    requires forall tx :: tx in s.mempool ==> p.crypto.TxVerifies(tx)
    requires CanFetch(p.crypto, asked, p.crypto.TxHashes(s.mempool), holder, later)
    ensures var sent := ProposedBlock(p, me, s);
      var hashes := p.crypto.TxHashes(sent.transactions);
      var pool := Pool(p.crypto, AfterFetch(p.crypto, asked, hashes, holder, later));
      && (forall h :: h in hashes ==> h in pool)
      && var received := Block(sent.header, Lookup(hashes, pool));
         && p.crypto.BlockHash(received) == p.crypto.BlockHash(sent)
         && p.crypto.TxHashes(received.transactions) == hashes
         && ValidateBlock(p, t, received, s.cs.round)
  {
    FetchCovers(p.crypto, asked, s.mempool, holder, later);
    Reassembled(p, me, s, t, s.mempool, LogicalTimestamp(s.height, s.cs.round), s.cs.round,
                AfterFetch(p.crypto, asked, p.crypto.TxHashes(s.mempool), holder, later));
  }
}
