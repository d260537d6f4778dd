/** What a validator that equivocates sends: two votes for one slot, two blocks for one round, one to each half
    of its peers. */
module Byzantine {
  import opened Messages
  import opened Protocol
  import opened Consensus
  import opened Gossip
  import opened Trace

  // ---- splitting the peers ----

  /** The lexicographic order of identities. */
  predicate Leq(a: string, b: string) {
    a == [] || (b != [] && (a[0] < b[0] || (a[0] == b[0] && Leq(a[1..], b[1..]))))
  }

  lemma {:induction false} LeqIsTotal(a: string, b: string)
    ensures Leq(a, b) || Leq(b, a)
    ensures Leq(a, b) && Leq(b, a) ==> a == b
  {
    if a != [] && b != [] && a[0] == b[0] {
      LeqIsTotal(a[1..], b[1..]);
      assert a == [a[0]] + a[1..] && b == [b[0]] + b[1..];
    }
  }

  lemma {:induction false} LeqIsTransitive(a: string, b: string, c: string)
    requires Leq(a, b) && Leq(b, c)
    ensures Leq(a, c)
  {
    if a != [] && a[0] == b[0] == c[0] { LeqIsTransitive(a[1..], b[1..], c[1..]); }
  }

  ghost predicate Ascending(ids: seq<Id>) { forall i, j :: 0 <= i < j < |ids| ==> Leq(ids[i], ids[j]) }

  function Insert(x: Id, ids: seq<Id>): seq<Id> {
    if ids == [] || Leq(x, ids[0]) then [x] + ids else [ids[0]] + Insert(x, ids[1..])
  }

  function Sort(ids: seq<Id>): seq<Id> { if ids == [] then [] else Insert(ids[0], Sort(ids[1..])) }

  lemma PutFirst(x: Id, ids: seq<Id>)
    requires Ascending(ids) && forall y :: y in ids ==> Leq(x, y)
    ensures Ascending([x] + ids)
  {
  }

  lemma {:induction false} InsertAdds(x: Id, ids: seq<Id>)
    ensures multiset(Insert(x, ids)) == multiset(ids) + multiset{x}
  {
    hide Leq;
    if ids != [] {
      InsertAdds(x, ids[1..]);
      assert ids == [ids[0]] + ids[1..];
    }
  }

  lemma InsertMembers(x: Id, ids: seq<Id>)
    ensures forall y :: y in Insert(x, ids) <==> y == x || y in ids
  {
    InsertAdds(x, ids);
    hide Insert;
    forall y ensures y in Insert(x, ids) <==> y == x || y in ids {
      assert y in multiset(Insert(x, ids)) <==> y in multiset(ids) + multiset{x};
    }
  }

  lemma RestAscends(ids: seq<Id>)
    requires Ascending(ids) && ids != []
    ensures Ascending(ids[1..]) && forall y :: y in ids ==> Leq(ids[0], y)
  {
    LeqIsTotal(ids[0], ids[0]);
  }

  lemma {:induction false} InsertAscends(x: Id, ids: seq<Id>)
    requires Ascending(ids)
    ensures Ascending(Insert(x, ids))
  {
    hide Leq, Ascending;
    if ids == [] {
      PutFirst(x, ids);
    } else {
      RestAscends(ids);
      if Leq(x, ids[0]) {
        forall y | y in ids ensures Leq(x, y) { LeqIsTransitive(x, ids[0], y); }
        PutFirst(x, ids);
      } else {
        LeqIsTotal(x, ids[0]);
        InsertAscends(x, ids[1..]);
        InsertMembers(x, ids[1..]);
        PutFirst(ids[0], Insert(x, ids[1..]));
      }
    }
  }

  lemma {:induction false} SortSorts(ids: seq<Id>)
    ensures Ascending(Sort(ids)) && multiset(Sort(ids)) == multiset(ids)
  {
    if ids != [] {
      SortSorts(ids[1..]);
      InsertAscends(ids[0], Sort(ids[1..]));
      InsertAdds(ids[0], Sort(ids[1..]));
      hide Insert, Leq, Ascending;
      assert ids == [ids[0]] + ids[1..];
    }
  }

  lemma FirstIsLeast(ids: seq<Id>, x: Id)
    requires Ascending(ids) && x in ids
    ensures Leq(ids[0], x)
  {
    LeqIsTotal(x, x);
  }

  lemma WithoutFirst(ids: seq<Id>)
    requires ids != []
    ensures multiset(ids[1..]) == multiset(ids) - multiset{ids[0]}
  {
    assert ids == [ids[0]] + ids[1..];
  }

  /** There is only one ascending arrangement of given identities. */
  lemma {:induction false} AscendingIsUnique(a: seq<Id>, b: seq<Id>)
    requires Ascending(a) && Ascending(b) && multiset(a) == multiset(b)
    ensures a == b
  {
    hide Leq;
    assert |a| == |multiset(a)| == |multiset(b)| == |b|;
    if a != [] {
      assert a[0] in multiset(b) && b[0] in multiset(a);
      FirstIsLeast(a, b[0]);
      FirstIsLeast(b, a[0]);
      LeqIsTotal(a[0], b[0]);
      WithoutFirst(a);
      WithoutFirst(b);
      AscendingIsUnique(a[1..], b[1..]);
      assert a == [a[0]] + a[1..] && b == [b[0]] + b[1..];
    }
  }

  function Others(validators: seq<Id>, me: Id): seq<Id> {
    if validators == [] then []
    else (if validators[0] == me then [] else [validators[0]]) + Others(validators[1..], me)
  }

  lemma {:induction false} OthersAre(validators: seq<Id>, me: Id)
    ensures multiset(Others(validators, me)) == multiset(validators)[me := 0]
  {
    if validators != [] {
      OthersAre(validators[1..], me);
      assert validators == [validators[0]] + validators[1..];
    }
  }

  function PeerHalves(p: Params, me: Id): (seq<Id>, seq<Id>) {
    var peers := Sort(Others(p.validators, me));
    (peers[..|peers| / 2], peers[|peers| / 2..])
  }

  lemma {:induction false} OthersCount(validators: seq<Id>, me: Id, v: Id)
    requires forall i, j :: 0 <= i < j < |validators| ==> validators[i] != validators[j]
    ensures multiset(Others(validators, me))[v] == if v in validators && v != me then 1 else 0
    ensures |Others(validators, me)| == |validators| - if me in validators then 1 else 0
  {
    if validators != [] { OthersCount(validators[1..], me, v); }
  }

  lemma CutCount(ids: seq<Id>, k: nat, v: Id)
    requires k <= |ids|
    ensures multiset(ids[..k])[v] + multiset(ids[k..])[v] == multiset(ids)[v]
  {
    assert ids == ids[..k] + ids[k..];
  }

  lemma HalvesCount(p: Params, me: Id, v: Id)
    requires p.WellFormed()
    ensures var (a, b) := PeerHalves(p, me);
      multiset(a)[v] + multiset(b)[v] == if v in p.validators && v != me then 1 else 0
  {
    var others := Others(p.validators, me);
    OthersCount(p.validators, me, v);
    SortSorts(others);
    hide Sort, Others, Ascending;
    CutCount(Sort(others), |Sort(others)| / 2, v);
  }

  lemma HalvesSize(p: Params, me: Id)
    requires p.WellFormed()
    ensures var (a, b) := PeerHalves(p, me);
      |a| + |b| == p.N() - (if me in p.validators then 1 else 0) && |a| <= |b| <= |a| + 1
  {
    var others := Others(p.validators, me);
    OthersCount(p.validators, me, me);
    SortSorts(others);
    hide Others;
    assert |multiset(Sort(others))| == |multiset(others)|;
  }

  /** Every other validator is in exactly one half, once, and the halves differ in size by at most one. */
  lemma HalvesSplit(p: Params, me: Id, v: Id)
    requires p.WellFormed() && me in p.validators
    ensures var (a, b) := PeerHalves(p, me);
      && multiset(a)[v] + multiset(b)[v] == (if v in p.validators && v != me then 1 else 0)
      && |a| + |b| == p.N() - 1 && |a| <= |b| <= |a| + 1
  {
    hide PeerHalves;
    HalvesCount(p, me, v);
    HalvesSize(p, me);
  }

  /** The split depends on who the validators are, not on the order they are listed in. */
  lemma HalvesReproducible(p: Params, q: Params, me: Id)
    requires multiset(p.validators) == multiset(q.validators)
    ensures PeerHalves(p, me) == PeerHalves(q, me)
  {
    var a, b := Others(p.validators, me), Others(q.validators, me);
    OthersAre(p.validators, me);
    OthersAre(q.validators, me);
    SortSorts(a);
    SortSorts(b);
    AscendingIsUnique(Sort(a), Sort(b));
  }

  // ---- two votes ----

  function Repeated(c: char): (hash: Hash)
    ensures |hash| == 64 && hash[0] == c
  {
    seq(64, i => c)
  }

  /** The fabricated hash a second vote is for, and the one used when the first vote is already for that. */
  const FABRICATED := Repeated('b')
  const ALTERNATIVE := Repeated('c')

  function ConflictingHash(hash: Hash): Hash { if hash != FABRICATED then FABRICATED else ALTERNATIVE }

  /** The vote for what the validator believes, and the contradictory one for the same slot. */
  function TwoVotes(me: Id, s: Node, phase: Phase, hash: Hash): (Vote, Vote) {
    (CastVote(me, s, phase, hash), CastVote(me, s, phase, ConflictingHash(hash)))
  }

  /** One message from a sender to each of some receivers. */
  function AddressedTo(sender: Id, targets: seq<Id>, m: Message): seq<(Id, Id, Message)> {
    seq(|targets|, i requires 0 <= i < |targets| => (sender, targets[i], m))
  }

  function ShowEachHalf(p: Params, me: Id, a: Message, b: Message): seq<(Id, Id, Message)> {
    AddressedTo(me, PeerHalves(p, me).0, a) + AddressedTo(me, PeerHalves(p, me).1, b)
  }

  function VoteSends(p: Params, me: Id, s: Node, phase: Phase, hash: Hash): seq<(Id, Id, Message)> {
    var (a, b) := TwoVotes(me, s, phase, hash);
    ShowEachHalf(p, me, Ballot(p, a), Ballot(p, b))
  }

  lemma CountedTwice(ids: seq<Id>, i: nat, j: nat)
    requires i < j < |ids| && ids[i] == ids[j]
    ensures multiset(ids)[ids[i]] >= 2
  {
    assert ids == ids[..j] + ids[j..];
    assert ids[i] in ids[..j] && ids[j] in ids[j..];
  }

  /** No peer is shown both: whoever is sent a message on this occasion is sent exactly one. */
  lemma ShownOne(p: Params, me: Id, a: Message, b: Message, i: nat, j: nat)
    requires p.WellFormed() && me in p.validators && i < j < |ShowEachHalf(p, me, a, b)|
    ensures ShowEachHalf(p, me, a, b)[i].1 != ShowEachHalf(p, me, a, b)[j].1
    ensures ShowEachHalf(p, me, a, b)[i].1 != me
  {
    var (x, y) := PeerHalves(p, me);
    var u := (x + y)[i];
    HalvesSplit(p, me, u);
    hide PeerHalves;
    assert multiset(x + y)[u] == multiset(x)[u] + multiset(y)[u];
    if u == (x + y)[j] { CountedTwice(x + y, i, j); }
  }

  /** And every other validator is sent one: those of the first half the first message, those of the second the second. */
  lemma ShownToEach(p: Params, me: Id, a: Message, b: Message, v: Id)
    requires p.WellFormed() && me in p.validators && v in p.validators && v != me
    ensures (me, v, if v in PeerHalves(p, me).0 then a else b) in ShowEachHalf(p, me, a, b)
  {
    var (x, y) := PeerHalves(p, me);
    HalvesSplit(p, me, v);
    hide PeerHalves;
    var shown := ShowEachHalf(p, me, a, b);
    if v in x {
      var i :| 0 <= i < |x| && x[i] == v;
      assert shown[i] == (me, v, a);
    } else {
      assert multiset(x)[v] == 0 && v in multiset(y);
      var i :| 0 <= i < |y| && y[i] == v;
      assert shown[|x| + i] == (me, v, b);
    }
  }

  /** So one half is shown the vote for what the validator believes, the other the contradictory one, and each is signed. */
  lemma VotesShown(p: Params, me: Id, s: Node, phase: Phase, hash: Hash, v: Id)
    requires p.WellFormed() && me in p.validators && v in p.validators && v != me
    ensures var vote := Vote(me, s.height, s.cs.round, phase, if v in PeerHalves(p, me).0 then hash else ConflictingHash(hash));
      (me, v, VoteMessage(phase, vote, Some(p.crypto.sign(me, VoteDomain(vote))))) in VoteSends(p, me, s, phase, hash)
  {
    var (a, b) := TwoVotes(me, s, phase, hash);
    ShownToEach(p, me, Ballot(p, a), Ballot(p, b), v);
    hide PeerHalves, ShowEachHalf;
  }

  /** The two votes contradict each other, yet each alone passes every check of a receiver at that height;
      whichever comes first, the other is then refused as a duplicate. */
  lemma EitherVotePasses(p: Params, me: Id, s: Node, phase: Phase, hash: Hash, peer: Id, t: Node, first: bool)
    requires p.WellFormed() && me in p.validators && p.crypto.SignaturesCheck()
    requires t.height == s.height && me !in t.cs.BucketAt(s.cs.round, phase)
    ensures var (a, b) := TwoVotes(me, s, phase, hash);
      var x, y := Ballot(p, if first then a else b), Ballot(p, if first then b else a);
      && a.blockHash == hash && b.blockHash != hash && b.blockHash != NIL && b == a.(blockHash := b.blockHash)
      && Enabled(p, peer, t, ReceiveVote(x.phase, x.vote, x.signature))
      && !Enabled(p, peer, Apply(p, peer, t, ReceiveVote(x.phase, x.vote, x.signature)), ReceiveVote(y.phase, y.vote, y.signature))
  {
    assert FABRICATED[0] != ALTERNATIVE[0];
  }

  /** No honest validator ever casts such a pair. */
  lemma OnlyTheFaultyEquivocate(cfg: Config, states: seq<System>, moves: seq<Move>, k: nat, me: Id, s: Node, phase: Phase, hash: Hash)
    requires cfg.Formed() && IsRun(cfg, states, moves) && k < |states|
    ensures var (a, b) := TwoVotes(me, s, phase, hash); a !in states[k].sent || b !in states[k].sent
  {
    var (a, b) := TwoVotes(me, s, phase, hash);
    assert FABRICATED[0] != ALTERNATIVE[0];
    RunIsOk(cfg, states, moves, k);
    if a in states[k].sent && b in states[k].sent {
      OneVotePerSlot(states[k].sent, a, b);
    }
  }

  // ---- two proposals ----

  function ForgedBlock(p: Params, me: Id, s: Node, offset: int): Block {
    Block(BuildHeader(p, me, s, s.mempool, LogicalTimestamp(s.height, s.cs.round) + offset), s.mempool)
  }

  function ProposalOf(p: Params, s: Node, block: Block): Message {
    Proposal(block.header, p.crypto.TxHashes(block.transactions), s.cs.round)
  }

  function ProposalSends(p: Params, me: Id, s: Node): seq<(Id, Id, Message)> {
    ShowEachHalf(p, me, ProposalOf(p, s, ForgedBlock(p, me, s, 0)), ProposalOf(p, s, ForgedBlock(p, me, s, 1)))
  }

  /** One half is shown the one block, the other half the other. */
  lemma ProposalsShown(p: Params, me: Id, s: Node, v: Id)
    requires p.WellFormed() && me in p.validators && v in p.validators && v != me
    ensures var block := ForgedBlock(p, me, s, if v in PeerHalves(p, me).0 then 0 else 1);
      (me, v, Proposal(block.header, p.crypto.TxHashes(block.transactions), s.cs.round)) in ProposalSends(p, me, s)
  {
    ShownToEach(p, me, ProposalOf(p, s, ForgedBlock(p, me, s, 0)), ProposalOf(p, s, ForgedBlock(p, me, s, 1)), v);
    hide PeerHalves, ShowEachHalf, ForgedBlock;
  }

  lemma TimestampsDiffer(p: Params, me: Id, s: Node)
    requires p.crypto.CollisionFree()
    ensures p.crypto.BlockHash(ForgedBlock(p, me, s, 0)) != p.crypto.BlockHash(ForgedBlock(p, me, s, 1))
  {
    var a, b := ForgedBlock(p, me, s, 0).header.Payload(), ForgedBlock(p, me, s, 1).header.Payload();
    assert a.timestamp != b.timestamp;
    assert HeaderObject(a) != HeaderObject(b);
  }

  /** The two blocks have different hashes, and a validator on the same chain and in the same round that holds the
      transactions and no lock prevotes for whichever one it is shown. */
  lemma EitherBlockPasses(p: Params, me: Id, s: Node, t: Node, mempool: seq<Transaction>, offset: int)
    requires p.WellFormed() && p.crypto.CollisionFree() && p.crypto.SignaturesCheck()
    requires SameChain(s, t) && s.cs.round == t.cs.round && me == p.ProposerFor(s.height, s.cs.round)
    requires t.cs.locked.None? && offset in {0, 1}
    requires Covers(p.crypto, mempool, s.mempool) && forall tx :: tx in s.mempool ==> p.crypto.TxVerifies(tx)
    ensures var a, b := ForgedBlock(p, me, s, 0), ForgedBlock(p, me, s, 1);
      && p.crypto.BlockHash(a) != p.crypto.BlockHash(b) && a.transactions == b.transactions == s.mempool
      && b.header.Payload() == a.header.Payload().(timestamp := a.header.timestamp + 1)
    ensures var block := ForgedBlock(p, me, s, offset);
      var hashes, pool := p.crypto.TxHashes(s.mempool), Pool(p.crypto, mempool);
      && AcceptHeader(p, t, block.header, s.cs.round)
      && (forall h :: h in hashes ==> h in pool)
      && PrevoteFor(p, t, Block(block.header, Lookup(hashes, pool))) == p.crypto.BlockHash(block)
  {
    TimestampsDiffer(p, me, s);
    hide Crypto.CollisionFree, Crypto.SignaturesCheck, Covers, SameChain, BuildHeader, Pool;
    Reassembled(p, me, s, t, s.mempool, LogicalTimestamp(s.height, s.cs.round) + offset, s.cs.round, mempool);
  }
}
