/** The consensus engine: handlers that update one validator in place and call each other re-entrantly. */
module Engine {
  import opened Messages
  import opened Quorums
  import opened Execution
  import opened Protocol
  import opened Clock
  import opened Transport
  import opened Gossip
  import opened Trace
  import opened Byzantine

  /** Per-height state; a new object replaces it when the height advances. */
  class ConsensusState {
    var round: int
    var step: Step
    var lockedBlock: Option<Block>
    var lockedRound: int
    var validBlock: Option<Block>
    var validRound: int
    var proposals: map<int, Block>
    var votes: map<Slot, Bucket>
    var pendingHeaders: map<int, (BlockHeader, seq<Hash>)>
    var decided: bool

    function View(): HeightState
      reads this
    {
      HeightState(round, step, lockedBlock, lockedRound, validBlock, validRound, proposals, votes, pendingHeaders, decided)
    }

    function VoteBucket(r: int, phase: Phase): (bucket: Bucket)
      reads this
      ensures bucket == View().BucketAt(r, phase)
    {
      if Slot(r, phase) in votes then votes[Slot(r, phase)] else map[]
    }

    method AddVote(slot: Slot, vote: Vote)
      modifies this`votes
      ensures View() == PutVote(old(View()), slot, vote)
    {
      votes := votes[slot := VoteBucket(slot.round, slot.phase)[vote.validator := vote]];
    }

    /** Locks only move forward; the valid block follows. */
    method LockBlock(r: int, block: Block)
      modifies this`lockedBlock, this`lockedRound, this`validBlock, this`validRound
      ensures View() == Lock(old(View()), r, block)
      ensures if r >= old(lockedRound) then lockedBlock == Some(block) && lockedRound == r
              else lockedBlock == old(lockedBlock) && lockedRound == old(lockedRound)
      ensures if r >= old(validRound) then validBlock == Some(block) && validRound == r
              else validBlock == old(validBlock) && validRound == old(validRound)
    {
      if r >= lockedRound {
        lockedBlock := Some(block);
        lockedRound := r;
      }
      if r >= validRound {
        validBlock := Some(block);
        validRound := r;
      }
    }

    constructor ()
      ensures View() == FreshHeight
    {
      round, step := 0, ProposeStep;
      lockedBlock, lockedRound, validBlock, validRound := None, -1, None, -1;
      proposals, votes, pendingHeaders, decided := map[], map[], map[], false;
    }
  }

  /** The first steps a block calls for: keep it, and prevote on it when it is this round's and none was acted on. */
  function OnBlock(p: Params, me: Id, s: Node, block: Block, round: int): (steps: seq<Action>)
    ensures forall a :: a in steps ==> !a.EnterRound?
  {
    (if round in s.cs.proposals then [] else [StoreBlock(round, block)]) +
    (if round == s.cs.round && s.cs.step == ProposeStep && me !in s.cs.BucketAt(round, Prevote) then [CastPrevote(block)] else [])
  }

  /** A block is kept as the proposal of the present round. */
  function Offered(s: Node, block: Block): Node { s.(cs := s.cs.(proposals := s.cs.proposals[s.cs.round := block])) }

  /** The vote a message makes its receiver take in, if any. */
  function TakenFrom(p: Params, me: Id, s: Node, m: Message): seq<Action>
    requires p.N() > 0
  {
    if m.VoteMessage? && Enabled(p, me, s, ReceiveVote(m.phase, m.vote, m.signature))
    then [ReceiveVote(m.phase, m.vote, m.signature)] else []
  }

  /** Every body is in the pool. */
  predicate Known(p: Params, s: Node, txHashes: seq<Hash>) { forall h :: h in txHashes ==> h in Pool(p.crypto, s.mempool) }

  /** The parked header of this round can be completed from the mempool. */
  predicate Completes(p: Params, s: Node, round: int) { round in s.cs.pending && Known(p, s, s.cs.pending[round].1) }

  /** The first steps of retrying a parked header: take it out and, if complete, act on its block. */
  function OnParked(p: Params, me: Id, s: Node, round: int): (steps: seq<Action>)
    ensures forall a :: a in steps ==> !a.EnterRound?
  {
    if round !in s.cs.pending then []
    else if !Completes(p, s, round) then [UnparkHeader(round)]
    else
      var (header, hashes) := s.cs.pending[round];
      [UnparkHeader(round)] + OnBlock(p, me, s, Block(header, Lookup(hashes, Pool(p.crypto, s.mempool))), round)
  }

  /** The first steps a message calls for, before any quorum they complete. */
  function FirstSteps(p: Params, me: Id, s: Node, m: Message): seq<Action>
    requires p.N() > 0
  {
    match m
    case Proposal(header, txHashes, round) =>
      if !AcceptHeader(p, s, header, round) then []
      else if !Known(p, s, txHashes) then [ParkHeader(round, header, txHashes)]
      else OnBlock(p, me, s, Block(header, Lookup(txHashes, Pool(p.crypto, s.mempool))), round)
    case VoteMessage(_, _, _) => TakenFrom(p, me, s, m)
    case BodyRequest(_, _, _) => []
    case BodyResponse(round, bodies) =>
      Additions(p.crypto, s.mempool, bodies) + OnParked(p, me, s.(mempool := Absorb(p.crypto, s.mempool, bodies)), round)
  }

  /** Taking the header out does not change what its block calls for. */
  lemma ParkedSteps(p: Params, me: Id, s: Node, s': Node, round: int)
    requires round in s.cs.pending && Completes(p, s, round)
    requires s' == s.(cs := s.cs.(pending := s.cs.pending - {round}))
    ensures var (header, hashes) := s.cs.pending[round];
      OnParked(p, me, s, round) ==
        [UnparkHeader(round)] + OnBlock(p, me, s', Block(header, Lookup(hashes, Pool(p.crypto, s.mempool))), round)
  {
  }

  lemma ParkedIsPrevoted(p: Params, me: Id, s: Node, header: BlockHeader, hashes: seq<Hash>)
    requires var round := s.cs.round;
      && round in s.cs.pending && s.cs.pending[round] == (header, hashes) && Known(p, s, hashes)
      && s.cs.step == ProposeStep && round !in s.cs.proposals && me !in s.cs.BucketAt(round, Prevote)
    ensures var block := Block(header, Lookup(hashes, Pool(p.crypto, s.mempool)));
      OnParked(p, me, s, s.cs.round) == [UnparkHeader(s.cs.round), StoreBlock(s.cs.round, block), CastPrevote(block)]
  {
  }

  /** The round trip as the handlers run it: a receiver that parked a fresh proposal, asked its proposer for what it
      lacked and takes in the answer then stores the proposer's block and prevotes for its hash. The receiver is given as
      it is when the answer comes; `asked` is its pool when it asked, `holder` the proposer's when it answered. */
  lemma FetchedIsPrevoted(p: Params, proposer: Id, s: Node, me: Id, t: Node, asked: seq<Transaction>, holder: seq<Transaction>)
    returns (block: Block)
    requires p.N() > 0 && p.crypto.CollisionFree() && p.crypto.SignaturesCheck()
    requires SameChain(s, t) && proposer == p.ProposerFor(s.height, s.cs.round) && s.cs.valid.None?
    requires forall tx :: tx in s.mempool ==> p.crypto.TxVerifies(tx)
    requires CanFetch(p.crypto, asked, p.crypto.TxHashes(s.mempool), holder, t.mempool)
    requires var round := s.cs.round; var sent := ProposedBlock(p, proposer, s);
      && t.cs.round == round && t.cs.step == ProposeStep && t.cs.locked.None?
      && round !in t.cs.proposals && me !in t.cs.BucketAt(round, Prevote)
      && round in t.cs.pending && t.cs.pending[round] == (sent.header, p.crypto.TxHashes(sent.transactions))
    ensures var round := s.cs.round; var sent := ProposedBlock(p, proposer, s);
      var answer := Bodies(Missing(p.crypto.TxHashes(sent.transactions), Pool(p.crypto, asked)), Pool(p.crypto, holder));
      && FirstSteps(p, me, t, BodyResponse(round, answer)) ==
           Additions(p.crypto, t.mempool, answer) + [UnparkHeader(round), StoreBlock(round, block), CastPrevote(block)]
      && p.crypto.TxHashes(block.transactions) == p.crypto.TxHashes(sent.transactions)
      && PrevoteFor(p, t, block) == p.crypto.BlockHash(block) == p.crypto.BlockHash(sent)
  {
    hide ProposedBlock, CanFetch, SameChain, ValidateBlock, Pool, Missing, Bodies, Absorb, Additions, OnParked, Crypto.CollisionFree;
    RoundTrip(p, proposer, s, t, asked, holder, t.mempool);
    var sent := ProposedBlock(p, proposer, s);
    var hashes := p.crypto.TxHashes(sent.transactions);
    var t' := t.(mempool := AfterFetch(p.crypto, asked, hashes, holder, t.mempool));
    block := Block(sent.header, Lookup(hashes, Pool(p.crypto, t'.mempool)));
    ParkedIsPrevoted(p, me, t', sent.header, hashes);
  }

  lemma KnownIsPrevoted(p: Params, me: Id, s: Node, header: BlockHeader, hashes: seq<Hash>)
    requires var round := s.cs.round;
      && p.N() > 0 && AcceptHeader(p, s, header, round) && Known(p, s, hashes)
      && s.cs.step == ProposeStep && round !in s.cs.proposals && me !in s.cs.BucketAt(round, Prevote)
    ensures var block := Block(header, Lookup(hashes, Pool(p.crypto, s.mempool)));
      FirstSteps(p, me, s, Proposal(header, hashes, s.cs.round)) == [StoreBlock(s.cs.round, block), CastPrevote(block)]
  {
  }

  /** The direct path: a receiver that lacks no body of a fresh proposal stores the proposer's block at once, rebuilt from
      its own copies, and prevotes for its hash. */
  lemma DirectIsPrevoted(p: Params, proposer: Id, s: Node, me: Id, t: Node) returns (block: Block)
    requires p.N() > 0 && p.crypto.CollisionFree() && p.crypto.SignaturesCheck()
    requires SameChain(s, t) && proposer == p.ProposerFor(s.height, s.cs.round) && s.cs.valid.None?
    requires forall tx :: tx in s.mempool ==> p.crypto.TxVerifies(tx)
    requires Covers(p.crypto, t.mempool, s.mempool)
    requires t.cs.round == s.cs.round && t.cs.step == ProposeStep && t.cs.locked.None?
    requires s.cs.round !in t.cs.proposals && me !in t.cs.BucketAt(s.cs.round, Prevote)
    ensures var sent := ProposedBlock(p, proposer, s);
      && FirstSteps(p, me, t, ProposalOf(p, s, sent)) == [StoreBlock(s.cs.round, block), CastPrevote(block)]
      && p.crypto.TxHashes(block.transactions) == p.crypto.TxHashes(sent.transactions)
      && PrevoteFor(p, t, block) == p.crypto.BlockHash(block) == p.crypto.BlockHash(sent)
  {
    hide Covers, SameChain, Pool, FirstSteps, Crypto.CollisionFree;
    Reassembled(p, proposer, s, t, s.mempool, LogicalTimestamp(s.height, s.cs.round), s.cs.round, t.mempool);
    var sent := ProposedBlock(p, proposer, s);
    var hashes := p.crypto.TxHashes(sent.transactions);
    block := Block(sent.header, Lookup(hashes, Pool(p.crypto, t.mempool)));
    KnownIsPrevoted(p, me, t, sent.header, hashes);
  }

  lemma TakenWhen(p: Params, me: Id, s: Node, phase: Phase, vote: Vote, signature: Option<Signature>)
    requires p.N() > 0
    ensures Enabled(p, me, s, ReceiveVote(phase, vote, signature)) <==>
      && vote.validator in p.validators && vote.height == s.height
      && signature.Some? && p.crypto.check(vote.validator, VoteDomain(vote), signature.value)
      && vote.validator !in s.cs.BucketAt(vote.round, phase)
    ensures Enabled(p, me, s, ReceiveVote(phase, vote, signature)) ==>
      Apply(p, me, s, ReceiveVote(phase, vote, signature)) == s.(cs := PutVote(s.cs, Slot(vote.round, phase), vote))
  {
  }

  lemma AcceptedWhen(p: Params, s: Node, header: BlockHeader, round: int)
    requires p.N() > 0
    ensures AcceptHeader(p, s, header, round) <==>
      && header.height == s.height && header.parentHash == ParentHash(p, s.ledger)
      && header.proposer == p.ProposerFor(s.height, round)
      && header.signature.Some? && p.crypto.check(header.proposer, HeaderDomain(header.Payload()), header.signature.value)
  {
  }

  lemma ProposalSteps(p: Params, me: Id, s: Node, header: BlockHeader, txHashes: seq<Hash>, round: int)
    requires p.N() > 0
    ensures AcceptHeader(p, s, header, round) <==>
      && header.height == s.height && header.parentHash == ParentHash(p, s.ledger)
      && header.proposer == p.ProposerFor(s.height, round)
      && header.signature.Some? && p.crypto.check(header.proposer, HeaderDomain(header.Payload()), header.signature.value)
    ensures Missing(txHashes, Pool(p.crypto, s.mempool)) == [] <==> forall h :: h in txHashes ==> h in Pool(p.crypto, s.mempool)
    ensures var pool, steps := Pool(p.crypto, s.mempool), FirstSteps(p, me, s, Proposal(header, txHashes, round));
      if !AcceptHeader(p, s, header, round) then steps == []
      else if Missing(txHashes, pool) != [] then steps == [ParkHeader(round, header, txHashes)]
      else (forall h :: h in txHashes ==> h in pool) && steps == OnBlock(p, me, s, Block(header, Lookup(txHashes, pool)), round)
  {
    var missing := Missing(txHashes, Pool(p.crypto, s.mempool));
    MissingIff(txHashes, Pool(p.crypto, s.mempool));
    assert missing != [] ==> missing[0] in missing;
    AcceptedWhen(p, s, header, round);
    hide AcceptHeader, Pool, Missing, OnBlock;
  }

  lemma SamePrevote(p: Params, s: Node, s': Node, block: Block)
    requires p.N() > 0 && s' == s.(cs := s.cs.(proposals := s'.cs.proposals))
    ensures PrevoteFor(p, s', block) == PrevoteFor(p, s, block)
  {
  }

  // ---- what follows ----

  /** Nothing comes after such steps: they end neither with a vote, which would be tallied, nor with a round that the
      validator leads. */
  predicate AtRest(p: Params, me: Id, height: int, steps: seq<Action>)
    requires p.N() > 0
  {
    steps == [] || match steps[|steps| - 1]
      case CastPrevote(_) => false
      case CastPrecommit(_) => false
      case ReceiveVote(_, _, _) => false
      case ProposeBlock => false
      case EnterRound(r) => !Leads(p, me, if steps[0].Decide? then height + 1 else height, r)
      case _ => true
  }

  /** The record goes on with these steps, and with these alone when nothing comes after them. */
  ghost predicate Follows(p: Params, me: Id, height: int, before: seq<Action>, steps: seq<Action>, after: seq<Action>)
    requires p.N() > 0
  {
    before + steps <= after && (AtRest(p, me, height, steps) ==> after == before + steps)
  }

  /** What follows some bookkeeping follows from before it. */
  lemma FollowsFrom(p: Params, me: Id, height: int, before: seq<Action>, first: seq<Action>, steps: seq<Action>, after: seq<Action>)
    requires p.N() > 0 && Follows(p, me, height, before + first, steps, after)
    requires forall a :: a in first ==> a.AddTransaction? || a.UnparkHeader?
    requires forall a :: a in steps ==> !a.EnterRound?
    ensures Follows(p, me, height, before, first + steps, after)
  {
    assert before + first + steps == before + (first + steps);
    if steps == [] {
      assert first + steps == first;
    } else {
      assert (first + steps)[|first + steps| - 1] == steps[|steps| - 1];
    }
  }

  lemma BlockFollows(p: Params, me: Id, s: Node, block: Block, round: int, before: seq<Action>, kept: seq<Action>, after: seq<Action>)
    requires p.N() > 0 && kept == before + if round in s.cs.proposals then [] else [StoreBlock(round, block)]
    requires if round == s.cs.round && s.cs.step == ProposeStep && me !in s.cs.BucketAt(round, Prevote)
             then kept + [CastPrevote(block)] <= after else after == kept
    ensures Follows(p, me, s.height, before, OnBlock(p, me, s, block, round), after)
  {
    assert before + ([StoreBlock(round, block)] + [CastPrevote(block)]) == before + [StoreBlock(round, block)] + [CastPrevote(block)];
  }

  // ---- what a quorum calls for ----

  /** The validator has this vote of its own in the slot, unless it has left the height by now. */
  ghost predicate HasVoted(me: Id, s: Node, round: int, phase: Phase, hash: Hash, s': Node) {
    s'.height > s.height || (me in s'.cs.BucketAt(round, phase) && s'.cs.BucketAt(round, phase)[me].blockHash == hash)
  }

  lemma OwnVoteStays(me: Id, s: Node, s': Node, round: int, phase: Phase, hash: Hash)
    requires Onward(me, true, s, s') && me in s.cs.BucketAt(round, phase) && s.cs.BucketAt(round, phase)[me].blockHash == hash
    ensures HasVoted(me, s, round, phase, hash, s')
  {
    if s'.height == s.height { VoteStays(me, true, s, s', round, phase, me); }
  }

  lemma VotedByNow(p: Params, me: Id, s: Node, s': Node, round: int, block: Block)
    requires p.N() > 0 && Onward(me, true, s, s')
    requires me !in s.cs.BucketAt(round, Prevote) ==> HasVoted(me, s, round, Prevote, PrevoteFor(p, s, block), s')
    ensures s'.height > s.height || me in s'.cs.BucketAt(round, Prevote)
  {
    OnwardKeeps(me, true, s, s');
    if me in s.cs.BucketAt(round, Prevote) && s'.height == s.height { VoteStays(me, true, s, s', round, Prevote, me); }
  }

  /** What a quorum for x brings about, from s to s', whatever else it leads to.
      Prevotes for the block of their round, which need not be the current one, leave a lock no older than that round, and
      in the current round, at the prevote step, the validator's own precommit, if it had none; prevotes for NIL leave a
      precommit for NIL there. Precommits for the locked block, of whatever round, finalize it and begin the next height;
      precommits for NIL in the current round leave that round. No other quorum changes anything. */
  ghost predicate Effects(p: Params, me: Id, s: Node, round: int, phase: Phase, x: Hash, s': Node) {
    var cs := s.cs;
    var current := round == cs.round && cs.step == PrevoteStep && me !in cs.BucketAt(round, Precommit);
    var held := round in cs.proposals && p.crypto.BlockHash(cs.proposals[round]) == x;
    match phase
    case Prevote =>
      if x == NIL then (if current then HasVoted(me, s, round, Precommit, NIL, s') else s' == s)
      else if !held then s' == s
      else if current then
        HasVoted(me, s, round, Precommit, x, s') &&
        (s'.height > s.height || (s'.cs.lockedRound >= round && (cs.lockedRound <= round ==> s'.cs.locked.Some?)))
      else
        s' == s.(cs := s'.cs) && s'.cs.votes == cs.votes && s'.cs.round == cs.round && s'.cs.step == cs.step &&
        (if round >= cs.lockedRound then s'.cs.locked == Some(cs.proposals[round]) && s'.cs.lockedRound == round
         else s'.cs.locked == cs.locked && s'.cs.lockedRound == cs.lockedRound)
    case Precommit =>
      if x == NIL then (if round == cs.round then s'.height > s.height || s'.cs.round > round else s' == s)
      else if cs.locked.Some? && p.crypto.BlockHash(cs.locked.value) == x then
        s'.height > s.height && s.ledger + [cs.locked.value] <= s'.ledger
      else s' == s
  }

  /** The record continues with exactly what a quorum for x calls for, and that has its effects. */
  ghost predicate ReactsTo(p: Params, me: Id, s: Node, s': Node, round: int, phase: Phase, x: Hash, before: seq<Action>, after: seq<Action>)
    requires p.N() > 0
  {
    Follows(p, me, s.height, before, Reaction(p, me, s, round, phase, x), after) && Effects(p, me, s, round, phase, x, s')
  }

  lemma PrevoteQuorumEffects(p: Params, me: Id, s: Node, locked: Node, s': Node, round: int, x: Hash)
    requires x != NIL && round in s.cs.proposals && p.crypto.BlockHash(s.cs.proposals[round]) == x
    requires locked == s.(cs := Lock(s.cs, round, s.cs.proposals[round])) && Onward(me, true, locked, s')
    requires if round == s.cs.round && s.cs.step == PrevoteStep && me !in s.cs.BucketAt(round, Precommit)
             then HasVoted(me, locked, round, Precommit, x, s') else s' == locked
    ensures Effects(p, me, s, round, Prevote, x, s')
  {
    OnwardKeeps(me, true, locked, s');
    hide Onward;
  }

  lemma PrevoteQuorumFollows(p: Params, me: Id, s: Node, round: int, x: Hash, before: seq<Action>, after: seq<Action>)
    requires p.N() > 0 && x != NIL
    requires if round !in s.cs.proposals || p.crypto.BlockHash(s.cs.proposals[round]) != x then after == before
      else if round == s.cs.round && s.cs.step == PrevoteStep && me !in s.cs.BucketAt(round, Precommit)
      then before + [LockOn(round)] + [CastPrecommit(x)] <= after
      else after == before + [LockOn(round)]
    ensures Follows(p, me, s.height, before, Reaction(p, me, s, round, Prevote, x), after)
  {
    assert before + [LockOn(round)] + [CastPrecommit(x)] == before + [LockOn(round), CastPrecommit(x)];
  }

  lemma LockKeeps(cs: HeightState, round: int, block: Block)
    ensures var cs' := Lock(cs, round, block);
      LockKept(cs, cs') && cs'.votes == cs.votes && cs'.round == cs.round && cs'.step == cs.step && cs'.proposals == cs.proposals
  {
  }

  /** A prevote quorum for the block of its round allows the lock, and is still there after it. */
  lemma QuorumLocks(p: Params, me: Id, s: Node, round: int, x: Hash)
    requires p.N() > 0 && x != NIL && HasQuorum(p, s.cs, round, Prevote, x)
    requires round in s.cs.proposals && p.crypto.BlockHash(s.cs.proposals[round]) == x
    ensures Enabled(p, me, s, LockOn(round))
    ensures HasQuorum(p, Lock(s.cs, round, s.cs.proposals[round]), round, Prevote, x)
  {
    assert Lock(s.cs, round, s.cs.proposals[round]).Voters(round, Prevote, x) == s.cs.Voters(round, Prevote, x);
  }

  lemma PrevotesReact(p: Params, me: Id, s: Node, locked: Node, s': Node, round: int, x: Hash, before: seq<Action>, after: seq<Action>)
    requires p.N() > 0 && x != NIL
    requires if round !in s.cs.proposals || p.crypto.BlockHash(s.cs.proposals[round]) != x then after == before && s' == s
      else
        && locked == s.(cs := Lock(s.cs, round, s.cs.proposals[round])) && Onward(me, true, locked, s')
        && if round == s.cs.round && s.cs.step == PrevoteStep && me !in s.cs.BucketAt(round, Precommit)
           then before + [LockOn(round)] + [CastPrecommit(x)] <= after && HasVoted(me, locked, round, Precommit, x, s')
           else after == before + [LockOn(round)] && s' == locked
    ensures ReactsTo(p, me, s, s', round, Prevote, x, before, after)
  {
    PrevoteQuorumFollows(p, me, s, round, x, before, after);
    if round in s.cs.proposals && p.crypto.BlockHash(s.cs.proposals[round]) == x {
      hide Follows, Reaction;
      PrevoteQuorumEffects(p, me, s, locked, s', round, x);
    }
  }

  lemma NilPrevotesReact(p: Params, me: Id, s: Node, s': Node, round: int, before: seq<Action>, after: seq<Action>)
    requires p.N() > 0
    requires if round == s.cs.round && s.cs.step == PrevoteStep && me !in s.cs.BucketAt(round, Precommit)
             then before + [CastPrecommit(NIL)] <= after && HasVoted(me, s, round, Precommit, NIL, s') else after == before && s' == s
    ensures ReactsTo(p, me, s, s', round, Prevote, NIL, before, after)
  {
  }

  /** A hash at quorum, and where the validator and its record were when it was reacted to. */
  datatype Counted = Counted(hash: Hash, node: Node, mark: seq<Action>)

  function HashesOf(turns: seq<Counted>): (hashes: seq<Hash>)
    ensures |hashes| == |turns| && forall k :: 0 <= k < |turns| ==> hashes[k] == turns[k].hash
  {
    seq(|turns|, k requires 0 <= k < |turns| => turns[k].hash)
  }

  /** The record as one quorum has left it: where the next one finds it. */
  function MarkAfter(turns: seq<Counted>, k: nat, after: seq<Action>): seq<Action> {
    if k + 1 < |turns| then turns[k + 1].mark else after
  }

  /** And the state. */
  function NodeAfter(turns: seq<Counted>, k: nat, last: Node): Node { if k + 1 < |turns| then turns[k + 1].node else last }

  /** Some quorums of a slot, each reacted to in the state that the ones before have left. */
  ghost predicate InTurn(p: Params, me: Id, s: Node, s': Node, round: int, phase: Phase, turns: seq<Counted>,
                         before: seq<Action>, after: seq<Action>)
    requires p.N() > 0
  {
    && (if turns == [] then s' == s && after == before else turns[0].node == s && turns[0].mark == before)
    && (forall i, j :: 0 <= i < j < |turns| ==> turns[i].hash != turns[j].hash)
    && (forall i, j :: 0 <= i < j < |turns| ==> Onward(me, true, turns[i].node, turns[j].node))
    && (forall k :: 0 <= k < |turns| ==>
          ReactsTo(p, me, turns[k].node, NodeAfter(turns, k, s'), round, phase, turns[k].hash, turns[k].mark, MarkAfter(turns, k, after)))
  }

  /** Every hash at quorum in the slot is reacted to once, one after the other, in some order. */
  ghost predicate Reacts(p: Params, me: Id, s: Node, s': Node, round: int, phase: Phase, before: seq<Action>, after: seq<Action>)
    requires p.N() > 0
  {
    exists turns :: InTurn(p, me, s, s', round, phase, turns, before, after) &&
      forall x :: x in HashesOf(turns) <==> HasQuorum(p, s.cs, round, phase, x)
  }

  lemma OneMoreTurn(p: Params, me: Id, s: Node, s': Node, round: int, phase: Phase, turns: seq<Counted>, turn: Counted,
                    before: seq<Action>, after: seq<Action>)
    requires p.N() > 0 && InTurn(p, me, s, turn.node, round, phase, turns, before, turn.mark) && turn.hash !in HashesOf(turns)
    requires turns == [] ==> turn.node == s
    requires forall k :: 0 <= k < |turns| ==> Onward(me, true, turns[k].node, turn.node)
    requires ReactsTo(p, me, turn.node, s', round, phase, turn.hash, turn.mark, after)
    ensures InTurn(p, me, s, s', round, phase, turns + [turn], before, after)
    ensures HashesOf(turns + [turn]) == HashesOf(turns) + [turn.hash]
  {
    hide ReactsTo, Onward, HashesOf;
    var more := turns + [turn];
    forall k | 0 <= k < |more|
      ensures ReactsTo(p, me, more[k].node, NodeAfter(more, k, s'), round, phase, more[k].hash, more[k].mark, MarkAfter(more, k, after))
    {
      if k < |turns| {
        assert MarkAfter(more, k, after) == MarkAfter(turns, k, turn.mark) && NodeAfter(more, k, s') == NodeAfter(turns, k, turn.node);
        assert ReactsTo(p, me, turns[k].node, NodeAfter(turns, k, turn.node), round, phase, turns[k].hash, turns[k].mark,
                        MarkAfter(turns, k, turn.mark));
      }
    }
    forall i, j | 0 <= i < j < |more| ensures more[i].hash != more[j].hash {
      assert HashesOf(turns)[i] == turns[i].hash;
    }
  }

  lemma NoTurns(p: Params, me: Id, s: Node, round: int, phase: Phase, before: seq<Action>)
    requires p.N() > 0
    ensures InTurn(p, me, s, s, round, phase, [], before, before)
  {
  }

  /** The only hash at quorum in a slot. */
  ghost predicate Sole(p: Params, cs: HeightState, round: int, phase: Phase, x: Hash)
    requires p.N() > 0
  {
    HasQuorum(p, cs, round, phase, x) && forall y :: HasQuorum(p, cs, round, phase, y) ==> y == x
  }

  /** With no quorum nothing is recorded and nothing changes; with one, what it calls for. */
  lemma FewQuorums(p: Params, me: Id, s: Node, s': Node, round: int, phase: Phase, before: seq<Action>, after: seq<Action>)
    requires p.N() > 0 && Reacts(p, me, s, s', round, phase, before, after)
    ensures (forall x :: !HasQuorum(p, s.cs, round, phase, x)) ==> after == before && s' == s
    ensures forall x :: Sole(p, s.cs, round, phase, x) ==> ReactsTo(p, me, s, s', round, phase, x, before, after)
  {
    hide HasQuorum, ReactsTo, Onward;
    var turns: seq<Counted> :| InTurn(p, me, s, s', round, phase, turns, before, after) &&
      forall x :: x in HashesOf(turns) <==> HasQuorum(p, s.cs, round, phase, x);
    if turns != [] { assert HashesOf(turns)[0] in HashesOf(turns); }
    forall x | Sole(p, s.cs, round, phase, x) ensures ReactsTo(p, me, s, s', round, phase, x, before, after) {
      assert HasQuorum(p, s.cs, round, phase, x);
      forall k | 0 <= k < |turns| ensures turns[k].hash == x {
        assert HashesOf(turns)[k] in HashesOf(turns);
      }
      assert |turns| == 1 && MarkAfter(turns, 0, after) == after && NodeAfter(turns, 0, s') == s';
      assert ReactsTo(p, me, turns[0].node, NodeAfter(turns, 0, s'), round, phase, turns[0].hash, turns[0].mark, MarkAfter(turns, 0, after));
    }
  }

  lemma SoleEffects(p: Params, me: Id, s: Node, s': Node, round: int, phase: Phase, before: seq<Action>, after: seq<Action>)
    requires p.N() > 0 && Reacts(p, me, s, s', round, phase, before, after)
    ensures forall x :: Sole(p, s.cs, round, phase, x) ==> Effects(p, me, s, round, phase, x, s')
  {
    FewQuorums(p, me, s, s', round, phase, before, after);
    hide Reacts, Sole, Effects, Follows;
  }

  /** A precommit quorum for the locked block, in whatever round, finalizes it. */
  lemma LockedDecides(p: Params, me: Id, s: Node, s': Node, round: int)
    requires p.N() > 0 && p.Decisive() && LiveOk(p, s)
    requires forall x :: Sole(p, s.cs, round, Precommit, x) ==> Effects(p, me, s, round, Precommit, x, s')
    ensures s.cs.locked.Some? && HasQuorum(p, s.cs, round, Precommit, p.crypto.BlockHash(s.cs.locked.value)) ==>
      s'.height > s.height && s.ledger + [s.cs.locked.value] <= s'.ledger
  {
    if s.cs.locked.Some? && HasQuorum(p, s.cs, round, Precommit, p.crypto.BlockHash(s.cs.locked.value)) {
      var x := p.crypto.BlockHash(s.cs.locked.value);
      forall y | HasQuorum(p, s.cs, round, Precommit, y) ensures y == x {
        OneQuorumPerBucket(p, s, round, Precommit, y, x);
      }
      assert Sole(p, s.cs, round, Precommit, x);
    }
  }

  lemma VoteEffects(p: Params, me: Id, s: Node, s': Node, round: int, phase: Phase, before: seq<Action>, after: seq<Action>, rulebound: bool)
    requires p.N() > 0 && Reacts(p, me, s, s', round, phase, before, after) && (rulebound ==> p.Decisive() && LiveOk(p, s))
    ensures forall x :: Sole(p, s.cs, round, phase, x) ==> Effects(p, me, s, round, phase, x, s')
    ensures (&& rulebound && phase == Precommit && s.cs.locked.Some?
             && HasQuorum(p, s.cs, round, Precommit, p.crypto.BlockHash(s.cs.locked.value))) ==>
      s'.height > s.height && s.ledger + [s.cs.locked.value] <= s'.ledger
  {
    SoleEffects(p, me, s, s', round, phase, before, after);
    hide Effects, Sole, LiveOk, HasQuorum;
    if rulebound && phase == Precommit { LockedDecides(p, me, s, s', round); }
  }

  /** A slot of another round than the current one is reacted to by locking or by leaving the height, if at all. */
  predicate Steady(s: Node, s': Node, round: int) {
    s'.height == s.height && round != s.cs.round ==> s'.cs.round == s.cs.round && s'.cs.step == s.cs.step
  }

  lemma SteadyTrans(me: Id, a: Node, b: Node, c: Node, round: int)
    requires Onward(me, true, a, b) && Onward(me, true, b, c) && Steady(a, b, round) && Steady(b, c, round)
    ensures Steady(a, c, round)
  {
  }

  /** What is left to do for a slot does not grow while its quorums are gone through. */
  lemma TallyDescends(p: Params, me: Id, s: Node, s': Node, round: int)
    requires p.N() > 0 && Onward(me, true, s, s') && Steady(s, s', round) && (s' == s || HoldsForeign(me, s.cs.votes))
    ensures var (f, f') := (HoldsForeign(me, s.cs.votes), HoldsForeign(me, s'.cs.votes));
      var (left, work) := (Left(p, me, f, s.height, s.cs.round), Work(p, me, f', s'.height, s'.cs.round, round));
      || Novelty(me, s'.cs.votes) < Novelty(me, s.cs.votes)
      || (&& Novelty(me, s'.cs.votes) == Novelty(me, s.cs.votes)
          && (work < left || (work == left && Rank(s'.cs.step) <= Rank(s.cs.step))))
  {
  }

  ghost function VotersAmong(bucket: Bucket, some: set<Id>, x: Hash): set<Id> {
    set v | v in some && v in bucket && bucket[v].blockHash == x
  }

  lemma CountOneMore(bucket: Bucket, done: set<Id>, v: Id)
    requires v in bucket && v !in done
    ensures forall x :: |VotersAmong(bucket, done + {v}, x)| ==
                        |VotersAmong(bucket, done, x)| + if x == bucket[v].blockHash then 1 else 0
  {
    forall x ensures |VotersAmong(bucket, done + {v}, x)| ==
                     |VotersAmong(bucket, done, x)| + if x == bucket[v].blockHash then 1 else 0
    {
      assert VotersAmong(bucket, done + {v}, x) ==
             VotersAmong(bucket, done, x) + if x == bucket[v].blockHash then {v} else {};
    }
  }

  lemma FewVotes(p: Params, cs: HeightState, round: int, phase: Phase)
    requires p.N() > 0 && |cs.BucketAt(round, phase)| < p.Quorum()
    ensures forall x :: !HasQuorum(p, cs, round, phase, x)
  {
    forall x ensures !HasQuorum(p, cs, round, phase, x) {
      SubsetSize(cs.Voters(round, phase, x), cs.BucketAt(round, phase).Keys);
    }
  }

  class ConsensusEngine {
    const p: Params
    const me: Id
    const network: Network
    const roundTimeout: nat
    const store: State
    /** True of a `ByzantineEngine`, which overrides how votes and proposals are sent. */
    const equivocates: bool
    /** Where this engine began. */
    ghost const base: Node
    var height: nat
    var ledger: seq<Block>
    var mempool: seq<Transaction>
    var cs: ConsensusState
    var timeoutEvent: Option<nat>
    /** Every atomic step taken since construction. */
    ghost var trace: seq<Action>
    /** Those of them that took in a vote from the network. */
    ghost var heard: seq<Action>

    function View(): Node
      reads this, cs, store
    {
      Node(height, ledger, mempool, store.View(), cs.View())
    }

    /** An honest engine, and a number of validators at which a bucket has at most one quorum. */
    ghost predicate Rulebound() { p.N() > 0 && p.Decisive() && !equivocates }

    /** The record of a rulebound engine is a sequence of atomic steps, each allowed when it was taken, that leads to
        the present state; and what was broadcast is exactly what those steps announce, in order. */
    ghost predicate Valid()
      reads this, cs, store, network
    {
      && p.WellFormed() && me in p.validators && IsBeginning(base) && !cs.decided
      && (Rulebound() ==> Reached(p, me, base, trace, View(), SaidBy(network.broadcasts, me), heard))
    }

    ghost predicate Ready()
      reads this, cs, store, network, network.clock
    {
      Valid() && network.Valid()
    }

    ghost predicate TimerArmed()
      reads this, network, network.clock
    {
      Armed(network.clock.View(), me, timeoutEvent)
    }

    ghost predicate TimerQuiet()
      reads this, network, network.clock
    {
      NoStrayTimer(network.clock.View(), me, timeoutEvent)
    }

    /** What every handler keeps: a longer record, one armed timer, everybody else undisturbed, nothing undone, and no
        vote taken in but those given. */
    twostate predicate Continued(taken: seq<Action>)
      reads this, cs, store, network, network.clock
    {
      && Ready() && TimerArmed() && old(trace) <= trace && heard == old(heard) + taken
      && OnlyBy(me, equivocates, old(network.View()), network.View())
      && Onward(me, taken == [], old(View()), View())
    }

    /** What the recorded step does is what happened. */
    twostate predicate Stepped(action: Action)
      reads this, cs, store, network
    {
      && trace == old(trace) + [action]
      && heard == old(heard) + Taken(action)
      && (Rulebound() ==>
            && Enabled(p, me, old(View()), action)
            && View() == Apply(p, me, old(View()), action)
            && SaidBy(network.broadcasts, me) == SaidBy(old(network.broadcasts), me) + Announced(p, me, old(View()), action))
    }

    twostate lemma StaysValid(action: Action)
      requires old(Valid()) && Stepped(action) && !cs.decided
      ensures Valid()
    {
      if Rulebound() {
        Extend(p, me, base, old(trace), old(View()), SaidBy(old(network.broadcasts), me), old(heard), action);
      }
    }

    /** Every proposal an honest engine has broadcast was made while it was in some earlier state of its record: of the block
        it was locked on then, or if unlocked of a block of its own over its whole pool. */
    lemma BroadcastProposals(m: Message) returns (h: seq<Moment>, i: nat)
      requires Valid() && Rulebound() && m.Proposal? && m in SaidBy(network.broadcasts, me)
      ensures IsHistory(p, me, base, h, trace) && h[|trace|].node == View() && i < |trace|
      ensures trace[i].ProposeBlock? && ProposesFrom(p, me, h[i].node, m.header, m.txHashes, m.round)
    {
      h :| IsHistory(p, me, base, h, trace) && h[|trace|] == Moment(View(), SaidBy(network.broadcasts, me), heard);
      i := ProposalsAreMade(p, me, base, h, trace, |trace|, m);
    }

    constructor (p: Params, me: Id, network: Network, roundTimeout: nat,
                 mempool: seq<Transaction>, store: State, ledger: seq<Block>, equivocates: bool)
      requires p.WellFormed() && me in p.validators && network.Valid()
      requires SaidBy(network.broadcasts, me) == []
      ensures Ready() && View() == base == Node(|ledger|, ledger, mempool, store.View(), FreshHeight)
      ensures trace == [] && heard == [] && timeoutEvent == None && fresh(cs)
      ensures this.p == p && this.me == me && this.network == network && this.roundTimeout == roundTimeout
      ensures this.store == store && this.equivocates == equivocates
    {
      this.p, this.me, this.network, this.roundTimeout, this.equivocates := p, me, network, roundTimeout, equivocates;
      this.mempool, this.store, this.ledger, height := mempool, store, ledger, |ledger|;
      base := Node(|ledger|, ledger, mempool, store.View(), FreshHeight);
      cs := new ConsensusState();
      timeoutEvent, trace, heard := None, [], [];
      new;
      ReachedAtFirst(p, me, base);
    }

    // ---- helpers ----

    predicate IsProposer()
      reads this, cs
    {
      p.N() > 0 && p.ProposerFor(height, cs.round) == me
    }

    method ResetRoundTimeout()
      requires network.Valid() && TimerQuiet()
      modifies this`timeoutEvent, network.clock
      ensures network.Valid() && TimerArmed() && OnlyBy(me, equivocates, old(network.View()), network.View())
      ensures timeoutEvent == Some(network.clock.seqno)
      ensures Event(network.clock.now + roundTimeout, network.clock.seqno, RoundTimeout(me)) in network.clock.heap
    {
      hide LiveTimers, SaidBy, Sound, Tracked, Logged;
      RearmTimer(network.clock.View(), me, timeoutEvent, roundTimeout);
      network.clock.CancelEvent(timeoutEvent);
      var id := network.clock.ScheduleAfter(roundTimeout, RoundTimeout(me));
      timeoutEvent := Some(id);
    }

    /** The rounds this validator's present round still leads to. */
    ghost function RoundsLeft(): nat
      requires p.N() > 0
      reads this, cs
    {
      Left(p, me, HoldsForeign(me, cs.votes), height, cs.round)
    }

    ghost function WorkOf(round: int): nat
      requires p.N() > 0
      reads this, cs
    {
      Work(p, me, HoldsForeign(me, cs.votes), height, cs.round, round)
    }

    // ---- rounds ----

    method EnterRound(round: int)
      requires Ready() && TimerQuiet() && p.N() >= 2
      requires round > cs.round || (round == cs.round && cs.step == ProposeStep)
      requires Rulebound() ==> Enabled(p, me, View(), Action.EnterRound(round))
      modifies this, cs, store, network, network.clock
      ensures Continued([]) && (cs == old(cs) || fresh(cs))
      ensures old(trace) + [Action.EnterRound(round)] <= trace
      ensures height > old(height) || (height == old(height) && cs.round >= round)
      ensures Leads(p, me, old(height), round) ==> height > old(height) || me in cs.View().BucketAt(round, Prevote)
      ensures if Leads(p, me, old(height), round) then old(trace) + [Action.EnterRound(round), ProposeBlock] <= trace
              else trace == old(trace) + [Action.EnterRound(round)]
      decreases Novelty(me, cs.votes), Turns(p, me, HoldsForeign(me, cs.votes), height, round), 3
    {
      hide Reached, OnlyBy, Onward, Armed, NoStrayTimer, Network.Valid, Params.WellFormed, Apply, HoldsForeign, Left, Turns;
      hide HasVoted, PrevoteFor, ForgedBlock, ProposedBlock;
      if !cs.decided {
        OpenRound(round);
        if IsProposer() {
          LeadingCounts(p, me, HoldsForeign(me, cs.votes), height, round);
          assert old(trace) + [Action.EnterRound(round), ProposeBlock] == trace + [ProposeBlock];
          ghost var s, t := View(), network.View();
          Propose();
          OnlyByTrans(me, equivocates, old(network.View()), t, network.View());
          OnwardTrans(me, true, old(View()), s, View());
          OnwardKeeps(me, true, s, View());
          VotedByNow(p, me, s, View(), round, if equivocates then ForgedBlock(p, me, s, 0) else ProposedBlock(p, me, s));
        }
      }
    }

    /** The round begins, with a timer of its own. */
    method OpenRound(round: int)
      requires Ready() && TimerQuiet() && (Rulebound() ==> Enabled(p, me, View(), Action.EnterRound(round)))
      requires round > cs.round || (round == cs.round && cs.step == ProposeStep)
      modifies this`trace, this`timeoutEvent, cs`round, cs`step, network.clock
      ensures Continued([]) && trace == old(trace) + [Action.EnterRound(round)]
      ensures View() == old(View()).(cs := old(cs.View()).(round := round, step := ProposeStep))
    {
      hide Reached, OnlyBy, Onward, Armed, NoStrayTimer, Network.Valid, Params.WellFormed, Apply, HoldsForeign;
      BeginRound(round);
      OnwardIf(me, old(View()), View());
      ResetRoundTimeout();
    }

    method BeginRound(round: int)
      requires Ready() && (Rulebound() ==> Enabled(p, me, View(), Action.EnterRound(round)))
      modifies this`trace, cs`round, cs`step
      ensures Ready() && trace == old(trace) + [Action.EnterRound(round)]
      ensures cs.View() == old(cs.View()).(round := round, step := ProposeStep)
    {
      cs.round := round;
      cs.step := ProposeStep;
      trace := trace + [Action.EnterRound(round)];
      StaysValid(Action.EnterRound(round));
    }

    method Propose()
      requires Ready() && TimerArmed() && p.N() >= 2 && cs.step == ProposeStep && IsProposer()
      modifies this, cs, store, network, network.clock
      ensures Continued([]) && (cs == old(cs) || fresh(cs))
      ensures old(trace) + [ProposeBlock] <= trace
      ensures me !in old(cs.View().BucketAt(cs.round, Prevote)) ==>
        var block := if equivocates then ForgedBlock(p, me, old(View()), 0) else ProposedBlock(p, me, old(View()));
        HasVoted(me, old(View()), old(cs.round), Prevote, PrevoteFor(p, old(View()), block), View())
      decreases Novelty(me, cs.votes), RoundsLeft(), Rank(cs.step), 5
    {
      hide Reached, OnlyBy, Onward, Armed, NoStrayTimer, Network.Valid, Params.WellFormed, Apply, Enabled;
      hide PrevoteFor, ForgedBlock, ProposedBlock;
      var block := Offer();
      ghost var s, t := View(), network.View();
      SamePrevote(p, old(View()), s, block);
      HandleProposalLocal(block, cs.round);
      OnlyByTrans(me, equivocates, old(network.View()), t, network.View());
      OnwardTrans(me, true, old(View()), s, View());
    }

    /** A block for this round, kept and sent out: the same one to everybody, or another one to each half. */
    method Offer() returns (block: Block)
      requires Ready() && TimerArmed() && IsProposer()
      modifies this`trace, cs`proposals, network, network.clock
      ensures Continued([]) && trace == old(trace) + [ProposeBlock]
      ensures View() == Offered(old(View()), block)
      ensures block == if equivocates then ForgedBlock(p, me, old(View()), 0) else ProposedBlock(p, me, old(View()))
      ensures if equivocates
        then network.broadcasts == old(network.broadcasts) && network.directs == old(network.directs) + ProposalSends(p, me, old(View()))
        else network.directs == old(network.directs) &&
             network.broadcasts == old(network.broadcasts) + [(me, ProposalOf(p, old(View()), block))]
      ensures !equivocates && cs.validBlock.Some? ==>
        var again := cs.validBlock.value;
        network.broadcasts == old(network.broadcasts) + [(me, Proposal(again.header, p.crypto.TxHashes(again.transactions), cs.round))]
    {
      if equivocates { block := OfferTwo(); } else { block := OfferOne(); }
    }

    method OfferOne() returns (block: Block)
      requires Ready() && TimerArmed() && IsProposer() && !equivocates
      modifies this`trace, cs`proposals, network, network.clock
      ensures Continued([]) && trace == old(trace) + [ProposeBlock]
      ensures View() == Offered(old(View()), block) && block == ProposedBlock(p, me, old(View()))
      ensures cs.validBlock.Some? ==> block == cs.validBlock.value
      ensures network.directs == old(network.directs)
      ensures network.broadcasts == old(network.broadcasts) + [(me, ProposalOf(p, old(View()), block))]
    {
      hide Network.Valid, OnlyBy, Armed, Params.WellFormed, Onward;
      ghost var s := View();
      block := ChooseBlock();
      SendAll(ProposalOf(p, View(), block));
      SaidAfter(old(network.broadcasts), (me, ProposalOf(p, s, block)));
      KeepOffer(block);
      OnwardRefl(me, s, View());
      StaysValid(ProposeBlock);
    }

    method OfferTwo() returns (block: Block)
      requires Ready() && TimerArmed() && equivocates
      modifies this`trace, cs`proposals, network, network.clock
      ensures Continued([]) && trace == old(trace) + [ProposeBlock]
      ensures View() == Offered(old(View()), block) && block == ForgedBlock(p, me, old(View()), 0)
      ensures network.broadcasts == old(network.broadcasts) && network.directs == old(network.directs) + ProposalSends(p, me, old(View()))
    {
      hide Network.Valid, OnlyBy, Armed, Params.WellFormed, Onward, ShowEachHalf;
      ghost var s := View();
      block := Build(LogicalTimestamp(height, cs.round));
      var other := Build(LogicalTimestamp(height, cs.round) + 1);
      SendEachHalf(ProposalOf(p, View(), block), ProposalOf(p, View(), other));
      KeepOffer(block);
      OnwardRefl(me, s, View());
    }

    method KeepOffer(block: Block)
      modifies this`trace, cs`proposals
      ensures trace == old(trace) + [ProposeBlock] && View() == Offered(old(View()), block)
    {
      cs.proposals := cs.proposals[cs.round := block];
      trace := trace + [ProposeBlock];
    }

    method SendAll(m: Message)
      requires network.Valid() && TimerArmed() && !equivocates && OwnBroadcast(me, (me, m))
      modifies network, network.clock
      ensures network.Valid() && TimerArmed() && OnlyBy(me, equivocates, old(network.View()), network.View())
      ensures network.broadcasts == old(network.broadcasts) + [(me, m)] && network.directs == old(network.directs)
    {
      network.Broadcast(me, m);
      BroadcastIsBy(me, old(network.View()), network.View(), m);
    }

    /** One message to one half of the peers, another to the other half. */
    method SendEachHalf(a: Message, b: Message)
      requires network.Valid() && TimerArmed() && OwnDirect(me, equivocates, (me, me, a)) && OwnDirect(me, equivocates, (me, me, b))
      modifies network, network.clock
      ensures network.Valid() && TimerArmed() && OnlyBy(me, equivocates, old(network.View()), network.View())
      ensures network.broadcasts == old(network.broadcasts) && network.directs == old(network.directs) + ShowEachHalf(p, me, a, b)
    {
      hide OnlyBy, Network.Valid, Armed, PeerHalves;
      var (groupA, groupB) := PeerHalves(p, me);
      SendTo(groupA, a);
      ghost var t := network.View();
      SendTo(groupB, b);
      OnlyByTrans(me, equivocates, old(network.View()), t, network.View());
    }

    method SendTo(targets: seq<Id>, m: Message)
      requires network.Valid() && TimerArmed() && OwnDirect(me, equivocates, (me, me, m))
      modifies network, network.clock
      ensures network.Valid() && TimerArmed() && OnlyBy(me, equivocates, old(network.View()), network.View())
      ensures network.broadcasts == old(network.broadcasts) && network.directs == old(network.directs) + AddressedTo(me, targets, m)
    {
      hide OnlyBy, Network.Valid, Armed, PeerHalves;
      OnlyByRefl(me, equivocates, network.View());
      for i := 0 to |targets|
        invariant network.Valid() && TimerArmed() && OnlyBy(me, equivocates, old(network.View()), network.View())
        invariant network.broadcasts == old(network.broadcasts)
        invariant network.directs == old(network.directs) + AddressedTo(me, targets[..i], m)
      {
        ghost var t := network.View();
        SendOne(targets[i], m);
        OnlyByTrans(me, equivocates, old(network.View()), t, network.View());
        assert AddressedTo(me, targets[..i + 1], m) == AddressedTo(me, targets[..i], m) + [(me, targets[i], m)];
      }
      assert targets[..|targets|] == targets;
    }

    method SendOne(to: Id, m: Message)
      requires network.Valid() && TimerArmed() && OwnDirect(me, equivocates, (me, to, m))
      modifies network, network.clock
      ensures network.Valid() && TimerArmed() && OnlyBy(me, equivocates, old(network.View()), network.View())
      ensures network.broadcasts == old(network.broadcasts) && network.directs == old(network.directs) + [(me, to, m)]
    {
      var _ := network.SendDirect(me, to, m);
      DirectIsBy(me, equivocates, old(network.View()), network.View(), to, m);
    }

    /** A block an earlier prevote quorum left to propose again, or a new one over the whole mempool. */
    method ChooseBlock() returns (block: Block)
      ensures block == ProposedBlock(p, me, View())
      ensures match cs.validBlock
        case Some(again) => block == again
        case None => block.transactions == mempool && block.header.proposer == me && block.header.height == height
    {
      if cs.validBlock.Some? {
        block := cs.validBlock.value;
      } else {
        block := Build(LogicalTimestamp(height, cs.round));
      }
    }

    method Build(timestamp: int) returns (block: Block)
      ensures block == Block(BuildHeader(p, me, View(), mempool, timestamp), mempool)
    {
      var txs := mempool;
      var newState := store.ApplyAllTo(p.crypto, txs);
      var root := newState.StateRootOf(p.crypto);
      var header := BlockHeader(height, ParentHash(p, ledger), me, root, p.crypto.TxRoot(txs), timestamp, None);
      block := Block(p.crypto.SignedHeader(header, me), txs);
    }

    method Validate(block: Block, round: int) returns (ok: bool)
      requires p.N() > 0
      ensures ok == ValidateBlock(p, View(), block, round)
    {
      if !AcceptHeader(p, View(), block.header, round) { return false; }
      var expected := store.ApplyAllTo(p.crypto, block.transactions);
      var root := expected.StateRootOf(p.crypto);
      if block.header.stateRoot != root { return false; }
      if block.header.txRoot != p.crypto.TxRoot(block.transactions) { return false; }
      for i := 0 to |block.transactions|
        invariant forall j :: 0 <= j < i ==> p.crypto.TxVerifies(block.transactions[j])
      {
        if !p.crypto.TxVerifies(block.transactions[i]) { return false; }
      }
      return true;
    }

    /** A block may be kept for a round: it is kept already, or its header was accepted. */
    ghost predicate MayKeep(block: Block, round: int)
      reads this, cs, store
    {
      p.N() > 0 && ((round in cs.proposals && cs.proposals[round] == block) || AcceptHeader(p, View(), block.header, round))
    }

    method HandleProposalLocal(block: Block, round: int)
      requires Ready() && TimerArmed() && p.N() >= 2 && (Rulebound() ==> MayKeep(block, round))
      modifies this, cs, store, network, network.clock
      ensures Continued([]) && (cs == old(cs) || fresh(cs))
      ensures Follows(p, me, old(height), old(trace), OnBlock(p, me, old(View()), block, round), trace)
      ensures var stored := if round in old(cs.proposals) then [] else [StoreBlock(round, block)];
        old(trace) + stored <= trace &&
        if round != old(cs.round) || old(cs.step) != ProposeStep then
          && trace == old(trace) + stored
          && View() == old(View()).(cs := old(cs.View()).(proposals :=
               if round in old(cs.proposals) then old(cs.proposals) else old(cs.proposals)[round := block]))
        else me !in old(cs.View().BucketAt(round, Prevote)) ==>
          && old(trace) + stored + [CastPrevote(block)] <= trace
          && HasVoted(me, old(View()), round, Prevote, PrevoteFor(p, old(View()), block), View())
      decreases Novelty(me, cs.votes), RoundsLeft(), Rank(cs.step), 4
    {
      hide Reached, OnlyBy, Onward, Armed, Network.Valid, Params.WellFormed, Apply, Enabled, HoldsForeign, Left, ConsensusEngine.MayKeep;
      hide PrevoteFor, OnBlock, Follows;
      KeepProposal(block, round);
      ghost var s, kept := View(), trace;
      SamePrevote(p, old(View()), s, block);
      OnwardRefl(me, old(View()), s);
      OnlyByRefl(me, equivocates, network.View());
      if round == cs.round && cs.step == ProposeStep {
        PrevoteOn(block);
        OnwardTrans(me, true, old(View()), s, View());
      }
      BlockFollows(p, me, old(View()), block, round, old(trace), kept, trace);
    }

    method KeepProposal(block: Block, round: int)
      requires Ready() && (Rulebound() ==> MayKeep(block, round))
      modifies this`trace, cs`proposals
      ensures Ready() && round in cs.proposals
      ensures cs.View() == old(cs.View()).(proposals := cs.proposals)
      ensures round in old(cs.proposals) ==> trace == old(trace) && cs.proposals == old(cs.proposals)
      ensures round !in old(cs.proposals) ==>
                trace == old(trace) + [StoreBlock(round, block)] && cs.proposals == old(cs.proposals)[round := block]
    {
      if round !in cs.proposals {
        cs.proposals := cs.proposals[round := block];
        trace := trace + [StoreBlock(round, block)];
        StaysValid(StoreBlock(round, block));
      }
    }

    /** Prevote a block that passes full validation and does not contradict a lock; otherwise prevote NIL. */
    method PrevoteOn(block: Block)
      requires Ready() && TimerArmed() && p.N() >= 2 && cs.step == ProposeStep
      modifies this, cs, store, network, network.clock
      ensures Continued([]) && (cs == old(cs) || fresh(cs))
      ensures if me in old(cs.View().BucketAt(cs.round, Prevote)) then trace == old(trace) && View() == old(View())
        else && old(trace) + [CastPrevote(block)] <= trace
             && HasVoted(me, old(View()), old(cs.round), Prevote, PrevoteFor(p, old(View()), block), View())
      decreases Novelty(me, cs.votes), RoundsLeft(), Rank(cs.step), 2
    {
      hide Reached, Onward, Left, HoldsForeign, Network.Valid, OnlyBy, Armed, Params.WellFormed;
      var ok := Validate(block, cs.round);
      var hash := p.crypto.BlockHash(block);
      if cs.lockedBlock.Some? {
        ok := ok && hash == p.crypto.BlockHash(cs.lockedBlock.value);
      }
      SendVote(Prevote, if ok then hash else NIL, CastPrevote(block));
    }

    // ---- votes ----

    /** The step casts a vote for the hash in the phase. */
    ghost predicate Casts(phase: Phase, hash: Hash, action: Action)
      reads this, cs, store
    {
      match phase
      case Prevote => p.N() > 0 && action.CastPrevote? && hash == PrevoteFor(p, View(), action.block)
      case Precommit => action == CastPrecommit(hash)
    }

    /** Casts at most one vote per slot; the step it records is given by the caller. */
    method SendVote(phase: Phase, hash: Hash, ghost action: Action)
      requires Ready() && TimerArmed() && p.N() >= 2
      requires cs.step == (if phase == Prevote then ProposeStep else PrevoteStep)
      requires Casts(phase, hash, action)
      requires Rulebound() && me !in cs.View().BucketAt(cs.round, phase) ==> Enabled(p, me, View(), action)
      modifies this, cs, store, network, network.clock
      ensures Continued([]) && (cs == old(cs) || fresh(cs))
      ensures if me in old(cs.View().BucketAt(cs.round, phase)) then trace == old(trace) && View() == old(View())
        else
          var s := old(View()).(cs := PutVote(old(cs.View()), Slot(old(cs.round), phase), Vote(me, old(height), old(cs.round), phase, hash))
                                        .(step := if phase == Prevote then PrevoteStep else PrecommitStep));
          && old(trace) + [action] <= trace && HasVoted(me, old(View()), old(cs.round), phase, hash, View())
          && Reacts(p, me, s, View(), old(cs.round), phase, old(trace) + [action], trace)
      decreases Novelty(me, cs.votes), RoundsLeft(), Rank(cs.step), 1, 0
    {
      hide Reached, OnlyBy, Onward, Armed, Network.Valid, Params.WellFormed, Apply, Enabled, PrevoteFor;
      hide HasQuorum, Reaction, HoldsForeign, Left, ConsensusEngine.Casts, Reacts;
      OnlyByRefl(me, equivocates, network.View());
      OnwardRefl(me, View(), View());
      if me !in cs.VoteBucket(cs.round, phase) {
        PutKeepsVotes(cs.View(), Slot(cs.round, phase), CastVote(me, View(), phase, hash));
        SignAndSend(phase, hash, action);
        ghost var s, t := View(), network.View();
        OnwardIf(me, old(View()), s);
        Tally(cs.round, phase);
        OnlyByTrans(me, equivocates, old(network.View()), t, network.View());
        OnwardTrans(me, true, old(View()), s, View());
        OwnVoteStays(me, s, View(), old(cs.round), phase, hash);
      }
    }

    /** Signs one vote and shows it to everybody, or signs two that contradict each other and shows one to each half;
        the first is kept. */
    method SignAndSend(phase: Phase, hash: Hash, ghost action: Action)
      requires Ready() && TimerArmed() && Casts(phase, hash, action)
      requires Rulebound() ==> Enabled(p, me, View(), action)
      modifies this`trace, cs`votes, cs`step, network, network.clock
      ensures Ready() && TimerArmed() && heard == old(heard)
      ensures OnlyBy(me, equivocates, old(network.View()), network.View()) && trace == old(trace) + [action]
      ensures View() == old(View()).(cs := PutVote(old(cs.View()), Slot(cs.round, phase), CastVote(me, old(View()), phase, hash))
                                             .(step := if phase == Prevote then PrevoteStep else PrecommitStep))
      ensures HoldsForeign(me, cs.votes) == old(HoldsForeign(me, cs.votes))
      ensures if equivocates
        then network.broadcasts == old(network.broadcasts) &&
             network.directs == old(network.directs) + VoteSends(p, me, old(View()), phase, hash)
        else network.directs == old(network.directs) &&
             network.broadcasts == old(network.broadcasts) + [(me, Ballot(p, CastVote(me, old(View()), phase, hash)))]
    {
      hide Reached, OnlyBy, Armed, Network.Valid, Params.WellFormed, HasQuorum, PrevoteFor, HoldsForeign, VoteSends;
      OwnVoteIsNotForeign(me, cs.View(), Slot(cs.round, phase), CastVote(me, View(), phase, hash));
      ShowVote(phase, hash);
      cs.AddVote(Slot(cs.round, phase), Vote(me, height, cs.round, phase, hash));
      cs.step := if phase == Prevote then PrevoteStep else PrecommitStep;
      trace := trace + [action];
      StaysValid(action);
    }

    method ShowVote(phase: Phase, hash: Hash)
      requires network.Valid() && TimerArmed()
      modifies network, network.clock
      ensures network.Valid() && TimerArmed() && OnlyBy(me, equivocates, old(network.View()), network.View())
      ensures var ballot := Ballot(p, CastVote(me, View(), phase, hash));
        if equivocates
        then network.broadcasts == old(network.broadcasts) && network.directs == old(network.directs) + VoteSends(p, me, View(), phase, hash)
        else && network.directs == old(network.directs) && network.broadcasts == old(network.broadcasts) + [(me, ballot)]
             && SaidBy(network.broadcasts, me) == SaidBy(old(network.broadcasts), me) + [ballot]
    {
      hide OnlyBy, Armed, Network.Valid, ShowEachHalf;
      var vote := Vote(me, height, cs.round, phase, hash);
      if equivocates {
        var other := Vote(me, height, cs.round, phase, ConflictingHash(hash));
        SendEachHalf(Ballot(p, vote), Ballot(p, other));
      } else {
        SaidAfter(network.broadcasts, (me, Ballot(p, vote)));
        SendAll(Ballot(p, vote));
      }
    }

    method OnVote(phase: Phase, vote: Vote, signature: Option<Signature>)
      requires Ready() && TimerArmed() && p.N() >= 2
      modifies this, cs, store, network, network.clock
      ensures var receive := ReceiveVote(phase, vote, signature);
              Continued(if Enabled(p, me, old(View()), receive) then [receive] else [])
      ensures (cs == old(cs) || fresh(cs))
      ensures if && vote.validator in p.validators && vote.height == old(height)
                 && signature.Some? && p.crypto.check(vote.validator, VoteDomain(vote), signature.value)
                 && vote.validator !in old(cs.View().BucketAt(vote.round, phase))
        then
          var s := old(View()).(cs := PutVote(old(cs.View()), Slot(vote.round, phase), vote));
          && old(trace) + [ReceiveVote(phase, vote, signature)] <= trace
          && Reacts(p, me, s, View(), vote.round, phase, old(trace) + [ReceiveVote(phase, vote, signature)], trace)
          && (forall x :: Sole(p, s.cs, vote.round, phase, x) ==> Effects(p, me, s, vote.round, phase, x, View()))
          && (Rulebound() && phase == Precommit && s.cs.locked.Some? &&
              HasQuorum(p, s.cs, vote.round, Precommit, p.crypto.BlockHash(s.cs.locked.value)) ==>
                height > old(height) && old(ledger) + [s.cs.locked.value] <= ledger)
        else trace == old(trace) && View() == old(View()) && network.View() == old(network.View())
    {
      hide Reached, Onward, HasQuorum, Reacts, Effects, Network.Valid, OnlyBy, Armed, Params.WellFormed, LiveOk, Sole;
      OnlyByRefl(me, equivocates, network.View());
      OnwardRefl(me, View(), View());
      if vote.validator in p.validators && vote.height == height &&
         p.crypto.Verifies(vote.validator, VoteDomain(vote), signature) &&
         vote.validator !in cs.VoteBucket(vote.round, phase)
      {
        PutKeepsVotes(cs.View(), Slot(vote.round, phase), vote);
        RecordVote(phase, vote, signature);
        ghost var s := View();
        OnwardTaking(me, old(View()), s);
        if Rulebound() { ReachedLive(p, me, base, trace, s, SaidBy(network.broadcasts, me), heard); }
        Tally(vote.round, phase);
        OnwardTrans(me, false, old(View()), s, View());
        VoteEffects(p, me, s, View(), vote.round, phase, old(trace) + [ReceiveVote(phase, vote, signature)], trace, Rulebound());
      }
    }

    method RecordVote(phase: Phase, vote: Vote, signature: Option<Signature>)
      requires Ready() && Enabled(p, me, View(), ReceiveVote(phase, vote, signature))
      modifies this`trace, this`heard, cs`votes
      ensures Ready() && trace == old(trace) + [ReceiveVote(phase, vote, signature)]
      ensures heard == old(heard) + [ReceiveVote(phase, vote, signature)]
      ensures View() == Apply(p, me, old(View()), ReceiveVote(phase, vote, signature))
    {
      hide Network.Valid, HasQuorum, Params.WellFormed, Reached;
      cs.AddVote(Slot(vote.round, phase), vote);
      trace := trace + [ReceiveVote(phase, vote, signature)];
      heard := heard + [ReceiveVote(phase, vote, signature)];
      StaysValid(ReceiveVote(phase, vote, signature));
    }

    // ---- quorums ----

    /** How often each hash occurs among the votes of a bucket. */
    method CountVotes(bucket: Bucket) returns (counts: map<Hash, nat>)
      ensures forall x :: (if x in counts then counts[x] else 0) == |VotersIn(bucket, x)|
    {
      counts := map[];
      var rest := bucket.Keys;
      ghost var done: set<Id> := {};
      while rest != {}
        invariant done + rest == bucket.Keys && done !! rest
        invariant forall x :: (if x in counts then counts[x] else 0) == |VotersAmong(bucket, done, x)|
        decreases rest
      {
        var v :| v in rest;
        var hash := bucket[v].blockHash;
        CountOneMore(bucket, done, v);
        counts := counts[hash := (if hash in counts then counts[hash] else 0) + 1];
        rest, done := rest - {v}, done + {v};
      }
      forall x ensures VotersAmong(bucket, done, x) == VotersIn(bucket, x) {}
    }

    /** The hashes that at least a quorum of distinct validators in the bucket voted for. Too small a bucket is not counted. */
    method HashesAtQuorum(round: int, phase: Phase) returns (hashes: set<Hash>)
      requires p.N() > 0
      ensures forall x :: x in hashes <==> HasQuorum(p, cs.View(), round, phase, x)
    {
      var bucket, quorum := cs.VoteBucket(round, phase), p.Quorum();
      if |bucket| < quorum {
        FewVotes(p, cs.View(), round, phase);
        return {};
      }
      var counts := CountVotes(bucket);
      hashes := set x | x in counts && counts[x] >= quorum;
      assert forall x :: HasQuorum(p, cs.View(), round, phase, x) <==> |VotersIn(bucket, x)| >= quorum;
    }

    /** Counts a bucket and reacts to each hash at quorum. A rulebound engine finds at most one; where there may be more,
        each is reacted to in the state the ones before have left, as counted before them. */
    method Tally(round: int, phase: Phase)
      requires Ready() && TimerArmed() && p.N() >= 2
      modifies this, cs, store, network, network.clock
      ensures Continued([]) && (cs == old(cs) || fresh(cs))
      ensures Reacts(p, me, old(View()), View(), round, phase, old(trace), trace)
      decreases Novelty(me, cs.votes), RoundsLeft(), Rank(cs.step), 3
    {
      hide Reached, OnlyBy, Onward, Armed, Network.Valid, Params.WellFormed, Reaction, BucketsOk, HoldsForeign, HasQuorum;
      hide InTurn, ReactsTo, Left, Rank;
      ghost var s, t := View(), network.View();
      OnlyByRefl(me, equivocates, t);
      OnwardRefl(me, s, s);
      if Rulebound() { ReachedLive(p, me, base, trace, s, SaidBy(network.broadcasts, me), heard); }
      var hashes := HashesAtQuorum(round, phase);
      ghost var turns: seq<Counted> := [];
      NoTurns(p, me, s, round, phase, trace);
      while hashes != {}
        invariant KeptFrom(s, t, old(trace), old(heard)) && (cs == old(cs) || fresh(cs))
        invariant Steady(s, View(), round) && (turns == [] ==> View() == s)
        invariant InTurn(p, me, s, View(), round, phase, turns, old(trace), trace)
        invariant forall k :: 0 <= k < |turns| ==> Onward(me, true, turns[k].node, View())
        invariant forall x :: HasQuorum(p, s.cs, round, phase, x) <==> x in hashes || x in HashesOf(turns)
        invariant forall x :: x in hashes ==> x !in HashesOf(turns)
        decreases hashes
      {
        var x :| x in hashes;
        if turns != [] { SecondQuorum(round, phase, s, HashesOf(turns)[0], x); }
        hashes := hashes - {x};
        ghost var turn := Counted(x, View(), trace);
        ReactNext(round, phase, x, s, t, old(trace), old(heard));
        OneMoreTurn(p, me, s, View(), round, phase, turns, turn, old(trace), trace);
        forall k | 0 <= k < |turns| ensures Onward(me, true, turns[k].node, View()) {
          OnwardTrans(me, true, turns[k].node, turn.node, View());
        }
        turns := turns + [turn];
      }
    }

    /** What a handler keeps, counted from a given point on. */
    ghost predicate KeptFrom(s: Node, t: Traffic, before: seq<Action>, taken: seq<Action>)
      reads this, cs, store, network, network.clock
    {
      && Ready() && TimerArmed() && before <= trace && heard == taken
      && OnlyBy(me, equivocates, t, network.View()) && Onward(me, true, s, View())
    }

    /** One of the quorums a tally that began at s goes through. */
    method ReactNext(round: int, phase: Phase, x: Hash, ghost s: Node, ghost t: Traffic, ghost before: seq<Action>, ghost taken: seq<Action>)
      requires p.N() >= 2 && KeptFrom(s, t, before, taken) && Steady(s, View(), round)
      requires Rulebound() ==> HasQuorum(p, cs.View(), round, phase, x)
      requires View() == s || HoldsForeign(me, s.cs.votes)
      modifies this, cs, store, network, network.clock
      ensures KeptFrom(s, t, before, taken) && Steady(s, View(), round) && (cs == old(cs) || fresh(cs))
      ensures old(trace) <= trace && Onward(me, true, old(View()), View())
      ensures ReactsTo(p, me, old(View()), View(), round, phase, x, old(trace), trace)
      decreases Novelty(me, s.cs.votes), Left(p, me, HoldsForeign(me, s.cs.votes), s.height, s.cs.round), Rank(s.cs.step), 2, 2
    {
      hide Reached, OnlyBy, Onward, Armed, Network.Valid, Params.WellFormed, Reaction, HoldsForeign, Left, Work, Novelty, Rank, Steady;
      ghost var s', t' := View(), network.View();
      TallyDescends(p, me, s, s', round);
      React(round, phase, x);
      OnlyByTrans(me, equivocates, t, t', network.View());
      OnwardTrans(me, true, s, s', View());
      SteadyTrans(me, s, s', View(), round);
    }

    /** Reached only with foreign votes about, and by engines that are not rulebound. */
    lemma SecondQuorum(round: int, phase: Phase, s: Node, x: Hash, y: Hash)
      requires p.N() > 0 && x != y && HasQuorum(p, s.cs, round, phase, x) && HasQuorum(p, s.cs, round, phase, y)
      requires Rulebound() ==> BucketsOk(p, s)
      ensures !Rulebound() && HoldsForeign(me, s.cs.votes)
    {
      if Rulebound() { OneQuorumPerBucket(p, s, round, phase, x, y); }
      if !HoldsForeign(me, s.cs.votes) { OneQuorumAlone(p, me, s.cs, round, phase, x, y); }
    }

    /** Dispatches a quorum to its handler. */
    method React(round: int, phase: Phase, x: Hash)
      requires Ready() && TimerArmed() && p.N() >= 2 && (Rulebound() ==> HasQuorum(p, cs.View(), round, phase, x))
      modifies this, cs, store, network, network.clock
      ensures Continued([]) && (cs == old(cs) || fresh(cs))
      ensures ReactsTo(p, me, old(View()), View(), round, phase, x, old(trace), trace) && Steady(old(View()), View(), round)
      decreases Novelty(me, cs.votes), WorkOf(round), Rank(cs.step), 2, 1
    {
      match phase
      case Prevote => if x == NIL { OnPrevoteNilQuorum(round); } else { OnPrevoteQuorum(round, x); }
      case Precommit => if x == NIL { OnPrecommitNilQuorum(round); } else { OnPrecommitQuorum(round, x); }
    }

    method OnPrevoteQuorum(round: int, x: Hash)
      requires Ready() && TimerArmed() && p.N() >= 2 && x != NIL && (Rulebound() ==> HasQuorum(p, cs.View(), round, Prevote, x))
      modifies this, cs, store, network, network.clock
      ensures Continued([]) && (cs == old(cs) || fresh(cs))
      ensures ReactsTo(p, me, old(View()), View(), round, Prevote, x, old(trace), trace) && Steady(old(View()), View(), round)
      ensures var current := old(cs.round) == round && old(cs.step) == PrevoteStep && me !in old(cs.View().BucketAt(round, Precommit));
        if round !in old(cs.proposals) || p.crypto.BlockHash(old(cs.proposals)[round]) != x
        then View() == old(View()) && trace == old(trace)
        else if current then old(trace) + [LockOn(round)] + [CastPrecommit(x)] <= trace
        else trace == old(trace) + [LockOn(round)] && cs.lockedRound == if round >= old(cs.lockedRound) then round else old(cs.lockedRound)
      decreases Novelty(me, cs.votes), WorkOf(round), Rank(cs.step), 2, 0
    {
      hide Reached, OnlyBy, Onward, Armed, Network.Valid, Params.WellFormed, Apply, HoldsForeign, Left, ReactsTo, HasVoted;
      hide HasQuorum, Enabled, Lock;
      OnlyByRefl(me, equivocates, network.View());
      OnwardRefl(me, View(), View());
      ghost var s := View();
      if round in cs.proposals && p.crypto.BlockHash(cs.proposals[round]) == x {
        if Rulebound() { QuorumLocks(p, me, s, round, x); }
        LockKeeps(s.cs, round, cs.proposals[round]);
        TakeLock(round);
        s := View();
        OnwardRefl(me, old(View()), s);
        OnwardRefl(me, s, s);
        if round == cs.round && cs.step == PrevoteStep {
          PrecommitLocked(x);
          OnwardTrans(me, true, old(View()), s, View());
        }
      }
      PrevotesReact(p, me, old(View()), s, View(), round, x, old(trace), trace);
    }

    method PrecommitLocked(x: Hash)
      requires Ready() && TimerArmed() && p.N() >= 2 && cs.step == PrevoteStep
      requires Rulebound() ==> HasQuorum(p, cs.View(), cs.round, Prevote, x) && cs.lockedRound >= cs.round
      modifies this, cs, store, network, network.clock
      ensures Continued([]) && (cs == old(cs) || fresh(cs))
      ensures if me in old(cs.View().BucketAt(cs.round, Precommit)) then trace == old(trace) && View() == old(View())
        else old(trace) + [CastPrecommit(x)] <= trace && HasVoted(me, old(View()), old(cs.round), Precommit, x, View())
      decreases Novelty(me, cs.votes), RoundsLeft(), Rank(cs.step), 1, 1
    {
      if Rulebound() { ReachedLive(p, me, base, trace, View(), SaidBy(network.broadcasts, me), heard); }
      SendVote(Precommit, x, CastPrecommit(x));
    }

    method TakeLock(round: int)
      requires Ready() && round in cs.proposals && (Rulebound() ==> Enabled(p, me, View(), LockOn(round)))
      modifies this`trace, cs`lockedBlock, cs`lockedRound, cs`validBlock, cs`validRound
      ensures Ready() && trace == old(trace) + [LockOn(round)]
      ensures View() == old(View()).(cs := Lock(old(cs.View()), round, old(cs.proposals)[round]))
      ensures cs.lockedRound == if round >= old(cs.lockedRound) then round else old(cs.lockedRound)
    {
      cs.LockBlock(round, cs.proposals[round]);
      trace := trace + [LockOn(round)];
      StaysValid(LockOn(round));
    }

    method OnPrevoteNilQuorum(round: int)
      requires Ready() && TimerArmed() && p.N() >= 2 && (Rulebound() ==> HasQuorum(p, cs.View(), round, Prevote, NIL))
      modifies this, cs, store, network, network.clock
      ensures Continued([]) && (cs == old(cs) || fresh(cs))
      ensures ReactsTo(p, me, old(View()), View(), round, Prevote, NIL, old(trace), trace) && Steady(old(View()), View(), round)
      ensures if old(cs.round) == round && old(cs.step) == PrevoteStep && me !in old(cs.View().BucketAt(round, Precommit))
        then old(trace) + [CastPrecommit(NIL)] <= trace else View() == old(View()) && trace == old(trace)
      decreases Novelty(me, cs.votes), WorkOf(round), Rank(cs.step), 2, 0
    {
      hide Reached, OnlyBy, Onward, Armed, Network.Valid, Params.WellFormed, Apply, HoldsForeign, Left, ReactsTo, Reacts;
      OnlyByRefl(me, equivocates, network.View());
      OnwardRefl(me, View(), View());
      if round == cs.round && cs.step == PrevoteStep {
        SendVote(Precommit, NIL, CastPrecommit(NIL));
      }
      NilPrevotesReact(p, me, old(View()), View(), round, old(trace), trace);
    }

    method OnPrecommitQuorum(round: int, x: Hash)
      requires Ready() && TimerArmed() && p.N() >= 2 && x != NIL && (Rulebound() ==> HasQuorum(p, cs.View(), round, Precommit, x))
      modifies this, cs, store, network, network.clock
      ensures Continued([]) && (cs == old(cs) || fresh(cs))
      ensures ReactsTo(p, me, old(View()), View(), round, Precommit, x, old(trace), trace) && Steady(old(View()), View(), round)
      ensures if old(cs.lockedBlock).Some? && p.crypto.BlockHash(old(cs.lockedBlock).value) == x
        then height > old(height) && old(ledger) + [old(cs.lockedBlock).value] <= ledger
        else View() == old(View()) && trace == old(trace)
      decreases Novelty(me, cs.votes), WorkOf(round), Rank(cs.step), 2, 0
    {
      hide Reached, Onward, Left, HoldsForeign, Network.Valid, OnlyBy, Armed, Params.WellFormed;
      OnlyByRefl(me, equivocates, network.View());
      OnwardRefl(me, View(), View());
      if !cs.decided && cs.lockedBlock.Some? && p.crypto.BlockHash(cs.lockedBlock.value) == x {
        Conclude(round);
      }
    }

    method Conclude(round: int)
      requires Ready() && TimerArmed() && p.N() >= 2 && cs.lockedBlock.Some?
      requires Rulebound() ==> Enabled(p, me, View(), Action.Decide(round))
      modifies this, cs, store, network, network.clock
      ensures Continued([]) && fresh(cs) && height > old(height) && old(ledger) + [old(cs.lockedBlock.value)] <= ledger
      ensures Follows(p, me, old(height), old(trace), [Action.Decide(round), Action.EnterRound(0)], trace)
      decreases Novelty(me, cs.votes), WorkOf(round), Rank(cs.step), 1
    {
      hide Reached, OnlyBy, Onward, Armed, NoStrayTimer, Network.Valid, Params.WellFormed, HoldsForeign, Apply;
      CloseHeight(round);
      ghost var s, t := View(), network.View();
      assert old(trace) + [Action.Decide(round), Action.EnterRound(0)] == trace + [Action.EnterRound(0)];
      EnterRound(0);
      OnlyByTrans(me, equivocates, old(network.View()), t, network.View());
      OnwardTrans(me, true, old(View()), s, View());
      OnwardKeeps(me, true, s, View());
    }

    /** The height ends, and its timer with it. */
    method CloseHeight(round: int)
      requires Ready() && TimerArmed() && cs.lockedBlock.Some? && (Rulebound() ==> Enabled(p, me, View(), Action.Decide(round)))
      modifies this`trace, this`ledger, this`mempool, this`height, this`cs, cs, store, network.clock
      ensures Ready() && TimerQuiet() && heard == old(heard) && fresh(cs) && cs.View() == FreshHeight && !HoldsForeign(me, cs.votes)
      ensures OnlyBy(me, equivocates, old(network.View()), network.View()) && Onward(me, true, old(View()), View())
      ensures height == old(height) + 1 && ledger == old(ledger) + [old(cs.lockedBlock.value)]
      ensures trace == old(trace) + [Action.Decide(round)]
    {
      hide Reached, OnlyBy, Armed, NoStrayTimer, Network.Valid, Params.WellFormed, Enabled, LeftBy;
      CancelTimer();
      FinalizeLocked(round);
    }

    /** Finalizes the locked block and moves to the next height with nothing carried over. */
    method FinalizeLocked(round: int)
      requires Valid() && cs.lockedBlock.Some? && (Rulebound() ==> Enabled(p, me, View(), Action.Decide(round)))
      modifies this`trace, this`ledger, this`mempool, this`height, this`cs, cs, store
      ensures Valid() && fresh(cs) && View() == Finalize(p, old(View()), old(cs.lockedBlock.value))
      ensures height == old(height) + 1 && ledger == old(ledger) + [old(cs.lockedBlock.value)]
      ensures LeftBy(old(cs.lockedBlock.value), old(mempool), mempool)
      ensures trace == old(trace) + [Action.Decide(round)]
    {
      Install(cs.lockedBlock.value);
      trace := trace + [Action.Decide(round)];
      StaysValid(Action.Decide(round));
    }

    method Install(block: Block)
      modifies this`ledger, this`mempool, this`height, this`cs, cs, store
      ensures fresh(cs) && View() == Finalize(p, old(View()), block)
      ensures height == old(height) + 1 && ledger == old(ledger) + [block] && cs.View() == FreshHeight
      ensures store.View() == ApplyAll(p.crypto, old(store.View()), block.transactions) && LeftBy(block, old(mempool), mempool)
    {
      hide LeftBy, Remaining, ApplyAll;
      cs.decided := true;
      cs.step := CommitStep;
      ledger := ledger + [block];
      ApplyBlock(block);
      RemainingIsLeft(mempool, block);
      mempool := Remaining(mempool, block);
      height := height + 1;
      cs := new ConsensusState();
    }

    method CancelTimer()
      requires network.Valid() && TimerArmed()
      modifies network.clock
      ensures network.Valid() && TimerQuiet() && OnlyBy(me, equivocates, old(network.View()), network.View())
    {
      hide LiveTimers, SaidBy, Sound, Tracked, Logged;
      ArmedIsNotStray(network.clock.View(), me, timeoutEvent);
      RearmTimer(network.clock.View(), me, timeoutEvent, roundTimeout);
      network.clock.CancelEvent(timeoutEvent);
    }

    method ApplyBlock(block: Block)
      modifies store
      ensures store.View() == ApplyAll(p.crypto, old(store.View()), block.transactions)
    {
      var txs := block.transactions;
      for i := 0 to |txs|
        invariant store.View() == ApplyAll(p.crypto, old(store.View()), txs[..i])
      {
        var _ := store.Apply(p.crypto, txs[i]);
        assert txs[..i + 1][..i] == txs[..i];
      }
      assert txs[..|txs|] == txs;
    }

    method OnPrecommitNilQuorum(round: int)
      requires Ready() && TimerArmed() && p.N() >= 2 && (Rulebound() ==> HasQuorum(p, cs.View(), round, Precommit, NIL))
      modifies this, cs, store, network, network.clock
      ensures Continued([]) && (cs == old(cs) || fresh(cs))
      ensures ReactsTo(p, me, old(View()), View(), round, Precommit, NIL, old(trace), trace) && Steady(old(View()), View(), round)
      ensures if old(cs.round) == round then old(trace) + [Action.EnterRound(round + 1)] <= trace && (height > old(height) || cs.round > round)
        else View() == old(View()) && trace == old(trace)
      decreases Novelty(me, cs.votes), WorkOf(round), Rank(cs.step), 2, 0
    {
      hide Reached, OnlyBy, Params.WellFormed, Armed, Sound;
      OnlyByRefl(me, equivocates, network.View());
      OnwardRefl(me, View(), View());
      if round == cs.round && !cs.decided {
        ArmedIsNotStray(network.clock.View(), me, timeoutEvent);
        EnterRound(round + 1);
      }
    }

    // ---- timers and start ----

    /** The timer that called is no longer pending; the round advances by one before anything else happens. */
    method OnRoundTimeout()
      requires Ready() && TimerQuiet() && p.N() >= 2
      modifies this, cs, store, network, network.clock
      ensures Continued([]) && (cs == old(cs) || fresh(cs))
      ensures old(trace) + [Action.EnterRound(old(cs.round) + 1)] <= trace
      ensures !Leads(p, me, old(height), old(cs.round) + 1) ==> trace == old(trace) + [Action.EnterRound(old(cs.round) + 1)]
    {
      EnterRound(cs.round + 1);
    }

    method Start()
      requires Ready() && View() == base && TimerQuiet() && p.N() >= 2
      modifies this, cs, store, network, network.clock
      ensures Continued([]) && (cs == old(cs) || fresh(cs))
      ensures old(trace) + [Action.EnterRound(0)] <= trace
      ensures !Leads(p, me, old(height), 0) ==> trace == old(trace) + [Action.EnterRound(0)]
    {
      EnterRound(0);
    }

    // ---- clients ----

    method SubmitTx(tx: Transaction)
      requires Ready()
      modifies this`mempool, this`trace
      ensures Ready() && trace == old(trace) + [AddTransaction(tx)] && mempool == old(mempool) + [tx]
    {
      mempool := mempool + [tx];
      trace := trace + [AddTransaction(tx)];
      StaysValid(AddTransaction(tx));
    }

    method ResetMempool()
      requires Ready()
      modifies this`mempool, this`trace
      ensures Ready() && trace == old(trace) + [ClearMempool] && mempool == []
    {
      mempool := [];
      trace := trace + [ClearMempool];
      StaysValid(ClearMempool);
    }

    // ---- header before body ----

    method OnProposal(header: BlockHeader, txHashes: seq<Hash>, round: int)
      requires Ready() && TimerArmed() && p.N() >= 2
      modifies this, cs, store, network, network.clock
      ensures Continued([]) && (cs == old(cs) || fresh(cs))
      ensures Follows(p, me, old(height), old(trace), FirstSteps(p, me, old(View()), Proposal(header, txHashes, round)), trace)
      ensures var pool := Pool(p.crypto, old(mempool));
        if && header.height == old(height) && header.parentHash == ParentHash(p, old(ledger))
           && header.proposer == p.ProposerFor(old(height), round)
           && header.signature.Some? && p.crypto.check(header.proposer, HeaderDomain(header.Payload()), header.signature.value)
        then
          if forall h :: h in txHashes ==> h in pool
          then round !in old(cs.proposals) ==> old(trace) + [StoreBlock(round, Block(header, Lookup(txHashes, pool)))] <= trace
          else
            && View() == old(View()).(cs := old(cs.View()).(pending := old(cs.pendingHeaders)[round := (header, txHashes)]))
            && network.broadcasts == old(network.broadcasts)
            && network.directs == old(network.directs) + [(me, header.proposer, BodyRequest(round, Missing(txHashes, pool), me))]
        else trace == old(trace) && View() == old(View()) && network.View() == old(network.View())
    {
      ProposalSteps(p, me, View(), header, txHashes, round);
      hide Reached, Onward, HasQuorum, OnBlock, Network.Valid, OnlyBy, Armed, Params.WellFormed;
      hide FirstSteps, Pool, Missing, HasVoted, AcceptHeader;
      OnlyByRefl(me, equivocates, network.View());
      OnwardRefl(me, View(), View());
      if AcceptHeader(p, View(), header, round) {
        var pool := Pool(p.crypto, mempool);
        var missing := Missing(txHashes, pool);
        if missing != [] {
          ParkAndAsk(header, txHashes, missing, round);
        } else {
          HandleProposalLocal(Block(header, Lookup(txHashes, pool)), round);
        }
      }
    }

    /** The header waits, and its proposer is asked for the bodies. */
    method ParkAndAsk(header: BlockHeader, txHashes: seq<Hash>, missing: seq<Hash>, round: int)
      requires Ready() && TimerArmed() && AcceptHeader(p, View(), header, round)
      modifies this`trace, cs`pendingHeaders, network, network.clock
      ensures Continued([]) && trace == old(trace) + [ParkHeader(round, header, txHashes)]
      ensures View() == old(View()).(cs := old(cs.View()).(pending := old(cs.pendingHeaders)[round := (header, txHashes)]))
      ensures network.broadcasts == old(network.broadcasts)
      ensures network.directs == old(network.directs) + [(me, header.proposer, BodyRequest(round, missing, me))]
    {
      hide Reached, Onward, HasQuorum, Network.Valid, OnlyBy, Armed, Params.WellFormed, AcceptHeader;
      Park(header, txHashes, round);
      SendOne(header.proposer, BodyRequest(round, missing, me));
      OnwardRefl(me, old(View()), View());
    }

    method Park(header: BlockHeader, txHashes: seq<Hash>, round: int)
      requires Ready() && AcceptHeader(p, View(), header, round)
      modifies this`trace, cs`pendingHeaders
      ensures Ready() && trace == old(trace) + [ParkHeader(round, header, txHashes)]
      ensures cs.pendingHeaders == old(cs.pendingHeaders)[round := (header, txHashes)]
    {
      cs.pendingHeaders := cs.pendingHeaders[round := (header, txHashes)];
      trace := trace + [ParkHeader(round, header, txHashes)];
      StaysValid(ParkHeader(round, header, txHashes));
    }

    /** Serves the bodies it holds, of those asked for. */
    method OnBodyRequest(round: int, txHashes: seq<Hash>, requester: Id)
      requires Ready() && TimerArmed()
      modifies network, network.clock
      ensures Continued([]) && network.broadcasts == old(network.broadcasts)
      ensures network.directs == old(network.directs) +
                [(me, requester, BodyResponse(round, Bodies(txHashes, Pool(p.crypto, mempool))))]
    {
      OnwardRefl(me, View(), View());
      SendOne(requester, BodyResponse(round, Bodies(txHashes, Pool(p.crypto, mempool))));
    }

    method AbsorbBodies(bodies: seq<Transaction>)
      requires Ready()
      modifies this`mempool, this`trace
      ensures Ready() && mempool == Absorb(p.crypto, old(mempool), bodies)
      ensures trace == old(trace) + Additions(p.crypto, old(mempool), bodies)
    {
      hide Reached, Network.Valid, Params.WellFormed, ConsensusEngine.Valid;
      var known := KnownHashes(p.crypto, mempool);
      for i := 0 to |bodies|
        invariant Ready() && mempool == Absorb(p.crypto, old(mempool), bodies[..i])
        invariant known == KnownHashes(p.crypto, mempool)
        invariant trace == old(trace) + Additions(p.crypto, old(mempool), bodies[..i])
      {
        var tx := bodies[i];
        assert bodies[..i + 1][..i] == bodies[..i];
        if p.crypto.TxVerifies(tx) && p.crypto.TxHash(tx) !in known {
          SubmitTx(tx);
          known := known + {p.crypto.TxHash(tx)};
        }
      }
      assert bodies[..|bodies|] == bodies;
    }

    /** The parked header of a round is taken out, whether or not its block can now be completed. */
    method TakeParked(round: int) returns (parked: Option<(BlockHeader, seq<Hash>)>)
      requires Ready()
      modifies this`trace, cs`pendingHeaders
      ensures Ready()
      ensures round !in old(cs.pendingHeaders) ==> parked == None && trace == old(trace) && cs.pendingHeaders == old(cs.pendingHeaders)
      ensures round in old(cs.pendingHeaders) ==>
        && parked == Some(old(cs.pendingHeaders)[round]) && trace == old(trace) + [UnparkHeader(round)]
        && cs.pendingHeaders == old(cs.pendingHeaders) - {round}
        && (Rulebound() ==> AcceptHeader(p, View(), parked.value.0, round))
    {
      hide Network.Valid, HasQuorum, Params.WellFormed;
      if round in cs.pendingHeaders {
        if Rulebound() { ReachedLive(p, me, base, trace, View(), SaidBy(network.broadcasts, me), heard); }
        parked := Some(cs.pendingHeaders[round]);
        cs.pendingHeaders := cs.pendingHeaders - {round};
        trace := trace + [UnparkHeader(round)];
        StaysValid(UnparkHeader(round));
      } else {
        parked := None;
      }
    }

    /** Completes the parked header of a round when every body is there. */
    method Reassemble(round: int) returns (block: Option<Block>)
      requires Ready()
      modifies this`trace, cs`pendingHeaders
      ensures Ready() && block.Some? == Completes(p, old(View()), round)
      ensures var pool := Pool(p.crypto, mempool);
        match block
        case Some(b) =>
          && round in old(cs.pendingHeaders) && (forall h :: h in old(cs.pendingHeaders)[round].1 ==> h in pool)
          && b == Block(old(cs.pendingHeaders)[round].0, Lookup(old(cs.pendingHeaders)[round].1, pool))
        case None => round in old(cs.pendingHeaders) ==> exists h :: h in old(cs.pendingHeaders)[round].1 && h !in pool
      ensures View() == old(View()).(cs := old(cs.View()).(pending := old(cs.pendingHeaders) - {round}))
      ensures block.None? ==> trace == old(trace) + OnParked(p, me, old(View()), round)
      ensures block.Some? ==>
        && (Rulebound() ==> AcceptHeader(p, View(), block.value.header, round)) && trace == old(trace) + [UnparkHeader(round)]
        && OnParked(p, me, old(View()), round) == [UnparkHeader(round)] + OnBlock(p, me, View(), block.value, round)
    {
      ghost var s := View();
      var parked := TakeParked(round);
      block := None;
      if parked.Some? {
        var (header, hashes) := parked.value;
        var pool := Pool(p.crypto, mempool);
        var missing := Missing(hashes, pool);
        MissingIff(hashes, pool);
        assert missing != [] ==> missing[0] in missing;
        if missing == [] {
          block := Some(Block(header, Lookup(hashes, pool)));
          ParkedSteps(p, me, s, View(), round);
        }
      }
    }

    /** Acts on the block of a parked header, once it is complete. */
    method RetryParked(round: int)
      requires Ready() && TimerArmed() && p.N() >= 2
      modifies this, cs, store, network, network.clock
      ensures Continued([]) && (cs == old(cs) || fresh(cs))
      ensures Follows(p, me, old(height), old(trace), OnParked(p, me, old(View()), round), trace)
      ensures var pool := Pool(p.crypto, old(mempool));
        if round in old(cs.pendingHeaders) && forall h :: h in old(cs.pendingHeaders)[round].1 ==> h in pool
        then round !in old(cs.proposals) ==>
          var (header, hashes) := old(cs.pendingHeaders)[round];
          old(trace) + [UnparkHeader(round)] + [StoreBlock(round, Block(header, Lookup(hashes, pool)))] <= trace
        else View() == old(View()).(cs := old(cs.View()).(pending := old(cs.pendingHeaders) - {round}))
    {
      hide Reached, Onward, OnBlock, OnParked, Completes, AcceptHeader, Network.Valid, OnlyBy, Armed, Params.WellFormed;
      OnlyByRefl(me, equivocates, network.View());
      var block := Reassemble(round);
      ghost var s := View();
      OnwardRefl(me, old(View()), s);
      if block.Some? {
        ghost var steps := OnBlock(p, me, View(), block.value, round);
        HandleProposalLocal(block.value, round);
        hide HasVoted, PrevoteFor;
        FollowsFrom(p, me, old(height), old(trace), [UnparkHeader(round)], steps, trace);
        OnwardTrans(me, true, old(View()), s, View());
      }
    }

    method OnBodyResponse(round: int, bodies: seq<Transaction>)
      requires Ready() && TimerArmed() && p.N() >= 2
      modifies this, cs, store, network, network.clock
      ensures Continued([]) && (cs == old(cs) || fresh(cs))
      ensures Follows(p, me, old(height), old(trace), FirstSteps(p, me, old(View()), BodyResponse(round, bodies)), trace)
      ensures var after := Absorb(p.crypto, old(mempool), bodies); var pool := Pool(p.crypto, after);
        if round in old(cs.pendingHeaders) && forall h :: h in old(cs.pendingHeaders)[round].1 ==> h in pool
        then round !in old(cs.proposals) ==>
          var (header, hashes) := old(cs.pendingHeaders)[round];
          old(trace) + Additions(p.crypto, old(mempool), bodies) + [UnparkHeader(round)] +
            [StoreBlock(round, Block(header, Lookup(hashes, pool)))] <= trace
        else View() == old(View()).(mempool := after, cs := old(cs.View()).(pending := old(cs.pendingHeaders) - {round}))
    {
      hide Reached, Onward, OnParked, Completes, Network.Valid, OnlyBy, Armed, Params.WellFormed;
      AbsorbBodies(bodies);
      ghost var s := View();
      OnwardRefl(me, old(View()), s);
      RetryParked(round);
      FollowsFrom(p, me, old(height), old(trace), Additions(p.crypto, old(mempool), bodies), OnParked(p, me, s, round), trace);
      OnwardTrans(me, true, old(View()), s, View());
    }

    // ---- dispatch ----

    /** Hands a delivered message to its handler. */
    method Receive(m: Message)
      requires Ready() && TimerArmed() && p.N() >= 2
      modifies this, cs, store, network, network.clock
      ensures Continued(TakenFrom(p, me, old(View()), m)) && (cs == old(cs) || fresh(cs))
      ensures Follows(p, me, old(height), old(trace), FirstSteps(p, me, old(View()), m), trace)
      ensures m.BodyRequest? ==>
        var answer := BodyResponse(m.round, Bodies(m.txHashes, Pool(p.crypto, old(mempool))));
        network.directs == old(network.directs) + [(me, m.requester, answer)]
      ensures m.VoteMessage? && TakenFrom(p, me, old(View()), m) != [] ==>
        var taken := TakenFrom(p, me, old(View()), m);
        Reacts(p, me, Apply(p, me, old(View()), taken[0]), View(), m.vote.round, m.phase, old(trace) + taken, trace)
    {
      hide Reached, Network.Valid, OnlyBy, Onward, Params.WellFormed, Armed, AcceptHeader, OnBlock, Reacts, Apply, Enabled, Known, Missing;
      match m
      case Proposal(header, txHashes, round) => OnProposal(header, txHashes, round);
      case VoteMessage(phase, vote, signature) =>
        TakenWhen(p, me, View(), phase, vote, signature);
        OnVote(phase, vote, signature);
      case BodyRequest(round, txHashes, requester) => OnBodyRequest(round, txHashes, requester);
      case BodyResponse(round, bodies) => OnBodyResponse(round, bodies);
    }
  }
}
