/** One validator as a value, and the atomic steps its handlers are made of.
    Safety is proved about these steps; the handlers of the engine are shown to be
    sequences of them. */
module Protocol {
  import opened Messages
  import opened Quorums
  import opened Execution

  datatype Params = Params(crypto: Crypto, validators: seq<Id>) {
    function N(): nat { |validators| }

    function F(): nat requires N() > 0 { FaultBound(N()) }

    function Quorum(): nat requires N() > 0 { QuorumSize(N()) }

    function ValidatorSet(): set<Id> { set v | v in validators }

    /** Some validators, all distinct. */
    ghost predicate WellFormed() {
      N() > 0 && forall i, j :: 0 <= i < j < N() ==> validators[i] != validators[j]
    }

    /** Two quorums never fit side by side, so a bucket has at most one. */
    predicate Decisive() requires N() > 0 { 2 * Quorum() > N() }

    function ProposerFor(height: int, round: int): (v: Id)
      requires N() > 0
      ensures v in validators
    {
      validators[(height + round) % N()]
    }
  }

  datatype Step = ProposeStep | PrevoteStep | PrecommitStep | CommitStep

  datatype Slot = Slot(round: int, phase: Phase)

  /** Validator to vote: at most one vote of each validator. */
  type Bucket = map<Id, Vote>

  /** What a validator knows within one height. */
  datatype HeightState = HeightState(
    round: int, step: Step,
    locked: Option<Block>, lockedRound: int,
    valid: Option<Block>, validRound: int,
    proposals: map<int, Block>,
    votes: map<Slot, Bucket>,
    pending: map<int, (BlockHeader, seq<Hash>)>,
    decided: bool)
  {
    function BucketAt(round: int, phase: Phase): Bucket {
      if Slot(round, phase) in votes then votes[Slot(round, phase)] else map[]
    }

    function Voters(round: int, phase: Phase, hash: Hash): set<Id> {
      VotersIn(BucketAt(round, phase), hash)
    }
  }

  function VotersIn(bucket: Bucket, hash: Hash): set<Id> {
    set v | v in bucket && bucket[v].blockHash == hash
  }

  const FreshHeight := HeightState(0, ProposeStep, None, -1, None, -1, map[], map[], map[], false)

  datatype Node = Node(height: nat, ledger: seq<Block>, mempool: seq<Transaction>, store: StateValue, cs: HeightState)

  const InitialNode := Node(0, [], [], EmptyState, FreshHeight)

  function ParentHash(p: Params, ledger: seq<Block>): Hash {
    if ledger == [] then GENESIS else p.crypto.BlockHash(ledger[|ledger| - 1])
  }

  function LogicalTimestamp(height: nat, round: int): int { GENESIS_TIME + height * 1000 + round }

  /** As long as a height takes fewer than a thousand rounds, timestamps tell in what order blocks were first proposed. */
  lemma TimestampsInOrder(height: nat, round: nat, height': nat, round': nat)
    requires round < 1000 && round' < 1000
    ensures LogicalTimestamp(height, round) < LogicalTimestamp(height', round') <==>
              height < height' || (height == height' && round < round')
    ensures LogicalTimestamp(0, 0) == GENESIS_TIME && LogicalTimestamp(height, round + 1) == LogicalTimestamp(height, round) + 1
  {
  }

  /** The checks on a header that need no body. */
  predicate AcceptHeader(p: Params, s: Node, header: BlockHeader, round: int)
    requires p.N() > 0
  {
    && header.height == s.height
    && header.parentHash == ParentHash(p, s.ledger)
    && header.proposer == p.ProposerFor(s.height, round)
    && p.crypto.HeaderVerifies(header)
  }

  predicate ValidateBlock(p: Params, s: Node, block: Block, round: int)
    requires p.N() > 0
  {
    && AcceptHeader(p, s, block.header, round)
    && block.header.stateRoot == StateRoot(p.crypto, ApplyAll(p.crypto, s.store, block.transactions))
    && block.header.txRoot == p.crypto.TxRoot(block.transactions)
    && forall tx :: tx in block.transactions ==> p.crypto.TxVerifies(tx)
  }

  function BuildHeader(p: Params, me: Id, s: Node, txs: seq<Transaction>, timestamp: int): BlockHeader {
    p.crypto.SignedHeader(
      BlockHeader(s.height, ParentHash(p, s.ledger), me,
                  StateRoot(p.crypto, ApplyAll(p.crypto, s.store, txs)), p.crypto.TxRoot(txs), timestamp, None),
      me)
  }

  /** A new block over the whole mempool, unless an earlier prevote quorum left a block to propose again. */
  function ProposedBlock(p: Params, me: Id, s: Node): Block {
    if s.cs.valid.Some? then s.cs.valid.value
    else Block(BuildHeader(p, me, s, s.mempool, LogicalTimestamp(s.height, s.cs.round)), s.mempool)
  }

  /** The hash a validator prevotes for on seeing a block. */
  function PrevoteFor(p: Params, s: Node, block: Block): Hash
    requires p.N() > 0
  {
    var hash := p.crypto.BlockHash(block);
    if ValidateBlock(p, s, block, s.cs.round) &&
       (s.cs.locked.Some? ==> hash == p.crypto.BlockHash(s.cs.locked.value))
    then hash else NIL
  }

  // ---- atomic steps ----

  datatype Action =
    | EnterRound(round: int)
    | ProposeBlock
    | StoreBlock(round: int, block: Block)
    | ParkHeader(round: int, header: BlockHeader, txHashes: seq<Hash>)
    | UnparkHeader(round: int)
    | AddTransaction(tx: Transaction)
    | ClearMempool
    | ReceiveVote(phase: Phase, vote: Vote, signature: Option<Signature>)
    | CastPrevote(block: Block)
    | LockOn(round: int)
    | CastPrecommit(hash: Hash)
    | Decide(round: int)

  predicate HasQuorum(p: Params, cs: HeightState, round: int, phase: Phase, hash: Hash)
    requires p.N() > 0
  {
    |cs.Voters(round, phase, hash)| >= p.Quorum()
  }

  predicate Enabled(p: Params, me: Id, s: Node, a: Action)
    requires p.N() > 0
  {
    var cs := s.cs;
    match a
    case EnterRound(r) => !cs.decided && (r == cs.round + 1 || (r == 0 && cs == FreshHeight))
    case ProposeBlock => p.ProposerFor(s.height, cs.round) == me
    case StoreBlock(r, block) => AcceptHeader(p, s, block.header, r)
    case ParkHeader(r, header, _) => AcceptHeader(p, s, header, r)
    case UnparkHeader(_) => true
    case AddTransaction(_) => true
    case ClearMempool => true
    case ReceiveVote(phase, v, signature) =>
      && v.validator in p.validators && v.height == s.height
      && p.crypto.Verifies(v.validator, VoteDomain(v), signature)
      && v.validator !in cs.BucketAt(v.round, phase)
    case CastPrevote(_) => cs.step == ProposeStep && me !in cs.BucketAt(cs.round, Prevote)
    case LockOn(r) =>
      && r in cs.proposals && p.crypto.BlockHash(cs.proposals[r]) != NIL
      && HasQuorum(p, cs, r, Prevote, p.crypto.BlockHash(cs.proposals[r]))
    case CastPrecommit(hash) =>
      && cs.step == PrevoteStep && me !in cs.BucketAt(cs.round, Precommit)
      && HasQuorum(p, cs, cs.round, Prevote, hash)
      && (hash != NIL ==> cs.lockedRound >= cs.round && cs.locked.Some?)
    case Decide(r) =>
      && !cs.decided && cs.locked.Some? && p.crypto.BlockHash(cs.locked.value) != NIL
      && HasQuorum(p, cs, r, Precommit, p.crypto.BlockHash(cs.locked.value))
  }

  function PutVote(cs: HeightState, slot: Slot, v: Vote): HeightState {
    cs.(votes := cs.votes[slot := cs.BucketAt(slot.round, slot.phase)[v.validator := v]])
  }

  function CastVote(me: Id, s: Node, phase: Phase, hash: Hash): Vote {
    Vote(me, s.height, s.cs.round, phase, hash)
  }

  /** Locks only move forward; the valid block and round are kept the same way. */
  function Lock(cs: HeightState, round: int, block: Block): HeightState {
    var locked := if round >= cs.lockedRound then cs.(locked := Some(block), lockedRound := round) else cs;
    if round >= cs.validRound then locked.(valid := Some(block), validRound := round) else locked
  }

  function Remaining(mempool: seq<Transaction>, block: Block): seq<Transaction> {
    if mempool == [] then []
    else (if mempool[0] in block.transactions then [] else [mempool[0]]) + Remaining(mempool[1..], block)
  }

  /** What is left of the pool, given by where in the pool it stood. */
  ghost predicate PickedBy(kept: seq<nat>, mempool: seq<Transaction>, left: seq<Transaction>) {
    && |left| == |kept|
    && (forall i :: 0 <= i < |kept| ==> kept[i] < |mempool| && left[i] == mempool[kept[i]])
    && (forall i, j :: 0 <= i < j < |kept| ==> kept[i] < kept[j])
  }

  ghost predicate KeptIff(kept: seq<nat>, mempool: seq<Transaction>, block: Block) {
    forall k :: 0 <= k < |mempool| ==> (k in kept <==> mempool[k] !in block.transactions)
  }

  /** Finalizing a block takes its transactions, every copy of them, out of the pool and nothing else,
      and what is left stays in order. */
  lemma {:induction false} RemainingIs(mempool: seq<Transaction>, block: Block) returns (kept: seq<nat>)
    ensures PickedBy(kept, mempool, Remaining(mempool, block)) && KeptIff(kept, mempool, block)
  {
    if mempool == [] {
      kept := [];
    } else {
      var k := |mempool| - 1;
      kept := RemainingIs(mempool[..k], block);
      RemainingLast(mempool, block);
      hide Remaining;
      if mempool[k] !in block.transactions { kept := kept + [k]; }
    }
  }

  /** What a pool is left with once a block is finalized: its transactions out, every copy of them, all others in, in order. */
  ghost predicate LeftBy(block: Block, mempool: seq<Transaction>, left: seq<Transaction>) {
    exists kept :: PickedBy(kept, mempool, left) && KeptIff(kept, mempool, block)
  }

  lemma RemainingIsLeft(mempool: seq<Transaction>, block: Block)
    ensures LeftBy(block, mempool, Remaining(mempool, block))
  {
    var kept := RemainingIs(mempool, block);
  }

  /** Finalizing, part by part. */
  lemma FinalizeLeaves(p: Params, s: Node, block: Block)
    ensures var s' := Finalize(p, s, block);
      && s'.height == s.height + 1 && s'.ledger == s.ledger + [block] && s'.cs == FreshHeight
      && s'.store == ApplyAll(p.crypto, s.store, block.transactions) && LeftBy(block, s.mempool, s'.mempool)
  {
    RemainingIsLeft(s.mempool, block);
  }

  lemma {:induction false} RemainingLast(mempool: seq<Transaction>, block: Block)
    requires mempool != []
    ensures Remaining(mempool, block) == Remaining(mempool[..|mempool| - 1], block) +
              if mempool[|mempool| - 1] in block.transactions then [] else [mempool[|mempool| - 1]]
  {
    if |mempool| > 1 {
      RemainingLast(mempool[1..], block);
      assert mempool[1..][..|mempool| - 2] == mempool[..|mempool| - 1][1..];
    }
  }

  function Finalize(p: Params, s: Node, block: Block): Node {
    Node(s.height + 1, s.ledger + [block], Remaining(s.mempool, block),
         ApplyAll(p.crypto, s.store, block.transactions), FreshHeight)
  }

  function Apply(p: Params, me: Id, s: Node, a: Action): Node
    requires p.N() > 0 && Enabled(p, me, s, a)
  {
    var cs := s.cs;
    match a
    case EnterRound(r) => s.(cs := cs.(round := r, step := ProposeStep))
    case ProposeBlock => s.(cs := cs.(proposals := cs.proposals[cs.round := ProposedBlock(p, me, s)]))
    case StoreBlock(r, block) =>
      if r in cs.proposals then s else s.(cs := cs.(proposals := cs.proposals[r := block]))
    case ParkHeader(r, header, hashes) => s.(cs := cs.(pending := cs.pending[r := (header, hashes)]))
    case UnparkHeader(r) => s.(cs := cs.(pending := cs.pending - {r}))
    case AddTransaction(tx) => s.(mempool := s.mempool + [tx])
    case ClearMempool => s.(mempool := [])
    case ReceiveVote(phase, v, _) => s.(cs := PutVote(cs, Slot(v.round, phase), v))
    case CastPrevote(block) =>
      s.(cs := PutVote(cs, Slot(cs.round, Prevote), CastVote(me, s, Prevote, PrevoteFor(p, s, block)))
               .(step := PrevoteStep))
    case LockOn(r) => s.(cs := Lock(cs, r, cs.proposals[r]))
    case CastPrecommit(hash) =>
      s.(cs := PutVote(cs, Slot(cs.round, Precommit), CastVote(me, s, Precommit, hash)).(step := PrecommitStep))
    case Decide(_) => Finalize(p, s, cs.locked.value)
  }

  /** The votes a step signs and sends. */
  function Emitted(p: Params, me: Id, s: Node, a: Action): seq<Vote>
    requires p.N() > 0
  {
    match a
    case CastPrevote(block) => [CastVote(me, s, Prevote, PrevoteFor(p, s, block))]
    case CastPrecommit(hash) => [CastVote(me, s, Precommit, hash)]
    case _ => []
  }

  // ---- what every step keeps, seen from one validator ----

  ghost predicate Links(p: Params, s: Node, header: BlockHeader) {
    header.height == s.height && header.parentHash == ParentHash(p, s.ledger)
  }

  /** A vote is kept under its validator and its round, at the current height. */
  ghost predicate InPlace(p: Params, height: int, slot: Slot, v: Id, vote: Vote) {
    v in p.validators && vote.validator == v && vote.height == height && vote.round == slot.round
  }

  ghost predicate BucketsOk(p: Params, s: Node) {
    forall slot, v :: slot in s.cs.votes && v in s.cs.votes[slot] ==> InPlace(p, s.height, slot, v, s.cs.votes[slot][v])
  }

  ghost predicate LockOk(p: Params, s: Node)
    requires p.N() > 0
  {
    var cs := s.cs;
    && cs.valid == cs.locked && cs.validRound == cs.lockedRound
    && (cs.locked.None? ==> cs.lockedRound == -1)
    && (cs.locked.Some? ==>
          && Links(p, s, cs.locked.value.header)
          && p.crypto.BlockHash(cs.locked.value) != NIL
          && HasQuorum(p, cs, cs.lockedRound, Prevote, p.crypto.BlockHash(cs.locked.value)))
  }

  ghost predicate ProposalsOk(p: Params, s: Node)
    requires p.N() > 0
  {
    && (forall r :: r in s.cs.proposals ==> Links(p, s, s.cs.proposals[r].header))
    && (forall r :: r in s.cs.pending ==> AcceptHeader(p, s, s.cs.pending[r].0, r))
  }

  function LedgerTxs(ledger: seq<Block>): seq<Transaction> {
    if ledger == [] then [] else LedgerTxs(ledger[..|ledger| - 1]) + ledger[|ledger| - 1].transactions
  }

  /** Each block carries its height and the hash of the block before it. */
  ghost predicate Chained(p: Params, ledger: seq<Block>) {
    forall k :: 0 <= k < |ledger| ==>
      ledger[k].header.height == k && ledger[k].header.parentHash == ParentHash(p, ledger[..k])
  }

  /** What holds of the present height, whatever ledger and store the validator began with. */
  ghost predicate LiveOk(p: Params, s: Node)
    requires p.N() > 0
  {
    |s.ledger| == s.height && BucketsOk(p, s) && LockOk(p, s) && ProposalsOk(p, s) && s.cs.round >= 0 && !s.cs.decided
  }

  /** The ledger is a chain from genesis and the store is the ledger replayed from nothing. */
  ghost predicate ChainOk(p: Params, s: Node) {
    Chained(p, s.ledger) && s.store == ApplyAll(p.crypto, EmptyState, LedgerTxs(s.ledger))
  }

  ghost predicate NodeOk(p: Params, s: Node)
    requires p.N() > 0
  {
    LiveOk(p, s) && ChainOk(p, s)
  }

  lemma VotersGrow(cs: HeightState, slot: Slot, v: Vote, round: int, phase: Phase, hash: Hash)
    requires v.validator !in cs.BucketAt(slot.round, slot.phase)
    ensures cs.Voters(round, phase, hash) <= PutVote(cs, slot, v).Voters(round, phase, hash)
    ensures |cs.Voters(round, phase, hash)| <= |PutVote(cs, slot, v).Voters(round, phase, hash)|
  {
    SubsetSize(cs.Voters(round, phase, hash), PutVote(cs, slot, v).Voters(round, phase, hash));
  }

  lemma PutVoteKeepsBuckets(p: Params, s: Node, slot: Slot, v: Vote)
    requires BucketsOk(p, s)
    requires v.validator in p.validators && v.height == s.height && v.round == slot.round
    ensures BucketsOk(p, s.(cs := PutVote(s.cs, slot, v)))
  {
    var votes': map<Slot, Bucket> := PutVote(s.cs, slot, v).votes;
    forall slot': Slot, id: Id | slot' in votes' && id in votes'[slot']
      ensures InPlace(p, s.height, slot', id, votes'[slot'][id])
    {
      if slot' != slot || id != v.validator {
        assert slot' in s.cs.votes && id in s.cs.votes[slot'];
      }
    }
  }

  lemma PutVoteKeepsLive(p: Params, s: Node, slot: Slot, v: Vote)
    requires p.N() > 0 && LiveOk(p, s)
    requires v.validator in p.validators && v.height == s.height && v.round == slot.round
    requires v.validator !in s.cs.BucketAt(slot.round, slot.phase)
    ensures LiveOk(p, s.(cs := PutVote(s.cs, slot, v)))
  {
    PutVoteKeepsBuckets(p, s, slot, v);
    if s.cs.locked.Some? {
      VotersGrow(s.cs, slot, v, s.cs.lockedRound, Prevote, p.crypto.BlockHash(s.cs.locked.value));
    }
  }

  lemma LockKeepsLive(p: Params, s: Node, r: int)
    requires p.N() > 0 && LiveOk(p, s) && r in s.cs.proposals
    requires p.crypto.BlockHash(s.cs.proposals[r]) != NIL
    requires HasQuorum(p, s.cs, r, Prevote, p.crypto.BlockHash(s.cs.proposals[r]))
    ensures LiveOk(p, s.(cs := Lock(s.cs, r, s.cs.proposals[r])))
  {
    var cs' := Lock(s.cs, r, s.cs.proposals[r]);
    assert cs'.votes == s.cs.votes;
    assert forall round, phase, hash :: cs'.Voters(round, phase, hash) == s.cs.Voters(round, phase, hash);
  }

  lemma FinalizeKeepsChain(p: Params, s: Node)
    requires p.N() > 0 && NodeOk(p, s) && s.cs.locked.Some?
    ensures ChainOk(p, Finalize(p, s, s.cs.locked.value))
  {
    var block := s.cs.locked.value;
    var s' := Finalize(p, s, block);
    assert s'.ledger[..|s.ledger|] == s.ledger;
    ApplyAllConcat(p.crypto, EmptyState, LedgerTxs(s.ledger), block.transactions);
    forall k | 0 <= k < |s'.ledger|
      ensures s'.ledger[k].header.height == k && s'.ledger[k].header.parentHash == ParentHash(p, s'.ledger[..k])
    {
      assert k < |s.ledger| ==> s'.ledger[..k] == s.ledger[..k];
    }
  }

  /** Steps that leave the votes and the lock alone. */
  lemma BookkeepingKeepsLive(p: Params, me: Id, s: Node, a: Action)
    requires p.N() > 0 && LiveOk(p, s) && Enabled(p, me, s, a)
    requires !a.ReceiveVote? && !a.CastPrevote? && !a.LockOn? && !a.CastPrecommit? && !a.Decide?
    ensures LiveOk(p, Apply(p, me, s, a))
  {
    var s' := Apply(p, me, s, a);
    assert s'.cs.votes == s.cs.votes;
    if s.cs.locked.Some? {
      var hash := p.crypto.BlockHash(s.cs.locked.value);
      assert s'.cs.Voters(s.cs.lockedRound, Prevote, hash) == s.cs.Voters(s.cs.lockedRound, Prevote, hash);
    }
  }

  lemma StepKeepsLive(p: Params, me: Id, s: Node, a: Action)
    requires p.N() > 0 && me in p.validators
    requires LiveOk(p, s) && Enabled(p, me, s, a)
    ensures LiveOk(p, Apply(p, me, s, a))
  {
    match a
    case ReceiveVote(phase, v, _) => PutVoteKeepsLive(p, s, Slot(v.round, phase), v);
    case CastPrevote(block) =>
      PutVoteKeepsLive(p, s, Slot(s.cs.round, Prevote), CastVote(me, s, Prevote, PrevoteFor(p, s, block)));
    case CastPrecommit(hash) =>
      PutVoteKeepsLive(p, s, Slot(s.cs.round, Precommit), CastVote(me, s, Precommit, hash));
    case LockOn(r) => LockKeepsLive(p, s, r);
    case Decide(_) =>
    case _ => BookkeepingKeepsLive(p, me, s, a);
  }

  lemma StepKeepsOk(p: Params, me: Id, s: Node, a: Action)
    requires p.N() > 0 && me in p.validators
    requires NodeOk(p, s) && Enabled(p, me, s, a)
    ensures NodeOk(p, Apply(p, me, s, a))
  {
    StepKeepsLive(p, me, s, a);
    if a.Decide? { FinalizeKeepsChain(p, s); }
  }
}
