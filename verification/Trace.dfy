/** Sequences of atomic steps of one validator: the record an engine leaves behind. */
module Trace {
  import opened Messages
  import opened Quorums
  import opened Execution
  import opened Protocol
  import Rotation

  /** What a step has its validator broadcast: votes as they are cast, and proposals. */
  function Announced(p: Params, me: Id, s: Node, a: Action): seq<Message>
    requires p.N() > 0
  {
    match a
    case ProposeBlock =>
      var block := ProposedBlock(p, me, s);
      [Proposal(block.header, p.crypto.TxHashes(block.transactions), s.cs.round)]
    case CastPrevote(block) => [Ballot(p, CastVote(me, s, Prevote, PrevoteFor(p, s, block)))]
    case CastPrecommit(hash) => [Ballot(p, CastVote(me, s, Precommit, hash))]
    case _ => []
  }

  function Ballot(p: Params, v: Vote): Message {
    VoteMessage(v.phase, v, Some(p.crypto.sign(v.validator, VoteDomain(v))))
  }

  /** A validator, everything it has broadcast so far, and every vote it has taken in. */
  datatype Moment = Moment(node: Node, said: seq<Message>, heard: seq<Action>)

  function Taken(a: Action): seq<Action> { if a.ReceiveVote? then [a] else [] }

  ghost predicate Goes(p: Params, me: Id, a: Moment, action: Action, b: Moment)
    requires p.N() > 0
  {
    && Enabled(p, me, a.node, action)
    && b == Moment(Apply(p, me, a.node, action), a.said + Announced(p, me, a.node, action), a.heard + Taken(action))
  }

  /** The moments before, between and after a sequence of steps, each allowed when it was taken. */
  ghost predicate IsHistory(p: Params, me: Id, base: Node, h: seq<Moment>, trace: seq<Action>)
    requires p.N() > 0
  {
    && |h| == |trace| + 1
    && h[0] == Moment(base, [], [])
    && forall k {:trigger Goes(p, me, h[k], trace[k], h[k + 1])} :: 0 <= k < |trace| ==> Goes(p, me, h[k], trace[k], h[k + 1])
  }

  /** These steps lead from where the validator began to this state, with these broadcasts and these votes
      taken in on the way. */
  ghost predicate Reached(p: Params, me: Id, base: Node, trace: seq<Action>, s: Node, said: seq<Message>, heard: seq<Action>)
    requires p.N() > 0
  {
    exists h :: IsHistory(p, me, base, h, trace) && h[|trace|] == Moment(s, said, heard)
  }

  /** Where an engine begins: some ledger, pool and store, and a fresh height above the ledger. */
  predicate IsBeginning(base: Node) { base.height == |base.ledger| && base.cs == FreshHeight }

  lemma ReachedAtFirst(p: Params, me: Id, base: Node)
    requires p.N() > 0
    ensures Reached(p, me, base, [], base, [], [])
  {
    assert IsHistory(p, me, base, [Moment(base, [], [])], []);
  }

  lemma Extend(p: Params, me: Id, base: Node, trace: seq<Action>, s: Node, said: seq<Message>, heard: seq<Action>, a: Action)
    requires p.N() > 0 && Reached(p, me, base, trace, s, said, heard) && Enabled(p, me, s, a)
    ensures Reached(p, me, base, trace + [a], Apply(p, me, s, a), said + Announced(p, me, s, a), heard + Taken(a))
  {
    var h :| IsHistory(p, me, base, h, trace) && h[|trace|] == Moment(s, said, heard);
    var next := Moment(Apply(p, me, s, a), said + Announced(p, me, s, a), heard + Taken(a));
    ExtendHistory(p, me, base, h, trace, a, next);
  }

  lemma ExtendHistory(p: Params, me: Id, base: Node, h: seq<Moment>, trace: seq<Action>, a: Action, next: Moment)
    requires p.N() > 0 && IsHistory(p, me, base, h, trace) && Goes(p, me, h[|trace|], a, next)
    ensures IsHistory(p, me, base, h + [next], trace + [a])
  {
    var h', trace' := h + [next], trace + [a];
    forall k | 0 <= k < |trace'| ensures Goes(p, me, h'[k], trace'[k], h'[k + 1]) {
      if k < |trace| { assert Goes(p, me, h[k], trace[k], h[k + 1]); }
    }
  }

  lemma GoesLive(p: Params, me: Id, a: Moment, action: Action, b: Moment)
    requires p.N() > 0 && me in p.validators && Goes(p, me, a, action, b) && LiveOk(p, a.node)
    ensures LiveOk(p, b.node)
  {
    StepKeepsLive(p, me, a.node, action);
  }

  /** At every moment the present height is in order, whatever ledger and store the validator began with. */
  lemma {:induction false} HistoryLive(p: Params, me: Id, base: Node, h: seq<Moment>, trace: seq<Action>, k: nat)
    requires p.N() > 0 && me in p.validators && IsBeginning(base) && IsHistory(p, me, base, h, trace) && k < |h|
    ensures LiveOk(p, h[k].node)
  {
    hide LiveOk, Goes, IsBeginning;
    if k == 0 {
      BeginningIsLive(p, base);
    } else {
      HistoryLive(p, me, base, h, trace, k - 1);
      var j := k - 1;
      GoesLive(p, me, h[j], trace[j], h[j + 1]);
    }
  }

  lemma BeginningIsLive(p: Params, base: Node)
    requires p.N() > 0 && IsBeginning(base)
    ensures LiveOk(p, base)
  {
  }

  lemma BeginningIsOk(p: Params, base: Node)
    requires p.N() > 0 && IsBeginning(base) && ChainOk(p, base)
    ensures NodeOk(p, base)
  {
    BeginningIsLive(p, base);
  }

  lemma GoesOk(p: Params, me: Id, a: Moment, action: Action, b: Moment)
    requires p.N() > 0 && me in p.validators && Goes(p, me, a, action, b) && NodeOk(p, a.node)
    ensures NodeOk(p, b.node)
  {
    StepKeepsOk(p, me, a.node, action);
  }

  /** And when it began with a chain and its replayed store, it holds a chain and its replayed store at every moment. */
  lemma {:induction false} HistoryOk(p: Params, me: Id, base: Node, h: seq<Moment>, trace: seq<Action>, k: nat)
    requires p.N() > 0 && me in p.validators && IsBeginning(base) && ChainOk(p, base)
    requires IsHistory(p, me, base, h, trace) && k < |h|
    ensures NodeOk(p, h[k].node)
  {
    hide NodeOk, Goes, ChainOk, IsBeginning;
    if k == 0 {
      BeginningIsOk(p, base);
    } else {
      HistoryOk(p, me, base, h, trace, k - 1);
      var j := k - 1;
      GoesOk(p, me, h[j], trace[j], h[j + 1]);
    }
  }

  /** Steps determine states: two histories agree as far as their steps do. */
  lemma {:induction false} HistoriesAgree(p: Params, me: Id, base: Node, g: seq<Moment>, a: seq<Action>,
                                          h: seq<Moment>, b: seq<Action>, k: nat)
    requires p.N() > 0 && IsHistory(p, me, base, g, a) && IsHistory(p, me, base, h, b) && a <= b && k <= |a|
    ensures g[k] == h[k]
  {
    if k > 0 {
      HistoriesAgree(p, me, base, g, a, h, b, k - 1);
      var j := k - 1;
      assert Goes(p, me, g[j], a[j], g[j + 1]) && Goes(p, me, h[j], b[j], h[j + 1]);
    }
  }

  lemma ReachedLive(p: Params, me: Id, base: Node, trace: seq<Action>, s: Node, said: seq<Message>, heard: seq<Action>)
    requires p.N() > 0 && me in p.validators && IsBeginning(base) && Reached(p, me, base, trace, s, said, heard)
    ensures LiveOk(p, s)
  {
    var h :| IsHistory(p, me, base, h, trace) && h[|trace|] == Moment(s, said, heard);
    HistoryLive(p, me, base, h, trace, |trace|);
  }

  // ---- what is proposed ----

  /** A proposal made in state s: of the block the validator is locked on, header and all, or if it is locked on none of a
      block of its own over its whole pool in order, on top of its ledger. */
  ghost predicate ProposesFrom(p: Params, me: Id, s: Node, header: BlockHeader, txHashes: seq<Hash>, round: int)
    requires p.N() > 0
  {
    && round == s.cs.round && p.ProposerFor(s.height, round) == me
    && match s.cs.locked
       case Some(block) => header == block.header && txHashes == p.crypto.TxHashes(block.transactions)
       case None =>
         && header.proposer == me && header.height == s.height && txHashes == p.crypto.TxHashes(s.mempool)
         && header.parentHash == ParentHash(p, s.ledger) && header.txRoot == p.crypto.TxRoot(s.mempool)
         && header.stateRoot == StateRoot(p.crypto, ApplyAll(p.crypto, s.store, s.mempool))
         && header.timestamp == LogicalTimestamp(s.height, round)
         && (p.crypto.SignaturesCheck() ==> p.crypto.HeaderVerifies(header))
  }

  lemma AnnouncedProposes(p: Params, me: Id, s: Node, a: Action, m: Message)
    requires p.N() > 0 && LiveOk(p, s) && Enabled(p, me, s, a) && m in Announced(p, me, s, a) && m.Proposal?
    ensures a.ProposeBlock? && ProposesFrom(p, me, s, m.header, m.txHashes, m.round)
  {
    var header := m.header;
    assert header.Payload() == header.Payload().Payload();
  }

  /** Every proposal a validator has ever broadcast was made in some state of its history, by these rules. */
  lemma {:induction false} ProposalsAreMade(p: Params, me: Id, base: Node, h: seq<Moment>, trace: seq<Action>, k: nat, m: Message)
    returns (i: nat)
    requires p.N() > 0 && me in p.validators && IsBeginning(base) && IsHistory(p, me, base, h, trace) && k < |h|
    requires m in h[k].said && m.Proposal?
    ensures i < k && trace[i].ProposeBlock? && ProposesFrom(p, me, h[i].node, m.header, m.txHashes, m.round)
  {
    var j := k - 1;
    assert Goes(p, me, h[j], trace[j], h[j + 1]);
    hide ProposesFrom, Announced, Enabled, Apply, IsBeginning;
    if m in h[j].said {
      i := ProposalsAreMade(p, me, base, h, trace, j, m);
    } else {
      i := j;
      HistoryLive(p, me, base, h, trace, j);
      AnnouncedProposes(p, me, h[j].node, trace[j], m);
    }
  }

  /** And proposing is always heard: the step broadcasts exactly one proposal. */
  lemma ProposingAnnounces(p: Params, me: Id, a: Moment, b: Moment) returns (header: BlockHeader, txHashes: seq<Hash>)
    requires p.N() > 0 && Goes(p, me, a, ProposeBlock, b) && LiveOk(p, a.node)
    ensures b.said == a.said + [Proposal(header, txHashes, a.node.cs.round)]
    ensures ProposesFrom(p, me, a.node, header, txHashes, a.node.cs.round)
  {
    var m := Announced(p, me, a.node, ProposeBlock)[0];
    header, txHashes := m.header, m.txHashes;
    AnnouncedProposes(p, me, a.node, ProposeBlock, m);
  }

  // ---- what a quorum calls for ----

  /** The first steps a validator takes on a quorum for `hash` in a slot, before any further quorum it completes. */
  function Reaction(p: Params, me: Id, s: Node, round: int, phase: Phase, hash: Hash): seq<Action> {
    var cs := s.cs;
    var current := round == cs.round && cs.step == PrevoteStep && me !in cs.BucketAt(round, Precommit);
    match phase
    case Prevote =>
      if hash == NIL then (if current then [CastPrecommit(NIL)] else [])
      else if round !in cs.proposals || p.crypto.BlockHash(cs.proposals[round]) != hash then []
      else [LockOn(round)] + (if current then [CastPrecommit(hash)] else [])
    case Precommit =>
      if hash == NIL then (if round == cs.round then [EnterRound(round + 1)] else [])
      else if cs.locked.None? || p.crypto.BlockHash(cs.locked.value) != hash then []
      else [Decide(round), EnterRound(0)]
  }

  // ---- why the cascade ends ----

  /** Another validator's vote is held at this height. */
  ghost predicate HoldsForeign(me: Id, votes: map<Slot, Bucket>) {
    exists slot, v :: slot in votes && v in votes[slot] && v != me
  }

  ghost function Novelty(me: Id, votes: map<Slot, Bucket>): nat { if HoldsForeign(me, votes) then 1 else 0 }

  predicate Leads(p: Params, me: Id, height: int, round: int)
    requires p.N() > 0
  {
    p.ProposerFor(height, round) == me
  }

  /** How many rounds in a row, counted from this one, a validator may propose in before it must wait for others.
      Rounds of one height in a row have different proposers, and so do the first rounds of heights in a row. */
  function Turns(p: Params, me: Id, foreign: bool, height: int, round: int): nat
    requires p.N() > 0
  {
    if !Leads(p, me, height, round) then 0 else if !foreign && Leads(p, me, height + 1, 0) then 2 else 1
  }

  /** How many rounds the cascade may still enter from within a round. A height entered in the cascade itself holds
      no foreign vote, so the height after this one counts only when this one holds none either. */
  function Left(p: Params, me: Id, foreign: bool, height: int, round: int): nat
    requires p.N() > 0
  {
    var next := Turns(p, me, foreign, height, round + 1);
    var above := if foreign then 0 else Turns(p, me, false, height + 1, 0);
    1 + if next < above then above else next
  }

  /** What a quorum in some round leaves to do: with foreign votes about, a round other than the current one
      calls for no further round of this height. */
  function Work(p: Params, me: Id, foreign: bool, height: int, current: int, round: int): nat
    requires p.N() > 0
  {
    if foreign && round != current then 0 else Left(p, me, foreign, height, current)
  }

  function Rank(step: Step): nat {
    match step case ProposeStep => 2 case PrevoteStep => 1 case PrecommitStep => 0 case CommitStep => 0
  }

  /** With two validators or more, a round a validator leads leaves fewer to lead. */
  lemma LeadingCounts(p: Params, me: Id, foreign: bool, height: int, round: int)
    requires p.WellFormed() && p.N() >= 2 && Leads(p, me, height, round)
    ensures Left(p, me, foreign, height, round) <= Turns(p, me, foreign, height, round)
  {
    NotTwiceInARow(p, me, height, round);
    if Leads(p, me, height + 1, 0) { NotTwiceInARow(p, me, height + 1, 0); }
    assert p.ProposerFor(height + 2, 0) == p.ProposerFor(height + 1, 1);
  }

  lemma NotTwiceInARow(p: Params, me: Id, height: int, round: int)
    requires p.WellFormed() && p.N() >= 2 && Leads(p, me, height, round)
    ensures !Leads(p, me, height, round + 1)
  {
    Rotation.SameProposerIff(p, height, round + 1, round);
  }

  /** No vote is lost or exchanged for another. */
  ghost predicate VotesKept(votes: map<Slot, Bucket>, votes': map<Slot, Bucket>) {
    forall slot, v :: slot in votes && v in votes[slot] ==> slot in votes' && v in votes'[slot] && votes'[slot][v] == votes[slot][v]
  }

  /** The lock is not given up and does not move back. */
  predicate LockKept(cs: HeightState, cs': HeightState) { cs'.lockedRound >= cs.lockedRound && (cs.locked.Some? ==> cs'.locked.Some?) }

  /** A validator's height, round and step only go forward, its ledger only grows, and within a height it keeps its ledger,
      its votes and its lock. A height just entered holds no foreign vote; nor does a quiet stretch, one in which no vote
      is taken in, bring the first. */
  ghost predicate Onward(me: Id, quiet: bool, s: Node, s': Node) {
    && s.ledger <= s'.ledger
    && (|| (s'.height > s.height && !HoldsForeign(me, s'.cs.votes))
        || (&& s'.height == s.height && s'.ledger == s.ledger && VotesKept(s.cs.votes, s'.cs.votes) && LockKept(s.cs, s'.cs)
            && (s'.cs.round > s.cs.round || (s'.cs.round == s.cs.round && Rank(s'.cs.step) <= Rank(s.cs.step)))
            && (quiet && HoldsForeign(me, s'.cs.votes) ==> HoldsForeign(me, s.cs.votes))))
  }

  lemma OnwardTrans(me: Id, quiet: bool, a: Node, b: Node, c: Node)
    requires Onward(me, quiet, a, b) && Onward(me, true, b, c)
    ensures Onward(me, quiet, a, c)
  {
    hide HoldsForeign;
  }

  lemma OnwardRefl(me: Id, s: Node, s': Node)
    requires s'.height == s.height && s'.ledger == s.ledger && s'.cs.round == s.cs.round && s'.cs.step == s.cs.step
    requires s'.cs.votes == s.cs.votes && LockKept(s.cs, s'.cs)
    ensures Onward(me, true, s, s')
  {
  }

  lemma OnwardTaking(me: Id, s: Node, s': Node)
    requires s'.height == s.height && s'.ledger == s.ledger && s'.cs.round == s.cs.round && s'.cs.step == s.cs.step
    requires VotesKept(s.cs.votes, s'.cs.votes) && LockKept(s.cs, s'.cs)
    ensures Onward(me, false, s, s')
  {
  }

  lemma OnwardIf(me: Id, s: Node, s': Node)
    requires s'.height == s.height && s'.ledger == s.ledger && VotesKept(s.cs.votes, s'.cs.votes) && LockKept(s.cs, s'.cs)
    requires HoldsForeign(me, s'.cs.votes) == HoldsForeign(me, s.cs.votes)
    requires s'.cs.round > s.cs.round || (s'.cs.round == s.cs.round && Rank(s'.cs.step) <= Rank(s.cs.step))
    ensures Onward(me, true, s, s')
  {
  }

  lemma PutKeepsVotes(cs: HeightState, slot: Slot, v: Vote)
    requires v.validator !in cs.BucketAt(slot.round, slot.phase)
    ensures VotesKept(cs.votes, PutVote(cs, slot, v).votes)
  {
  }

  lemma OnwardKeeps(me: Id, quiet: bool, s: Node, s': Node)
    requires Onward(me, quiet, s, s')
    ensures s'.height >= s.height && s.ledger <= s'.ledger
    ensures s'.height == s.height ==> LockKept(s.cs, s'.cs) && s'.cs.round >= s.cs.round
  {
  }

  /** A vote still there after all that followed. */
  lemma VoteStays(me: Id, quiet: bool, s: Node, s': Node, round: int, phase: Phase, v: Id)
    requires Onward(me, quiet, s, s') && s'.height == s.height && v in s.cs.BucketAt(round, phase)
    ensures v in s'.cs.BucketAt(round, phase) && s'.cs.BucketAt(round, phase)[v] == s.cs.BucketAt(round, phase)[v]
  {
    assert Slot(round, phase) in s.cs.votes && v in s.cs.votes[Slot(round, phase)];
  }

  /** An own vote is not a foreign one. */
  lemma OwnVoteIsNotForeign(me: Id, cs: HeightState, slot: Slot, v: Vote)
    requires v.validator == me
    ensures HoldsForeign(me, PutVote(cs, slot, v).votes) == HoldsForeign(me, cs.votes)
  {
    var votes' := PutVote(cs, slot, v).votes;
    if HoldsForeign(me, votes') {
      var x, u :| x in votes' && u in votes'[x] && u != me;
      assert x in cs.votes && u in cs.votes[x];
    }
    if HoldsForeign(me, cs.votes) {
      var x, u :| x in cs.votes && u in cs.votes[x] && u != me;
      assert x in votes' && u in votes'[x];
    }
  }

  // ---- quorums in one bucket ----

  /** Only validators vote, and each once. */
  predicate IsBucket(p: Params, bucket: Bucket) { bucket.Keys <= p.ValidatorSet() }

  predicate AtQuorum(p: Params, bucket: Bucket, x: Hash)
    requires p.N() > 0
  {
    |VotersIn(bucket, x)| >= p.Quorum()
  }

  lemma OneQuorumWhenDecisive(p: Params, bucket: Bucket, x: Hash, y: Hash)
    requires p.N() > 0 && p.Decisive() && IsBucket(p, bucket) && AtQuorum(p, bucket, x) && AtQuorum(p, bucket, y)
    ensures x == y
  {
    var a, b := VotersIn(bucket, x), VotersIn(bucket, y);
    DistinctCount(p.validators);
    OverlapSize(a, b, p.ValidatorSet());
    assert a * b != {};
    var v :| v in a * b;
  }

  /** A stretch of the validators that voted alike. */
  lemma StretchVotes(p: Params, bucket: Bucket, from: nat, to: nat, x: Hash)
    requires p.WellFormed() && from <= to <= p.N()
    requires forall i :: from <= i < to ==> p.validators[i] in bucket && bucket[p.validators[i]].blockHash == x
    ensures |VotersIn(bucket, x)| >= to - from
  {
    var some := p.validators[from..to];
    DistinctCount(some);
    forall v | v in some ensures v in VotersIn(bucket, x) {
      var i :| 0 <= i < |some| && some[i] == v;
      assert v == p.validators[from + i];
    }
    SubsetSize((set v | v in some), VotersIn(bucket, x));
  }

  /** With room for two quorums, one bucket can hold both. */
  lemma TwoQuorums(p: Params, x: Hash, y: Hash) returns (bucket: Bucket)
    requires p.WellFormed() && !p.Decisive() && x != y
    ensures IsBucket(p, bucket) && AtQuorum(p, bucket, x) && AtQuorum(p, bucket, y)
  {
    var q := p.Quorum();
    var front := p.validators[..q];
    bucket := map v | v in p.ValidatorSet() :: Vote(v, 0, 0, Precommit, if v in front then x else y);
    forall i | 0 <= i < p.N() ensures p.validators[i] in bucket && bucket[p.validators[i]].blockHash == if i < q then x else y {
      if i < q { assert front[i] == p.validators[i]; }
    }
    hide VotersIn, Params.WellFormed;
    StretchVotes(p, bucket, 0, q, x);
    StretchVotes(p, bucket, q, 2 * q, y);
  }

  /** Every bucket has at most one hash at quorum, so that the order of counting cannot matter, exactly when two quorums
      do not fit side by side: for every n but 2, 3 and 6. */
  lemma OneQuorumIff(p: Params)
    requires p.WellFormed()
    ensures (forall bucket, x, y :: IsBucket(p, bucket) && AtQuorum(p, bucket, x) && AtQuorum(p, bucket, y) ==> x == y)
            <==> p.Decisive()
    ensures p.Decisive() <==> p.N() !in {2, 3, 6}
  {
    if p.Decisive() {
      forall bucket, x, y | IsBucket(p, bucket) && AtQuorum(p, bucket, x) && AtQuorum(p, bucket, y) ensures x == y {
        OneQuorumWhenDecisive(p, bucket, x, y);
      }
    } else {
      var bucket := TwoQuorums(p, "x", "y");
      assert AtQuorum(p, bucket, "x") && AtQuorum(p, bucket, "y");
    }
  }

  /** A bucket that holds no foreign vote has at most one. */
  lemma OneQuorumAlone(p: Params, me: Id, cs: HeightState, round: int, phase: Phase, x: Hash, y: Hash)
    requires p.N() > 0 && !HoldsForeign(me, cs.votes)
    requires HasQuorum(p, cs, round, phase, x) && HasQuorum(p, cs, round, phase, y)
    ensures x == y
  {
    var a, b := cs.Voters(round, phase, x), cs.Voters(round, phase, y);
    assert a != {} && b != {};
    var v :| v in a;
    var w :| w in b;
    assert Slot(round, phase) in cs.votes;
  }

  lemma BucketFits(p: Params, s: Node, round: int, phase: Phase)
    requires p.N() > 0 && BucketsOk(p, s)
    ensures IsBucket(p, s.cs.BucketAt(round, phase))
  {
    var bucket := s.cs.BucketAt(round, phase);
    forall v | v in bucket ensures v in p.validators {
      assert InPlace(p, s.height, Slot(round, phase), v, s.cs.votes[Slot(round, phase)][v]);
    }
  }

  /** So a validator that kept to the rules finds at most one hash at quorum. */
  lemma OneQuorumPerBucket(p: Params, s: Node, round: int, phase: Phase, x: Hash, y: Hash)
    requires p.N() > 0 && p.Decisive() && BucketsOk(p, s)
    requires HasQuorum(p, s.cs, round, phase, x) && HasQuorum(p, s.cs, round, phase, y)
    ensures x == y
  {
    BucketFits(p, s, round, phase);
    OneQuorumWhenDecisive(p, s.cs.BucketAt(round, phase), x, y);
  }
}
