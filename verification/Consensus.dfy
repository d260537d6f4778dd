/** All validators together: any interleaving of honest steps, any delivery of votes that
    unforgeable signatures allow, and up to f validators that may sign anything. */
module Consensus {
  import opened Messages
  import opened Quorums
  import opened Protocol

  datatype Config = Config(params: Params, byzantine: set<Id>) {
    /** At most f of the validators are faulty. */
    ghost predicate Formed() {
      params.WellFormed() && byzantine <= params.ValidatorSet() && |byzantine| <= params.F()
    }

    /** And two quorums always share an honest validator, which safety rests on. For n = 3f+1 that is so whichever
        validators are faulty; for other n it takes fewer faulty ones. */
    ghost predicate Valid() { Formed() && 2 * params.Quorum() > params.N() + |byzantine| }

    predicate Honest(v: Id) { v in params.validators && v !in byzantine }
  }

  /** `sent` is every vote an honest validator ever signed, oldest first. */
  datatype System = System(nodes: map<Id, Node>, sent: seq<Vote>)

  datatype Move = Move(node: Id, action: Action)

  function Start(cfg: Config): System {
    System(map v | v in cfg.params.ValidatorSet() && cfg.Honest(v) :: InitialNode, [])
  }

  /** The network may lose, repeat, delay and reorder votes, and the adversary may sign votes of its own. It may deliver
      anything under any signature, but it cannot forge an honest one: if a signature checks for an honest validator's vote,
      then that validator cast the vote. If the phase is compared, a vote that checks arrives under the phase it was
      signed for. */
  predicate Deliverable(cfg: Config, compared: bool, g: System, a: Action) {
    a.ReceiveVote? && a.signature.Some? && cfg.params.crypto.check(a.vote.validator, VoteDomain(a.vote), a.signature.value) ==>
      (compared ==> a.vote.phase == a.phase) && (cfg.Honest(a.vote.validator) ==> a.vote in g.sent)
  }

  ghost predicate CanHappen(cfg: Config, compared: bool, g: System, m: Move)
    requires cfg.Formed()
  {
    && cfg.Honest(m.node) && m.node in g.nodes
    && Enabled(cfg.params, m.node, g.nodes[m.node], m.action)
    && Deliverable(cfg, compared, g, m.action)
  }

  ghost function Next(cfg: Config, g: System, m: Move): System
    requires cfg.Formed() && m.node in g.nodes && Enabled(cfg.params, m.node, g.nodes[m.node], m.action)
  {
    var s := g.nodes[m.node];
    System(g.nodes[m.node := Apply(cfg.params, m.node, s, m.action)],
           g.sent + Emitted(cfg.params, m.node, s, m.action))
  }

  ghost predicate IsRunUnder(cfg: Config, compared: bool, states: seq<System>, moves: seq<Move>)
    requires cfg.Formed()
  {
    && |states| == |moves| + 1
    && states[0] == Start(cfg)
    && forall k :: 0 <= k < |moves| ==>
         CanHappen(cfg, compared, states[k], moves[k]) && states[k + 1] == Next(cfg, states[k], moves[k])
  }

  /** The runs the theorems are about: the phase of a delivered vote is compared. */
  ghost predicate IsRun(cfg: Config, states: seq<System>, moves: seq<Move>)
    requires cfg.Formed()
  {
    IsRunUnder(cfg, true, states, moves)
  }

  /** Some run leads to this state of the system. */
  ghost predicate CanReach(cfg: Config, compared: bool, g: System)
    requires cfg.Formed()
  {
    exists states, moves :: IsRunUnder(cfg, compared, states, moves) && states[|moves|] == g
  }

  lemma StartCanBeReached(cfg: Config, compared: bool)
    requires cfg.Formed()
    ensures CanReach(cfg, compared, Start(cfg))
  {
    assert IsRunUnder(cfg, compared, [Start(cfg)], []);
  }

  lemma OneMore(cfg: Config, compared: bool, states: seq<System>, moves: seq<Move>, m: Move)
    requires cfg.Formed() && IsRunUnder(cfg, compared, states, moves) && CanHappen(cfg, compared, states[|moves|], m)
    ensures IsRunUnder(cfg, compared, states + [Next(cfg, states[|moves|], m)], moves + [m])
  {
    var states', moves' := states + [Next(cfg, states[|moves|], m)], moves + [m];
    forall k | 0 <= k < |moves'|
      ensures CanHappen(cfg, compared, states'[k], moves'[k]) && states'[k + 1] == Next(cfg, states'[k], moves'[k])
    {
      if k < |moves| { assert states'[k] == states[k] && states'[k + 1] == states[k + 1]; }
    }
  }

  // ---- support: who may be counted behind a hash ----

  /** The validators that voted for a hash, counting every faulty one as if it had. */
  function Supporters(cfg: Config, sent: seq<Vote>, height: int, round: int, phase: Phase, hash: Hash): set<Id> {
    set v | v in cfg.params.ValidatorSet() && (v in cfg.byzantine || Vote(v, height, round, phase, hash) in sent)
  }

  ghost predicate Support(cfg: Config, sent: seq<Vote>, height: int, round: int, phase: Phase, hash: Hash)
    requires cfg.Formed()
  {
    |Supporters(cfg, sent, height, round, phase, hash)| >= cfg.params.Quorum()
  }

  lemma SupportGrows(cfg: Config, sent: seq<Vote>, more: seq<Vote>, height: int, round: int, phase: Phase, hash: Hash)
    requires cfg.Formed() && sent <= more
    requires Support(cfg, sent, height, round, phase, hash)
    ensures Support(cfg, more, height, round, phase, hash)
  {
    SubsetSize(Supporters(cfg, sent, height, round, phase, hash), Supporters(cfg, more, height, round, phase, hash));
  }

  /** Two supported hashes, whatever their slots, have a common honest voter. */
  lemma CommonVoter(cfg: Config, sent: seq<Vote>, h1: int, r1: int, p1: Phase, x1: Hash,
                    sent2: seq<Vote>, h2: int, r2: int, p2: Phase, x2: Hash) returns (v: Id)
    requires cfg.Valid()
    requires Support(cfg, sent, h1, r1, p1, x1) && Support(cfg, sent2, h2, r2, p2, x2)
    ensures cfg.Honest(v) && Vote(v, h1, r1, p1, x1) in sent && Vote(v, h2, r2, p2, x2) in sent2
  {
    DistinctCount(cfg.params.validators);
    v := HonestOverlap(Supporters(cfg, sent, h1, r1, p1, x1), Supporters(cfg, sent2, h2, r2, p2, x2),
                       cfg.byzantine, cfg.params.ValidatorSet());
  }

  // ---- the vote log ----

  predicate Before(a: Vote, b: Vote) {
    a.height < b.height ||
    (a.height == b.height && (a.round < b.round || (a.round == b.round && a.phase == Prevote && b.phase == Precommit)))
  }

  /** Each validator's votes are strictly increasing in (height, round, phase). */
  ghost predicate Disciplined(sent: seq<Vote>) {
    forall i, j :: 0 <= i < j < |sent| && sent[i].validator == sent[j].validator ==> Before(sent[i], sent[j])
  }

  /** A precommit for a block follows a prevote quorum for it. */
  ghost predicate Backed(cfg: Config, sent: seq<Vote>)
    requires cfg.Formed()
  {
    forall k :: 0 <= k < |sent| && sent[k].phase == Precommit && sent[k].blockHash != NIL ==>
      Support(cfg, sent[..k], sent[k].height, sent[k].round, Prevote, sent[k].blockHash)
  }

  ghost predicate SupportedAfter(cfg: Config, sent: seq<Vote>, height: int, round: int, hash: Hash)
    requires cfg.Formed()
  {
    exists r :: r > round && Support(cfg, sent, height, r, Prevote, hash)
  }

  /** Having precommitted one block, a validator prevotes another in a later round only after
      that other one had a prevote quorum in some later round. */
  ghost predicate Faithful(cfg: Config, sent: seq<Vote>)
    requires cfg.Formed()
  {
    forall i, j :: 0 <= i < |sent| && 0 <= j < |sent| &&
      sent[i].validator == sent[j].validator && sent[i].height == sent[j].height &&
      sent[i].phase == Precommit && sent[j].phase == Prevote && sent[i].round < sent[j].round &&
      sent[i].blockHash != NIL && sent[j].blockHash != NIL && sent[i].blockHash != sent[j].blockHash
      ==> SupportedAfter(cfg, sent[..j], sent[j].height, sent[i].round, sent[j].blockHash)
  }

  /** Discipline and backing hold for every n; faith in earlier precommits rests on two quorums sharing an honest validator. */
  ghost predicate LogOk(cfg: Config, sent: seq<Vote>)
    requires cfg.Formed()
  {
    Disciplined(sent) && Backed(cfg, sent) && (cfg.Valid() ==> Faithful(cfg, sent))
  }

  lemma OneVotePerSlot(sent: seq<Vote>, a: Vote, b: Vote)
    requires Disciplined(sent) && a in sent && b in sent
    requires a.validator == b.validator && a.height == b.height && a.round == b.round && a.phase == b.phase
    ensures a == b
  {
    var i :| 0 <= i < |sent| && sent[i] == a;
    var j :| 0 <= j < |sent| && sent[j] == b;
    assert !Before(a, b) && !Before(b, a);
  }

  lemma OneSupportedHash(cfg: Config, sent: seq<Vote>, height: int, round: int, phase: Phase, x: Hash, y: Hash)
    requires cfg.Valid() && Disciplined(sent)
    requires Support(cfg, sent, height, round, phase, x) && Support(cfg, sent, height, round, phase, y)
    ensures x == y
  {
    var v := CommonVoter(cfg, sent, height, round, phase, x, sent, height, round, phase, y);
    OneVotePerSlot(sent, Vote(v, height, round, phase, x), Vote(v, height, round, phase, y));
  }

  /** Lock persistence, by descent in time: a prevote quorum for another block in a later round
      would need an earlier one. */
  lemma {:induction false} LockPersists(cfg: Config, sent: seq<Vote>, k: nat, height: int, round: int, x: Hash, later: int, y: Hash)
    requires cfg.Valid() && LogOk(cfg, sent) && k <= |sent|
    requires x != NIL && y != NIL && round < later
    requires Support(cfg, sent, height, round, Precommit, x)
    requires Support(cfg, sent[..k], height, later, Prevote, y)
    ensures x == y
    decreases k
  {
    if x != y {
      var v := CommonVoter(cfg, sent, height, round, Precommit, x, sent[..k], height, later, Prevote, y);
      var i :| 0 <= i < |sent| && sent[i] == Vote(v, height, round, Precommit, x);
      var j :| 0 <= j < k && sent[j] == Vote(v, height, later, Prevote, y);
      var r :| r > round && Support(cfg, sent[..j], height, r, Prevote, y);
      LockPersists(cfg, sent, j, height, round, x, r, y);
    }
  }

  /** At one height only one block can gather precommit quorums, whatever the rounds. */
  lemma OneDecision(cfg: Config, sent: seq<Vote>, height: int, r1: int, x: Hash, r2: int, y: Hash)
    requires cfg.Valid() && LogOk(cfg, sent) && x != NIL && y != NIL
    requires Support(cfg, sent, height, r1, Precommit, x) && Support(cfg, sent, height, r2, Precommit, y)
    ensures x == y
    decreases r1 > r2
  {
    if r1 == r2 {
      OneSupportedHash(cfg, sent, height, r1, Precommit, x, y);
    } else if r1 < r2 {
      var v := CommonVoter(cfg, sent, height, r2, Precommit, y, sent, height, r2, Precommit, y);
      var k :| 0 <= k < |sent| && sent[k] == Vote(v, height, r2, Precommit, y);
      LockPersists(cfg, sent, k, height, r1, x, r2, y);
    } else {
      OneDecision(cfg, sent, height, r2, y, r1, x);
    }
  }

  // ---- what links a validator's state to the log ----

  /** Every vote counted for an honest validator is one it sent, in the slot it signed. */
  ghost predicate Genuine(cfg: Config, sent: seq<Vote>, slot: Slot, v: Id, vote: Vote) {
    vote.phase == slot.phase && (cfg.Honest(v) ==> vote in sent)
  }

  ghost predicate Heard(cfg: Config, sent: seq<Vote>, s: Node) {
    forall slot, v :: slot in s.cs.votes && v in s.cs.votes[slot] ==> Genuine(cfg, sent, slot, v, s.cs.votes[slot][v])
  }

  /** The vote lies behind the validator's present height, round and step. */
  predicate Past(s: Node, v: Vote) {
    v.height < s.height ||
    (v.height == s.height &&
       (v.round < s.cs.round ||
        (v.round == s.cs.round && s.cs.step != ProposeStep && (v.phase == Precommit ==> s.cs.step != PrevoteStep))))
  }

  ghost predicate OwnVotesPast(sent: seq<Vote>, me: Id, s: Node) {
    forall v :: v in sent && v.validator == me ==> Past(s, v)
  }

  /** A precommit for a block at this height leaves a lock at least as recent. */
  ghost predicate StaysLocked(sent: seq<Vote>, me: Id, s: Node) {
    forall v :: v in sent && v.validator == me && v.height == s.height && v.phase == Precommit && v.blockHash != NIL ==>
      s.cs.locked.Some? && s.cs.lockedRound >= v.round
  }

  ghost predicate Decidable(cfg: Config, sent: seq<Vote>, height: int, hash: Hash)
    requires cfg.Formed()
  {
    hash != NIL && exists r :: Support(cfg, sent, height, r, Precommit, hash)
  }

  ghost predicate LedgerSupported(cfg: Config, sent: seq<Vote>, s: Node)
    requires cfg.Formed()
  {
    forall k :: 0 <= k < |s.ledger| ==> Decidable(cfg, sent, k, cfg.params.crypto.BlockHash(s.ledger[k]))
  }

  ghost predicate Placed(cfg: Config, sent: seq<Vote>, me: Id, s: Node)
    requires cfg.Formed()
  {
    NodeOk(cfg.params, s) && Heard(cfg, sent, s) && OwnVotesPast(sent, me, s) && StaysLocked(sent, me, s) && LedgerSupported(cfg, sent, s)
  }

  ghost predicate SystemOk(cfg: Config, g: System)
    requires cfg.Formed()
  {
    && LogOk(cfg, g.sent)
    && (forall v :: cfg.Honest(v) ==> v in g.nodes && Placed(cfg, g.sent, v, g.nodes[v]))
    && (forall v :: v in g.sent ==> cfg.Honest(v.validator))
  }

  /** A quorum in a validator's own bucket is support in the log. */
  lemma QuorumIsSupport(cfg: Config, sent: seq<Vote>, s: Node, round: int, phase: Phase, hash: Hash)
    requires cfg.Formed() && NodeOk(cfg.params, s) && Heard(cfg, sent, s)
    requires HasQuorum(cfg.params, s.cs, round, phase, hash)
    ensures Support(cfg, sent, s.height, round, phase, hash)
  {
    var voters := s.cs.Voters(round, phase, hash);
    forall v | v in voters ensures v in Supporters(cfg, sent, s.height, round, phase, hash) {
      var vote := s.cs.BucketAt(round, phase)[v];
      assert Slot(round, phase) in s.cs.votes && v in s.cs.votes[Slot(round, phase)];
      assert InPlace(cfg.params, s.height, Slot(round, phase), v, vote) && Genuine(cfg, sent, Slot(round, phase), v, vote);
      assert vote == Vote(v, s.height, round, phase, hash);
    }
    SubsetSize(voters, Supporters(cfg, sent, s.height, round, phase, hash));
  }

  // ---- every step keeps the invariant ----

  lemma LedgerSupportGrows(cfg: Config, sent: seq<Vote>, more: seq<Vote>, s: Node)
    requires cfg.Formed() && sent <= more && LedgerSupported(cfg, sent, s)
    ensures LedgerSupported(cfg, more, s)
  {
    forall k | 0 <= k < |s.ledger| ensures Decidable(cfg, more, k, cfg.params.crypto.BlockHash(s.ledger[k])) {
      var hash := cfg.params.crypto.BlockHash(s.ledger[k]);
      assert Decidable(cfg, sent, k, hash);
      var r :| Support(cfg, sent, k, r, Precommit, hash);
      SupportGrows(cfg, sent, more, k, r, Precommit, hash);
    }
  }

  /** The vote is the one its sender may cast next: once in its slot, backed if a precommit, and on what
      it is locked on if a prevote. */
  ghost predicate MayCast(cfg: Config, me: Id, s: Node, v: Vote)
    requires cfg.Formed()
  {
    && v.validator == me && v.height == s.height && v.round == s.cs.round
    && s.cs.step == (if v.phase == Prevote then ProposeStep else PrevoteStep)
    && (v.phase == Precommit && v.blockHash != NIL ==> HasQuorum(cfg.params, s.cs, v.round, Prevote, v.blockHash))
    && (v.phase == Prevote && v.blockHash != NIL && s.cs.locked.Some? ==>
          v.blockHash == cfg.params.crypto.BlockHash(s.cs.locked.value))
  }

  lemma DisciplineGrows(cfg: Config, sent: seq<Vote>, me: Id, s: Node, v: Vote)
    requires cfg.Formed() && Disciplined(sent) && OwnVotesPast(sent, me, s) && MayCast(cfg, me, s, v)
    ensures Disciplined(sent + [v])
  {
  }

  lemma BackingGrows(cfg: Config, sent: seq<Vote>, v: Vote)
    requires cfg.Formed() && Backed(cfg, sent)
    requires v.phase == Precommit && v.blockHash != NIL ==> Support(cfg, sent, v.height, v.round, Prevote, v.blockHash)
    ensures Backed(cfg, sent + [v])
  {
    var more := sent + [v];
    forall k | 0 <= k < |more| && more[k].phase == Precommit && more[k].blockHash != NIL
      ensures Support(cfg, more[..k], more[k].height, more[k].round, Prevote, more[k].blockHash)
    {
      assert more[..k] == if k < |sent| then sent[..k] else sent;
    }
  }

  /** The new vote is faithful to a precommit its sender made before. */
  ghost predicate KeepsFaith(cfg: Config, sent: seq<Vote>, v: Vote)
    requires cfg.Formed()
  {
    v.phase == Prevote && v.blockHash != NIL ==>
      forall i :: 0 <= i < |sent| && sent[i].validator == v.validator && sent[i].height == v.height &&
        sent[i].phase == Precommit && sent[i].round < v.round && sent[i].blockHash != NIL && sent[i].blockHash != v.blockHash
        ==> SupportedAfter(cfg, sent, v.height, sent[i].round, v.blockHash)
  }

  lemma FaithGrows(cfg: Config, sent: seq<Vote>, v: Vote)
    requires cfg.Formed() && Faithful(cfg, sent) && KeepsFaith(cfg, sent, v)
    requires forall j :: 0 <= j < |sent| && sent[j].validator == v.validator ==> !Before(v, sent[j])
    ensures Faithful(cfg, sent + [v])
  {
    var more := sent + [v];
    forall i, j | 0 <= i < |more| && 0 <= j < |more| &&
      more[i].validator == more[j].validator && more[i].height == more[j].height &&
      more[i].phase == Precommit && more[j].phase == Prevote && more[i].round < more[j].round &&
      more[i].blockHash != NIL && more[j].blockHash != NIL && more[i].blockHash != more[j].blockHash
      ensures SupportedAfter(cfg, more[..j], more[j].height, more[i].round, more[j].blockHash)
    {
      if i < |sent| {
        assert more[i] == sent[i];
        assert more[..j] == if j < |sent| then sent[..j] else sent;
      }
    }
  }

  /** One more vote keeps the log in order when its sender is past all its earlier votes, locked or free. */
  lemma LogKeepsOk(cfg: Config, sent: seq<Vote>, me: Id, s: Node, v: Vote)
    requires cfg.Formed() && LogOk(cfg, sent) && Placed(cfg, sent, me, s) && MayCast(cfg, me, s, v)
    ensures LogOk(cfg, sent + [v])
  {
    DisciplineGrows(cfg, sent, me, s, v);
    if v.phase == Precommit && v.blockHash != NIL {
      QuorumIsSupport(cfg, sent, s, v.round, Prevote, v.blockHash);
    }
    BackingGrows(cfg, sent, v);
    if cfg.Valid() {
      CastKeepsFaith(cfg, sent, me, s, v);
      forall j | 0 <= j < |sent| && sent[j].validator == me ensures !Before(v, sent[j]) { assert Past(s, sent[j]); }
      FaithGrows(cfg, sent, v);
    }
  }

  lemma CastKeepsFaith(cfg: Config, sent: seq<Vote>, me: Id, s: Node, v: Vote)
    requires cfg.Valid() && LogOk(cfg, sent) && Placed(cfg, sent, me, s) && MayCast(cfg, me, s, v)
    ensures KeepsFaith(cfg, sent, v)
  {
    if v.phase == Prevote && v.blockHash != NIL {
      forall i | 0 <= i < |sent| && sent[i].validator == me && sent[i].height == v.height &&
        sent[i].phase == Precommit && sent[i].round < v.round && sent[i].blockHash != NIL && sent[i].blockHash != v.blockHash
        ensures SupportedAfter(cfg, sent, v.height, sent[i].round, v.blockHash)
      {
        LockedElsewhere(cfg, sent, me, s, i, v.blockHash);
      }
    }
  }

  /** A lock on another block than one precommitted comes from a later prevote quorum. */
  lemma LockedElsewhere(cfg: Config, sent: seq<Vote>, me: Id, s: Node, i: nat, hash: Hash)
    requires cfg.Valid() && LogOk(cfg, sent) && Placed(cfg, sent, me, s) && i < |sent|
    requires sent[i].validator == me && sent[i].height == s.height
    requires sent[i].phase == Precommit && sent[i].blockHash != NIL && sent[i].blockHash != hash
    requires s.cs.locked.Some? ==> hash == cfg.params.crypto.BlockHash(s.cs.locked.value)
    ensures SupportedAfter(cfg, sent, s.height, sent[i].round, hash)
  {
    var v := sent[i];
    assert v in sent;
    QuorumIsSupport(cfg, sent, s, s.cs.lockedRound, Prevote, hash);
    if s.cs.lockedRound == v.round {
      SupportGrows(cfg, sent[..i], sent, v.height, v.round, Prevote, v.blockHash);
      OneSupportedHash(cfg, sent, v.height, v.round, Prevote, v.blockHash, hash);
    }
  }

  lemma HeardAfterPut(cfg: Config, sent: seq<Vote>, more: seq<Vote>, s: Node, slot: Slot, v: Vote, s': Node)
    requires Heard(cfg, sent, s) && sent <= more && s'.cs.votes == PutVote(s.cs, slot, v).votes
    requires v.phase == slot.phase && (cfg.Honest(v.validator) ==> v in more)
    ensures Heard(cfg, more, s')
  {
    var votes': map<Slot, Bucket> := s'.cs.votes;
    forall slot': Slot, id: Id | slot' in votes' && id in votes'[slot']
      ensures Genuine(cfg, more, slot', id, votes'[slot'][id])
    {
      if slot' != slot || id != v.validator {
        assert slot' in s.cs.votes && id in s.cs.votes[slot'];
        assert Genuine(cfg, sent, slot', id, s.cs.votes[slot'][id]);
      }
    }
  }

  predicate IsCast(a: Action) { a.CastPrevote? || a.CastPrecommit? }

  function CastBy(p: Params, me: Id, s: Node, a: Action): Vote
    requires p.N() > 0 && IsCast(a)
  {
    if a.CastPrevote? then CastVote(me, s, Prevote, PrevoteFor(p, s, a.block)) else CastVote(me, s, Precommit, a.hash)
  }

  lemma CastFacts(p: Params, me: Id, s: Node, a: Action)
    requires p.N() > 0 && Enabled(p, me, s, a) && IsCast(a)
    ensures var v := CastBy(p, me, s, a); var s' := Apply(p, me, s, a);
      && Emitted(p, me, s, a) == [v] && v.validator == me && v.height == s.height && v.round == s.cs.round
      && s.cs.step == (if v.phase == Prevote then ProposeStep else PrevoteStep)
      && s' == s.(cs := PutVote(s.cs, Slot(v.round, v.phase), v).(step := if v.phase == Prevote then PrevoteStep else PrecommitStep))
    ensures var v := CastBy(p, me, s, a);
      && (v.phase == Precommit && v.blockHash != NIL ==>
            HasQuorum(p, s.cs, v.round, Prevote, v.blockHash) && s.cs.lockedRound >= v.round && s.cs.locked.Some?)
      && (v.phase == Prevote && v.blockHash != NIL && s.cs.locked.Some? ==>
            v.blockHash == p.crypto.BlockHash(s.cs.locked.value))
  {
  }

  /** The validator that casts a vote. */
  lemma CastKeepsPlaced(cfg: Config, sent: seq<Vote>, me: Id, s: Node, a: Action)
    requires cfg.Formed() && LogOk(cfg, sent) && Placed(cfg, sent, me, s)
    requires Enabled(cfg.params, me, s, a) && IsCast(a) && me in cfg.params.validators
    ensures var more := sent + Emitted(cfg.params, me, s, a); LogOk(cfg, more) && Placed(cfg, more, me, Apply(cfg.params, me, s, a))
  {
    hide Enabled, Apply, Emitted, NodeOk, CastBy, PrevoteFor;
    var p := cfg.params;
    var s' := Apply(p, me, s, a);
    var v := CastBy(p, me, s, a);
    var more := sent + [v];
    CastFacts(p, me, s, a);
    StepKeepsOk(p, me, s, a);
    LogKeepsOk(cfg, sent, me, s, v);
    HeardAfterPut(cfg, sent, more, s, Slot(v.round, v.phase), v, s');
    LedgerSupportGrows(cfg, sent, more, s);
    OwnVotesAfterCast(sent, me, s, v, s');
  }

  lemma OwnVotesAfterCast(sent: seq<Vote>, me: Id, s: Node, v: Vote, s': Node)
    requires OwnVotesPast(sent, me, s) && v.height == s.height && v.round == s.cs.round
    requires s.cs.step == if v.phase == Prevote then ProposeStep else PrevoteStep
    requires s'.height == s.height && s'.cs.round == s.cs.round
    requires s'.cs.step == if v.phase == Prevote then PrevoteStep else PrecommitStep
    ensures OwnVotesPast(sent + [v], me, s')
  {
    forall u | u in sent + [v] && u.validator == me ensures Past(s', u) {
      assert u == v || (u in sent && Past(s, u));
    }
  }

  predicate Quiet(a: Action) { !IsCast(a) && !a.Decide? }

  /** Steps that neither vote nor decide keep what votes and locks are measured by. */
  lemma QuietStep(p: Params, me: Id, s: Node, a: Action)
    requires p.N() > 0 && Enabled(p, me, s, a) && Quiet(a)
    ensures var s' := Apply(p, me, s, a);
      && s'.height == s.height && s'.ledger == s.ledger
      && s'.cs.votes == (if a.ReceiveVote? then PutVote(s.cs, Slot(a.vote.round, a.phase), a.vote).votes else s.cs.votes)
      && (s.cs.locked.Some? ==> s'.cs.locked.Some? && s'.cs.lockedRound >= s.cs.lockedRound)
      && forall v :: Past(s, v) ==> Past(s', v)
    ensures Emitted(p, me, s, a) == []
  {
  }

  lemma QuietKeepsPlaced(cfg: Config, sent: seq<Vote>, me: Id, s: Node, a: Action)
    requires cfg.Formed() && Placed(cfg, sent, me, s) && Enabled(cfg.params, me, s, a) && Quiet(a)
    requires me in cfg.params.validators
    requires a.ReceiveVote? ==> a.vote.phase == a.phase && (cfg.Honest(a.vote.validator) ==> a.vote in sent)
    ensures Emitted(cfg.params, me, s, a) == [] && Placed(cfg, sent, me, Apply(cfg.params, me, s, a))
  {
    hide Enabled, Apply, Emitted, NodeOk;
    var p := cfg.params;
    var s' := Apply(p, me, s, a);
    StepKeepsOk(p, me, s, a);
    QuietStep(p, me, s, a);
    if a.ReceiveVote? {
      HeardAfterPut(cfg, sent, sent, s, Slot(a.vote.round, a.phase), a.vote, s');
    }
    assert Heard(cfg, sent, s');
  }

  /** A decision is supported by precommits, and leaves a fresh height. */
  lemma DecisionFacts(cfg: Config, sent: seq<Vote>, me: Id, s: Node, a: Action)
    requires cfg.Formed() && Placed(cfg, sent, me, s) && Enabled(cfg.params, me, s, a) && a.Decide?
    ensures s.cs.locked.Some? && Emitted(cfg.params, me, s, a) == []
    ensures Decidable(cfg, sent, |s.ledger|, cfg.params.crypto.BlockHash(s.cs.locked.value))
    ensures var s' := Apply(cfg.params, me, s, a);
      s'.height == s.height + 1 && s'.cs == FreshHeight && s'.ledger == s.ledger + [s.cs.locked.value]
  {
    QuorumIsSupport(cfg, sent, s, a.round, Precommit, cfg.params.crypto.BlockHash(s.cs.locked.value));
  }

  lemma DecideKeepsPlaced(cfg: Config, sent: seq<Vote>, me: Id, s: Node, a: Action)
    requires cfg.Formed() && Placed(cfg, sent, me, s) && Enabled(cfg.params, me, s, a) && a.Decide?
    requires me in cfg.params.validators
    ensures Emitted(cfg.params, me, s, a) == [] && Placed(cfg, sent, me, Apply(cfg.params, me, s, a))
  {
    hide Enabled, Apply, Emitted, NodeOk, Decidable;
    StepKeepsOk(cfg.params, me, s, a);
    DecisionFacts(cfg, sent, me, s, a);
    NewHeightPlaced(cfg, sent, me, s, s.cs.locked.value, Apply(cfg.params, me, s, a));
  }

  lemma NewHeightPlaced(cfg: Config, sent: seq<Vote>, me: Id, s: Node, block: Block, s': Node)
    requires cfg.Formed() && NodeOk(cfg.params, s')
    requires OwnVotesPast(sent, me, s) && s'.height == s.height + 1 && s'.cs == FreshHeight
    requires LedgerSupported(cfg, sent, s) && s'.ledger == s.ledger + [block]
    requires Decidable(cfg, sent, |s.ledger|, cfg.params.crypto.BlockHash(block))
    ensures Placed(cfg, sent, me, s')
  {
    hide NodeOk, Decidable;
    forall v | v in sent && v.validator == me ensures Past(s', v) && v.height != s'.height { assert Past(s, v); }
    assert LedgerSupported(cfg, sent, s');
  }

  lemma OthersStayPlaced(cfg: Config, sent: seq<Vote>, news: seq<Vote>, me: Id, other: Id, s: Node)
    requires cfg.Formed() && Placed(cfg, sent, other, s) && me != other
    requires forall v :: v in news ==> v.validator == me
    ensures Placed(cfg, sent + news, other, s)
  {
    hide NodeOk;
    LedgerSupportGrows(cfg, sent, sent + news, s);
  }

  lemma MoverStaysPlaced(cfg: Config, sent: seq<Vote>, me: Id, s: Node, a: Action)
    requires cfg.Formed() && LogOk(cfg, sent) && Placed(cfg, sent, me, s) && Enabled(cfg.params, me, s, a)
    requires me in cfg.params.validators
    requires a.ReceiveVote? ==> a.vote.phase == a.phase && (cfg.Honest(a.vote.validator) ==> a.vote in sent)
    ensures var more := sent + Emitted(cfg.params, me, s, a); LogOk(cfg, more) && Placed(cfg, more, me, Apply(cfg.params, me, s, a))
  {
    hide Apply, Enabled, Emitted, LogOk, Placed;
    if IsCast(a) {
      CastKeepsPlaced(cfg, sent, me, s, a);
    } else if a.Decide? {
      DecideKeepsPlaced(cfg, sent, me, s, a);
      assert sent + [] == sent;
    } else {
      QuietKeepsPlaced(cfg, sent, me, s, a);
      assert sent + [] == sent;
    }
  }

  /** What a validator takes in is genuine, because it checks the signature. */
  lemma TakenIsGenuine(cfg: Config, g: System, m: Move)
    requires cfg.Formed() && CanHappen(cfg, true, g, m) && m.action.ReceiveVote?
    ensures m.action.vote.phase == m.action.phase && (cfg.Honest(m.action.vote.validator) ==> m.action.vote in g.sent)
  {
  }

  lemma EmittedByMover(p: Params, me: Id, s: Node, a: Action)
    requires p.N() > 0
    ensures forall v :: v in Emitted(p, me, s, a) ==> v.validator == me
  {
  }

  lemma StepKeepsSystemOk(cfg: Config, g: System, e: Move)
    requires cfg.Formed() && SystemOk(cfg, g) && CanHappen(cfg, true, g, e)
    ensures SystemOk(cfg, Next(cfg, g, e))
  {
    hide Apply, Enabled, Emitted, LogOk, Placed, Config.Formed;
    var g' := Next(cfg, g, e);
    var news := Emitted(cfg.params, e.node, g.nodes[e.node], e.action);
    if e.action.ReceiveVote? { TakenIsGenuine(cfg, g, e); }
    MoverStaysPlaced(cfg, g.sent, e.node, g.nodes[e.node], e.action);
    EmittedByMover(cfg.params, e.node, g.nodes[e.node], e.action);
    forall v | cfg.Honest(v) ensures v in g'.nodes && Placed(cfg, g'.sent, v, g'.nodes[v]) {
      assert v in g.nodes;
      if v != e.node { OthersStayPlaced(cfg, g.sent, news, e.node, v, g.nodes[v]); }
    }
    forall v | v in g'.sent ensures cfg.Honest(v.validator) {
      assert v in g.sent || v in news;
    }
  }

  lemma {:induction false} RunIsOk(cfg: Config, states: seq<System>, moves: seq<Move>, k: nat)
    requires cfg.Formed() && IsRun(cfg, states, moves) && k < |states|
    ensures SystemOk(cfg, states[k])
  {
    if k > 0 {
      RunIsOk(cfg, states, moves, k - 1);
      StepKeepsSystemOk(cfg, states[k - 1], moves[k - 1]);
    }
  }
}
