/** An engine's record, replayed as steps of the whole system. */
module Replay {
  import opened Messages
  import opened Protocol
  import opened Consensus
  import opened Trace

  /** Every ballot in a list was cast, and travels under the phase it was signed for. */
  ghost predicate AllCast(said: seq<Message>, sent: seq<Vote>) {
    forall m :: m in said && m.VoteMessage? ==> m.vote in sent && m.phase == m.vote.phase
  }

  lemma AnnouncedIsEmitted(p: Params, me: Id, s: Node, a: Action)
    requires p.N() > 0
    ensures AllCast(Announced(p, me, s, a), Emitted(p, me, s, a))
  {
  }

  /** The votes taken in never shrink, so equal counts mean none was taken in between. */
  lemma {:induction false} HeardGrows(p: Params, me: Id, base: Node, h: seq<Moment>, trace: seq<Action>, i: nat, j: nat)
    requires p.N() > 0 && IsHistory(p, me, base, h, trace) && i <= j < |h|
    ensures |h[i].heard| <= |h[j].heard|
    ensures forall k :: i <= k < j && trace[k].ReceiveVote? ==> |h[i].heard| < |h[j].heard|
  {
    if i < j {
      HeardGrows(p, me, base, h, trace, i, j - 1);
      var k := j - 1;
      assert Goes(p, me, h[k], trace[k], h[k + 1]);
    }
  }

  ghost predicate MayTake(cfg: Config, g: System, a: Action) { a.ReceiveVote? ==> Deliverable(cfg, true, g, a) }

  /** The rest of a record, from moment j on, continues a run of the system. */
  lemma {:induction false} ReplayFrom(cfg: Config, states: seq<System>, moves: seq<Move>, me: Id,
                                      base: Node, h: seq<Moment>, trace: seq<Action>, j: nat)
    returns (states': seq<System>, moves': seq<Move>)
    requires cfg.Formed() && cfg.Honest(me) && IsRun(cfg, states, moves)
    requires IsHistory(cfg.params, me, base, h, trace) && j <= |trace|
    requires me in states[|moves|].nodes && states[|moves|].nodes[me] == h[j].node
    requires forall k :: j <= k < |trace| ==> MayTake(cfg, states[|moves|], trace[k])
    requires AllCast(h[j].said, states[|moves|].sent)
    ensures IsRun(cfg, states', moves') && states <= states' && moves <= moves'
    ensures states'[|moves'|].nodes == states[|moves|].nodes[me := h[|trace|].node]
    ensures states[|moves|].sent <= states'[|moves'|].sent && AllCast(h[|trace|].said, states'[|moves'|].sent)
    decreases |trace| - j
  {
    var g := states[|moves|];
    if j == |trace| {
      states', moves' := states, moves;
      assert g.nodes == g.nodes[me := h[j].node];
    } else {
      var e := Move(me, trace[j]);
      assert Goes(cfg.params, me, h[j], trace[j], h[j + 1]);
      assert MayTake(cfg, g, trace[j]);
      var g' := Next(cfg, g, e);
      OneMore(cfg, true, states, moves, e);
      AnnouncedIsEmitted(cfg.params, me, h[j].node, trace[j]);
      assert AllCast(h[j + 1].said, g'.sent);
      states', moves' := ReplayFrom(cfg, states + [g'], moves + [e], me, base, h, trace, j + 1);
      assert g'.nodes[me := h[|trace|].node] == g.nodes[me := h[|trace|].node];
    }
  }

  /** From moment i on, the only vote taken in is the given one, and it comes first. */
  lemma OnlyTheGiven(cfg: Config, g: System, me: Id, base: Node, h: seq<Moment>, trace: seq<Action>, i: nat, taken: seq<Action>)
    requires cfg.Formed() && IsHistory(cfg.params, me, base, h, trace) && i <= |trace|
    requires h[|trace|].heard == h[i].heard + taken
    requires taken == [] || (|taken| == 1 && i < |trace| && trace[i] == taken[0] && taken[0].ReceiveVote? && MayTake(cfg, g, taken[0]))
    ensures forall k :: i <= k < |trace| ==> MayTake(cfg, g, trace[k])
  {
    var p := cfg.params;
    HeardGrows(p, me, base, h, trace, i, |trace|);
    if taken != [] {
      assert Goes(p, me, h[i], trace[i], h[i + 1]);
      HeardGrows(p, me, base, h, trace, i + 1, |trace|);
    }
  }

  lemma TakenComesFirst(a: seq<Action>, taken: seq<Action>, b: seq<Action>)
    requires |taken| == 1 && a + taken <= b
    ensures |a| < |b| && b[|a|] == taken[0]
  {
    assert (a + taken)[|a|] == taken[0];
  }

  /** Some run leads to this state of the system, the phase of every delivered vote compared. */
  ghost predicate Reachable(cfg: Config, g: System)
    requires cfg.Formed()
  {
    CanReach(cfg, true, g)
  }

  lemma ReachableIsOk(cfg: Config, g: System)
    requires cfg.Formed() && Reachable(cfg, g)
    ensures SystemOk(cfg, g)
  {
    var states, moves :| IsRun(cfg, states, moves) && states[|moves|] == g;
    RunIsOk(cfg, states, moves, |moves|);
  }

  /** In every run an honest proposer announces one proposal, of the block it is locked on, or if unlocked of a block of its
      own over its pool, and keeps that block for the round. */
  lemma RunProposals(cfg: Config, states: seq<System>, moves: seq<Move>, k: nat) returns (header: BlockHeader, txHashes: seq<Hash>)
    requires cfg.Formed() && IsRun(cfg, states, moves) && k < |moves| && moves[k].action.ProposeBlock?
    ensures var me := moves[k].node;
      && me in states[k].nodes && me in states[k + 1].nodes
      && var s := states[k].nodes[me]; var cs' := states[k + 1].nodes[me].cs;
         && Announced(cfg.params, me, s, ProposeBlock) == [Proposal(header, txHashes, s.cs.round)]
         && ProposesFrom(cfg.params, me, s, header, txHashes, s.cs.round)
         && s.cs.round in cs'.proposals && cs'.proposals[s.cs.round].header == header
         && cfg.params.crypto.TxHashes(cs'.proposals[s.cs.round].transactions) == txHashes
  {
    RunIsOk(cfg, states, moves, k);
    assert CanHappen(cfg, true, states[k], moves[k]) && states[k + 1] == Next(cfg, states[k], moves[k]);
    var me := moves[k].node;
    var s := states[k].nodes[me];
    assert LiveOk(cfg.params, s);
    hide SystemOk, LiveOk, ProposesFrom, Config.Formed, IsRunUnder, Announced, Enabled, Apply, Emitted;
    header, txHashes := StepProposes(cfg.params, me, s);
  }

  lemma StepProposes(p: Params, me: Id, s: Node) returns (header: BlockHeader, txHashes: seq<Hash>)
    requires p.N() > 0 && LiveOk(p, s) && Enabled(p, me, s, ProposeBlock)
    ensures Announced(p, me, s, ProposeBlock) == [Proposal(header, txHashes, s.cs.round)]
    ensures ProposesFrom(p, me, s, header, txHashes, s.cs.round)
    ensures var cs' := Apply(p, me, s, ProposeBlock).cs;
      && s.cs.round in cs'.proposals && cs'.proposals[s.cs.round].header == header
      && p.crypto.TxHashes(cs'.proposals[s.cs.round].transactions) == txHashes
  {
    var m := Announced(p, me, s, ProposeBlock)[0];
    header, txHashes := m.header, m.txHashes;
    AnnouncedProposes(p, me, s, ProposeBlock, m);
  }

  /** A handler took an engine from one reached moment to a later one, having taken in only votes that
      could be delivered: the system can take the same steps. */
  lemma ReplayHandler(cfg: Config, g: System, me: Id, base: Node,
                      a: seq<Action>, s: Node, said: seq<Message>, heard: seq<Action>,
                      b: seq<Action>, s': Node, said': seq<Message>, taken: seq<Action>)
    returns (g': System)
    requires cfg.Formed() && cfg.Honest(me) && Reachable(cfg, g)
    requires Reached(cfg.params, me, base, a, s, said, heard) && Reached(cfg.params, me, base, b, s', said', heard + taken) && a <= b
    requires me in g.nodes && g.nodes[me] == s
    requires taken == [] || (|taken| == 1 && a + taken <= b && taken[0].ReceiveVote? && MayTake(cfg, g, taken[0]))
    requires AllCast(said, g.sent)
    ensures Reachable(cfg, g') && g'.nodes == g.nodes[me := s']
    ensures g.sent <= g'.sent && AllCast(said', g'.sent)
  {
    var p := cfg.params;
    var states, moves :| IsRun(cfg, states, moves) && states[|moves|] == g;
    var m :| IsHistory(p, me, base, m, a) && m[|a|] == Moment(s, said, heard);
    var h :| IsHistory(p, me, base, h, b) && h[|b|] == Moment(s', said', heard + taken);
    HistoriesAgree(p, me, base, m, a, h, b, |a|);
    if taken != [] { TakenComesFirst(a, taken, b); }
    OnlyTheGiven(cfg, g, me, base, h, b, |a|, taken);
    var states', moves' := ReplayFrom(cfg, states, moves, me, base, h, b, |a|);
    g' := states'[|moves'|];
  }
}
