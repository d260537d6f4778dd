/** All engines on one network and clock: the honest ones, some faulty ones that equivocate, and beside them an
    adversary that may send anything in the name of faulty validators and repeat what it has seen. */
module Simulation {
  import opened Messages
  import opened Execution
  import opened Protocol
  import opened Consensus
  import opened Safety
  import opened Clock
  import opened Transport
  import opened Trace
  import opened Gossip
  import opened Engine
  import opened Replay

  lemma {:induction false} LoggedIsSaid(log: seq<(Id, Message)>, entry: (Id, Message))
    requires entry in log
    ensures entry.1 in SaidBy(log, entry.0)
  {
    if log[|log| - 1] != entry { LoggedIsSaid(log[..|log| - 1], entry); }
  }

  /** A vote sent point to point is a faulty validator's own, under the phase it was signed for. */
  ghost predicate FaultyDirects(cfg: Config, directs: seq<(Id, Id, Message)>) {
    forall entry :: entry in directs && entry.2.VoteMessage? ==>
      entry.2.phase == entry.2.vote.phase && !cfg.Honest(entry.2.vote.validator)
  }

  /** Only honest validators broadcast, and the votes they broadcast are their own, under the phase they were signed for. */
  ghost predicate HonestBroadcasts(cfg: Config, broadcasts: seq<(Id, Message)>) {
    forall entry :: entry in broadcasts ==> cfg.Honest(entry.0) && OwnBroadcast(entry.0, entry)
  }

  class Simulation {
    const cfg: Config
    const network: Network
    const engines: map<Id, ConsensusEngine>
    /** The state of the whole system, which some run reaches. With two, three or six validators, where a bucket may hold two
        quorums, nothing is said of it. */
    ghost var now: System

    /** An honest engine is where the run says its validator is, and everything it broadcast was cast. */
    ghost predicate InStep(i: Id)
      requires i in engines
      reads *
    {
      cfg.Honest(i) && cfg.params.Decisive() ==>
        && i in now.nodes && now.nodes[i] == engines[i].View()
        && AllCast(SaidBy(network.broadcasts, i), now.sent)
    }

    ghost predicate Sane(i: Id)
      requires i in engines
      reads *
    {
      var e := engines[i];
      e.me == i && e.p == cfg.params && e.network == network && e.equivocates == !cfg.Honest(i) && e.Valid()
    }

    ghost predicate Separate()
      reads *
    {
      forall i, j :: i in engines && j in engines && i != j ==>
        engines[i].cs != engines[j].cs && engines[i].store != engines[j].store
    }

    /** Two validators or more. */
    ghost predicate Sized() { cfg.Formed() && cfg.params.N() >= 2 }

    ghost predicate Wired()
      reads *
    {
      && Sized() && network.Valid() && Separate()
      && (forall i :: cfg.Honest(i) ==> i in engines)
      && HonestBroadcasts(cfg, network.broadcasts) && FaultyDirects(cfg, network.directs)
      && (cfg.params.Decisive() ==> Reachable(cfg, now))
    }

    ghost predicate Valid()
      reads *
    {
      Wired() && forall i :: i in engines ==> Sane(i) && InStep(i)
    }

    /** What the adversary may put on the wire: any message at all, with any signature, but it cannot forge an honest one. A
        vote whose signature checks for an honest validator can only be repeated, under the phase it was signed for. */
    predicate Permitted(m: Message)
      reads network
    {
      m.VoteMessage? && m.signature.Some? && cfg.params.crypto.check(m.vote.validator, VoteDomain(m.vote), m.signature.value) ==>
        m.phase == m.vote.phase &&
        (cfg.Honest(m.vote.validator) ==>
          exists entry :: entry in network.broadcasts && entry.1.VoteMessage? && entry.1.vote == m.vote)
    }

    lemma PermittedMayBeTaken(m: Message)
      requires Valid() && cfg.params.Decisive() && Permitted(m) && m.VoteMessage?
      ensures MayTake(cfg, now, ReceiveVote(m.phase, m.vote, m.signature))
    {
      if m.signature.Some? && cfg.params.crypto.check(m.vote.validator, VoteDomain(m.vote), m.signature.value) &&
         cfg.Honest(m.vote.validator)
      {
        var entry :| entry in network.broadcasts && entry.1.VoteMessage? && entry.1.vote == m.vote;
        LoggedIsSaid(network.broadcasts, entry);
        assert InStep(entry.0);
      }
    }

    /** A vote on the wire was sent by some engine, so it is permitted too. */
    lemma PendingIsPermitted(m: Message)
      requires Valid() && Logged(network.broadcasts, network.directs, m)
      ensures Permitted(m)
    {
    }

    /** Every engine has exactly one live round timer. */
    ghost predicate AllArmed()
      reads *
    {
      forall i :: i in engines ==> engines[i].TimerArmed()
    }

    /** Which is to say: one, and no other, of the events to come is a round timer of this validator that nobody cancelled,
        and it is the one its engine remembers. */
    lemma OneTimer(i: Id) returns (timer: Event)
      requires AllArmed() && i in engines && engines[i].me == i && engines[i].network == network
      ensures timer in network.clock.heap && timer.callback == RoundTimeout(i) && timer.id !in network.clock.cancelled
      ensures engines[i].timeoutEvent == Some(timer.id)
      ensures forall e :: e in network.clock.heap && e.callback == RoundTimeout(i) && e.id !in network.clock.cancelled ==> e.id == timer.id
    {
      assert engines[i].TimerArmed();
      var live := LiveTimers(network.clock.View(), i);
      timer :| timer in live;
      forall e | e in network.clock.heap && e.callback == RoundTimeout(i) && e.id !in network.clock.cancelled ensures e.id == timer.id {
        assert e in live;
      }
    }

    ghost predicate NotStarted(i: Id)
      requires i in engines
      reads *
    {
      var e := engines[i];
      e.View() == e.base == InitialNode && e.timeoutEvent == None && e.TimerQuiet()
    }

    /** The honest validators and those faulty ones that run the equivocating engine. */
    constructor (cfg: Config, running: set<Id>, settings: Settings, roundTimeout: nat)
      requires cfg.Formed() && cfg.params.N() >= 2 && running <= cfg.byzantine
      ensures Valid() && this.cfg == cfg && now == Consensus.Start(cfg) && network.config == settings
      ensures forall i :: i in engines <==> cfg.Honest(i) || i in running
      ensures forall i :: i in engines ==> NotStarted(i)
      ensures fresh(network) && fresh(network.clock)
      ensures forall i :: i in engines ==> fresh(engines[i]) && fresh(engines[i].cs) && fresh(engines[i].store)
    {
      hide Sound, Reached, Reachable, Params.WellFormed, NoStrayTimer, ConsensusEngine.Valid, Network.Valid, Made, Sane, InStep;
      this.cfg := cfg;
      var clock := new VirtualClock();
      var net := new Network(clock, settings);
      var es := MakeEngines(cfg, running, net, roundTimeout);
      network, engines := net, es;
      now := Consensus.Start(cfg);
      new;
      JustMade();
    }

    lemma JustMade()
      requires Sized() && network.Valid() && network.broadcasts == [] && network.directs == []
      requires network.clock.View() == Beginning && now == Consensus.Start(cfg) && Separate()
      requires forall i :: cfg.Honest(i) ==> i in engines
      requires forall i :: i in engines ==> Made(cfg, network, engines[i], i)
      ensures Valid() && forall i :: i in engines ==> NotStarted(i)
    {
      hide Sound, Reached, Params.WellFormed;
      StartCanBeReached(cfg, true);
      forall i | i in engines ensures InStep(i) && NotStarted(i) {
        assert LiveTimers(Beginning, i) == {};
      }
    }

    static method RegisterAll(net: Network, nodes: seq<Id>)
      requires net.Valid()
      modifies net`peers
      ensures net.Valid() && forall i :: i in net.peers <==> i in old(net.peers) || i in nodes
    {
      hide Network.Valid;
      for k := 0 to |nodes|
        invariant net.Valid() && forall i :: i in net.peers <==> i in old(net.peers) || i in nodes[..k]
      {
        net.Register(nodes[k]);
      }
    }

    static method MakeEngines(cfg: Config, running: set<Id>, net: Network, roundTimeout: nat) returns (es: map<Id, ConsensusEngine>)
      requires cfg.Formed() && running <= cfg.byzantine && net.Valid() && net.broadcasts == []
      modifies net`peers
      ensures net.Valid()
      ensures forall i :: i in es <==> cfg.Honest(i) || i in running
      ensures forall i :: i in es ==> fresh(es[i]) && fresh(es[i].cs) && fresh(es[i].store) && Made(cfg, net, es[i], i)
      ensures forall i, j :: i in es && j in es && i != j ==> es[i].cs != es[j].cs && es[i].store != es[j].store
    {
      hide Params.WellFormed, Network.Valid, Sound, Reached;
      var validators := cfg.params.validators;
      RegisterAll(net, validators);
      es := map[];
      for k := 0 to |validators|
        invariant net.Valid() && net.broadcasts == []
        invariant forall i :: i in es <==> i in validators[..k] && (cfg.Honest(i) || i in running)
        invariant forall i :: i in es ==> fresh(es[i]) && fresh(es[i].cs) && fresh(es[i].store) && Made(cfg, net, es[i], i)
        invariant forall i, j :: i in es && j in es && i != j ==> es[i].cs != es[j].cs && es[i].store != es[j].store
      {
        var v := validators[k];
        if cfg.Honest(v) || v in running {
          var e := MakeEngine(cfg, v, net, roundTimeout);
          es := es[v := e];
        }
      }
    }

    static ghost predicate Made(cfg: Config, net: Network, e: ConsensusEngine, i: Id)
      reads e, e.cs, e.store, net
    {
      && e.me == i && e.p == cfg.params && e.network == net && e.equivocates == !cfg.Honest(i) && e.Valid()
      && e.View() == e.base == InitialNode && e.timeoutEvent == None
    }

    static method MakeEngine(cfg: Config, i: Id, net: Network, roundTimeout: nat) returns (e: ConsensusEngine)
      requires cfg.Formed() && i in cfg.params.validators && net.Valid() && net.broadcasts == []
      ensures fresh(e) && fresh(e.cs) && fresh(e.store) && Made(cfg, net, e, i)
    {
      var store := new State();
      e := new ConsensusEngine(cfg.params, i, net, roundTimeout, [], store, [], !cfg.Honest(i));
    }

    /** Engine k moved, and the system with it if it is honest: the others, and what the system says of them, are as
        they were. */
    twostate lemma OthersUnmoved(k: Id)
      requires k in engines && OneMoved(cfg, k, engines[k].View(), old(now), now)
      requires old(forall j :: j in engines ==> Sane(j) && InStep(j))
      requires OnlyBy(k, !cfg.Honest(k), old(network.View()), network.View()) && CancelsIssued(network.clock.View())
      requires forall j :: j in engines && j != k ==> Kept(j)
      ensures forall j :: j in engines && j != k ==> Sane(j) && InStep(j)
      ensures forall j :: j in engines && j != k && old(engines[j].TimerArmed()) ==> engines[j].TimerArmed()
      ensures forall j :: j in engines && j != k && old(NotStarted(j)) ==> NotStarted(j)
    {
      hide OwnBroadcast, OwnDirect, LiveTimers, SaidBy, Reached, Params.WellFormed, Config.Formed;
      forall j | j in engines && j != k
        ensures Sane(j) && InStep(j) && (old(engines[j].TimerArmed()) ==> engines[j].TimerArmed())
        ensures old(NotStarted(j)) ==> NotStarted(j)
      {
        assert old(Sane(j) && InStep(j));
        if old(engines[j].TimerArmed()) { OthersArmed(k, !cfg.Honest(k), old(network.View()), network.View(), j, engines[j].timeoutEvent); }
      }
    }

    twostate predicate Kept(j: Id)
      requires j in engines
      reads *
    {
      unchanged(engines[j]) && unchanged(old(engines[j].cs)) && unchanged(engines[j].store)
    }

    /** Engine k can act, and shares nothing it owns with another engine. */
    lemma Poised(k: Id)
      requires Valid() && k in engines
      ensures var e := engines[k];
        && e.me == k && e.p == cfg.params && e.network == network && e.Ready()
        && cfg.Formed() && cfg.params.N() >= 2 && Tracks(cfg, e, now)
      ensures forall j :: j in engines && j != k ==>
        engines[j] != engines[k] && engines[j].cs != engines[k].cs && engines[j].store != engines[k].store
    {
      assert Sane(k) && InStep(k);
      forall j | j in engines && j != k ensures engines[j] != engines[k] {
        assert Sane(j);
      }
    }

    twostate lemma StillValid(k: Id)
      requires k in engines && old(Valid()) && engines[k].me == k && engines[k].network == network
      requires engines[k].Ready() && engines[k].TimerArmed() && Tracks(cfg, engines[k], now)
      requires OneMoved(cfg, k, engines[k].View(), old(now), now)
      requires OnlyBy(k, !cfg.Honest(k), old(network.View()), network.View())
      requires forall j :: j in engines && j != k ==> Kept(j)
      requires engines[k].cs == old(engines[k].cs) || forall j :: j in engines && j != k ==> engines[k].cs != engines[j].cs
      ensures Valid()
      ensures forall j :: j in engines && j != k && old(engines[j].TimerArmed()) ==> engines[j].TimerArmed()
      ensures forall j :: j in engines && j != k && old(NotStarted(j)) ==> NotStarted(j)
    {
      hide Reachable, Params.WellFormed, Network.Valid, ConsensusEngine.Valid, LiveTimers, FaultyDirects, HonestBroadcasts, Config.Formed;
      assert old(Sane(k) && InStep(k));
      assert Sane(k) && InStep(k);
      DirectsStayFaulty(cfg, k, old(network.View()), network.View());
      BroadcastsStayHonest(cfg, k, old(network.View()), network.View());
      hide OnlyBy;
      OthersUnmoved(k);
      assert Separate() by { assert old(Separate()); }
    }

    method Handle(to: Id, m: Message)
      requires Valid() && AllArmed() && to in engines && Permitted(m)
      modifies this`now, network, network.clock, engines[to], engines[to].cs, engines[to].store
      ensures Valid() && AllArmed()
      ensures network.clock.now == old(network.clock.now) && network.clock.fired == old(network.clock.fired)
      ensures engines[to].cs == old(engines[to].cs) || fresh(engines[to].cs)
      ensures old(engines[to].trace) + FirstSteps(cfg.params, to, old(engines[to].View()), m) <= engines[to].trace
      ensures m.BodyRequest? ==>
        var answer := BodyResponse(m.round, Bodies(m.txHashes, Pool(cfg.params.crypto, old(engines[to].mempool))));
        network.directs == old(network.directs) + [(to, m.requester, answer)]
    {
      hide Valid, Wired, InStep, Sane, Tracks, OneMoved, OnlyBy, Network.Valid, ConsensusEngine.Valid, Armed, NoStrayTimer;
      hide Config.Formed, FirstSteps, MayTake, Permitted, Bodies, Pool;
      Poised(to);
      if m.VoteMessage? && cfg.params.Decisive() { PermittedMayBeTaken(m); }
      now := DeliverTo(cfg, engines[to], m, now);
      forall j | j in engines && j != to ensures Kept(j) && engines[j].cs != engines[to].cs {
        assert engines[j].cs == old(engines[j].cs);
      }
      StillValid(to);
    }

    /** A round timer fires: the engine it belongs to moves to its next round. */
    method Expire(i: Id)
      requires Valid() && i in engines && engines[i].TimerQuiet()
      requires forall j :: j in engines && j != i ==> engines[j].TimerArmed()
      modifies this`now, network, network.clock, engines[i], engines[i].cs, engines[i].store
      ensures Valid() && AllArmed()
      ensures network.clock.now == old(network.clock.now) && network.clock.fired == old(network.clock.fired)
      ensures engines[i].cs == old(engines[i].cs) || fresh(engines[i].cs)
      ensures old(engines[i].trace) + [Action.EnterRound(old(engines[i].cs.round) + 1)] <= engines[i].trace
    {
      hide Valid, Wired, InStep, Sane, Tracks, OneMoved, OnlyBy, Network.Valid, ConsensusEngine.Valid, Armed, NoStrayTimer, Config.Formed;
      hide HonestBroadcasts, FaultyDirects, AllCast, Reachable, FirstSteps, Permitted, NotStarted;
      Poised(i);
      now := ExpireAt(cfg, engines[i], now);
      forall j | j in engines && j != i ensures Kept(j) && engines[j].cs != engines[i].cs {
        assert engines[j].cs == old(engines[j].cs);
      }
      StillValid(i);
    }

    /** A client hands an engine a transaction, or its pool is cleared. */
    method Client(i: Id, tx: Option<Transaction>)
      requires Valid() && AllArmed() && i in engines
      modifies this`now, engines[i]
      ensures Valid() && AllArmed() && engines[i].cs == old(engines[i].cs)
      ensures engines[i].View() == old(engines[i].View()).(mempool := engines[i].mempool)
      ensures engines[i].mempool == if tx.Some? then old(engines[i].mempool) + [tx.value] else []
    {
      hide Valid, Wired, InStep, Sane, Tracks, OneMoved, OnlyBy, Network.Valid, ConsensusEngine.Valid, Armed, NoStrayTimer, Config.Formed;
      Poised(i);
      now := ServeClient(cfg, engines[i], tx, now);
      forall j | j in engines && j != i ensures Kept(j) && engines[j].cs != engines[i].cs {
        assert engines[j].cs == old(engines[j].cs);
      }
      StillValid(i);
    }

    /** The first round of one engine. */
    method Launch(i: Id)
      requires Valid() && i in engines && NotStarted(i)
      modifies this`now, network, network.clock, engines[i], engines[i].cs, engines[i].store
      ensures Valid() && engines[i].TimerArmed() && network.clock.now == old(network.clock.now)
      ensures old(engines[i].trace) + [Action.EnterRound(0)] <= engines[i].trace
      ensures engines[i].cs == old(engines[i].cs) || fresh(engines[i].cs)
      ensures forall j :: j in engines && j != i && old(engines[j].TimerArmed()) ==> engines[j].TimerArmed()
      ensures forall j :: j in engines && j != i && old(NotStarted(j)) ==> NotStarted(j)
      ensures forall j :: j in engines && j != i ==> engines[j].cs == old(engines[j].cs)
    {
      hide Valid, Wired, InStep, Sane, Tracks, OneMoved, OnlyBy, Network.Valid, ConsensusEngine.Valid, Armed, NoStrayTimer, Config.Formed;
      Poised(i);
      now := StartAt(cfg, engines[i], now);
      forall j | j in engines && j != i ensures Kept(j) && engines[j].cs != engines[i].cs {
        assert engines[j].cs == old(engines[j].cs);
      }
      StillValid(i);
    }

    method Begin()
      requires Valid() && forall i :: i in engines ==> NotStarted(i)
      modifies this`now, network, network.clock
      modifies (set i | i in engines :: engines[i]), (set i | i in engines :: engines[i].cs), (set i | i in engines :: engines[i].store)
      ensures Valid() && AllArmed()
      ensures forall i :: i in engines ==> engines[i].cs == old(engines[i].cs) || fresh(engines[i].cs)
      ensures network.clock.now == old(network.clock.now)
    {
      hide *;
      var todo := engines.Keys;
      while todo != {}
        invariant todo <= engines.Keys && Valid()
        invariant forall i :: i in todo ==> NotStarted(i)
        invariant forall i :: i in engines && i !in todo ==> engines[i].TimerArmed()
        invariant forall i :: i in engines ==> engines[i].cs == old(engines[i].cs) || fresh(engines[i].cs)
        invariant network.clock.now == old(network.clock.now)
        decreases todo
      {
        var i :| i in todo;
        todo := todo - {i};
        Launch(i);
      }
      Started();
    }

    lemma Started()
      requires forall i :: i in engines ==> engines[i].TimerArmed()
      ensures AllArmed()
    {
    }

    /** Whatever the honest engines have finalized, one ledger's hashes are a prefix of another's. */
    ghost predicate Agreed()
      reads *
    {
      forall i, j :: i in engines && j in engines && cfg.Honest(i) && cfg.Honest(j) ==>
        var x := Hashes(cfg.params, engines[i].ledger);
        var y := Hashes(cfg.params, engines[j].ledger);
        x <= y || y <= x
    }

    /** When two quorums always share an honest validator, they agree. */
    lemma ValidIsAgreed()
      requires Valid()
      ensures cfg.Valid() ==> Agreed()
    {
      hide Sound, Reachable, Reached, Params.WellFormed;
      hide SystemOk;
      if cfg.Valid() {
        ReachableIsOk(cfg, now);
        forall i, j | i in engines && j in engines && cfg.Honest(i) && cfg.Honest(j)
          ensures var x := Hashes(cfg.params, engines[i].ledger); var y := Hashes(cfg.params, engines[j].ledger);
                  x <= y || y <= x
        {
          assert InStep(i) && InStep(j);
          SystemAgrees(cfg, now, i, j);
        }
      }
    }

    /** The run loop: at each turn the clock fires, drops or holds back its earliest event, the adversary
        delivers something it is permitted to send, or a client is served. The stop condition is arbitrary; the budget bounds the turns. */
    method Run(budget: nat, until: Option<int>)
      requires Valid() && AllArmed() && (until.Some? ==> until.value >= network.clock.now)
      modifies this`now, network, network.clock
      modifies (set i | i in engines :: engines[i]), (set i | i in engines :: engines[i].cs), (set i | i in engines :: engines[i].store)
      ensures Valid() && AllArmed() && (cfg.Valid() ==> Agreed())
      ensures old(network.clock.now) <= network.clock.now && old(network.clock.fired) <= network.clock.fired
      ensures until.Some? ==> network.clock.now <= until.value
    {
      hide *;
      var left := budget;
      ValidIsAgreed();
      while left > 0 && network.clock.heap != {}
        invariant Valid() && AllArmed() && (cfg.Valid() ==> Agreed())
        invariant old(network.clock.now) <= network.clock.now && old(network.clock.fired) <= network.clock.fired
        invariant until.Some? ==> until.value >= network.clock.now
        invariant forall i :: i in engines ==> engines[i].cs == old(engines[i].cs) || fresh(engines[i].cs)
        decreases left
      {
        left := left - 1;
        var stop: bool, interfere: bool, serve: bool := *, *, *;
        if stop { return; }
        if serve {
          var to: Id, tx: Option<Transaction> := *, *;
          if to in engines { Client(to, tx); }
        } else if interfere {
          var to: Id, m: Message := *, *;
          if to in engines && Permitted(m) { Handle(to, m); }
        } else {
          var _ := Turn(until);
        }
        ValidIsAgreed();
      }
    }

    /** One turn: the clock takes its earliest event; a round timer that fires advances its engine's round, a message
        that comes due is handled by its receiver. */
    method Turn(until: Option<int>) returns (due: Option<Callback>)
      requires Valid() && AllArmed() && (until.Some? ==> until.value >= network.clock.now)
      modifies this`now, network, network.clock
      modifies (set i | i in engines :: engines[i]), (set i | i in engines :: engines[i].cs), (set i | i in engines :: engines[i].store)
      ensures Valid() && AllArmed() && (until.Some? ==> until.value >= network.clock.now)
      ensures forall i :: i in engines ==> engines[i].cs == old(engines[i].cs) || fresh(engines[i].cs)
      ensures old(network.clock.now) <= network.clock.now && old(network.clock.fired) <= network.clock.fired
      ensures Took(old(network.clock.View()), until, network.clock.fired, due)
      ensures forall i :: i in engines && due == Some(RoundTimeout(i)) ==>
        old(engines[i].trace) + [Action.EnterRound(old(engines[i].cs.round) + 1)] <= engines[i].trace
      ensures forall i, m :: i in engines && due == Some(Deliver(i, m)) ==>
        old(engines[i].trace) + FirstSteps(cfg.params, i, old(engines[i].View()), m) <= engines[i].trace
    {
      hide *;
      due := Tick(until);
      if due.Some? {
        match due.value
        case RoundTimeout(i) => if i in engines { Expire(i); }
        case Deliver(to, m) => if to in engines { Handle(to, m); }
      }
    }

    /** The clock's turn: nothing but the engine of a fired timer notices it, and a message that comes due is one
        the adversary could have sent too. */
    method Tick(until: Option<int>) returns (due: Option<Callback>)
      requires Valid() && AllArmed() && (until.Some? ==> until.value >= network.clock.now)
      modifies network.clock
      ensures Valid() && (until.Some? ==> until.value >= network.clock.now)
      ensures old(network.clock.now) <= network.clock.now && old(network.clock.fired) <= network.clock.fired
      ensures Took(old(network.clock.View()), until, network.clock.fired, due)
      ensures forall i :: i in engines && due == Some(RoundTimeout(i)) ==>
        && engines[i].TimerQuiet() && network.clock.fired != []
        && engines[i].timeoutEvent == Some(network.clock.fired[|network.clock.fired| - 1].id)
      ensures forall i :: i in engines && due != Some(RoundTimeout(i)) ==> engines[i].TimerArmed()
      ensures due.Some? && due.value.Deliver? ==> Permitted(due.value.message)
      ensures (exists i :: i in engines && due == Some(RoundTimeout(i))) || AllArmed()
    {
      hide Sound, Reachable, ConsensusEngine.Valid, Config.Formed, LiveTimers, NoStrayTimer, Armed, IsMin, SaidBy, AllCast, Do;
      var turn := network.TakeTurn(until);
      due := if turn.Due? then Some(turn.event.callback) else None;
      forall i | i in engines
        ensures Sane(i) && InStep(i)
        ensures if due == Some(RoundTimeout(i)) then engines[i].TimerQuiet() && engines[i].timeoutEvent == Some(turn.event.id)
                else engines[i].TimerArmed()
      {
        assert old(Sane(i) && InStep(i) && engines[i].TimerArmed());
        if !turn.Idle? { TurnKeepsArmed(old(network.clock.View()), turn.event, until, i, engines[i].timeoutEvent); }
      }
      if due.Some? && due.value.Deliver? && due.value.message.VoteMessage? { PendingIsPermitted(due.value.message); }
    }
  }

  // ---- one engine moves, and the system with it ----

  /** The state of the system says where an honest engine is; of a faulty one it says nothing. */
  ghost predicate Tracks(cfg: Config, e: ConsensusEngine, g: System)
    reads e, e.cs, e.store, e.network
  {
    && e.equivocates == !cfg.Honest(e.me) && cfg.Formed()
    && (cfg.params.Decisive() ==>
          && Reachable(cfg, g)
          && (cfg.Honest(e.me) ==>
                e.me in g.nodes && g.nodes[e.me] == e.View() && AllCast(SaidBy(e.network.broadcasts, e.me), g.sent)))
  }

  /** An honest validator moved to a new state, or a faulty one did, of which the system says nothing. */
  ghost predicate OneMoved(cfg: Config, k: Id, s: Node, g: System, g': System) {
    if cfg.Honest(k) && cfg.params.Decisive() then g'.nodes == g.nodes[k := s] && g.sent <= g'.sent else g' == g
  }

  lemma OthersArmed(me: Id, equivocates: bool, before: Traffic, after: Traffic, other: Id, timer: Option<nat>)
    requires OnlyBy(me, equivocates, before, after) && other != me && Armed(before.clock, other, timer)
    requires CancelsIssued(after.clock)
    ensures Armed(after.clock, other, timer)
  {
  }

  lemma DirectsStayFaulty(cfg: Config, k: Id, before: Traffic, after: Traffic)
    requires OnlyBy(k, !cfg.Honest(k), before, after) && FaultyDirects(cfg, before.directs)
    ensures FaultyDirects(cfg, after.directs)
  {
    forall entry | entry in after.directs && entry.2.VoteMessage?
      ensures entry.2.phase == entry.2.vote.phase && !cfg.Honest(entry.2.vote.validator)
    {
      var i :| 0 <= i < |after.directs| && after.directs[i] == entry;
      if i < |before.directs| { assert entry == before.directs[i]; }
    }
  }

  lemma BroadcastsStayHonest(cfg: Config, k: Id, before: Traffic, after: Traffic)
    requires OnlyBy(k, !cfg.Honest(k), before, after) && HonestBroadcasts(cfg, before.broadcasts)
    ensures HonestBroadcasts(cfg, after.broadcasts)
  {
    forall entry | entry in after.broadcasts ensures cfg.Honest(entry.0) && OwnBroadcast(entry.0, entry) {
      var i :| 0 <= i < |after.broadcasts| && after.broadcasts[i] == entry;
      if i < |before.broadcasts| { assert entry == before.broadcasts[i]; }
    }
  }

  /** Where an engine was, to tell what the system has to catch up on. */
  ghost predicate WasAt(e: ConsensusEngine, trace: seq<Action>, s: Node, said: seq<Message>, heard: seq<Action>) {
    e.p.N() > 0 && (e.Rulebound() ==> Reached(e.p, e.me, e.base, trace, s, said, heard))
  }

  /** The system takes the steps an honest engine has taken. */
  lemma CatchUp(cfg: Config, e: ConsensusEngine, g: System,
                a: seq<Action>, s: Node, said: seq<Message>, heard: seq<Action>, taken: seq<Action>)
    returns (g': System)
    requires cfg.Formed() && e.p == cfg.params && e.Valid() && (cfg.params.Decisive() ==> Reachable(cfg, g))
    requires e.equivocates == !cfg.Honest(e.me) && WasAt(e, a, s, said, heard)
    requires cfg.params.Decisive() && cfg.Honest(e.me) ==> e.me in g.nodes && g.nodes[e.me] == s && AllCast(said, g.sent)
    requires a <= e.trace && e.heard == heard + taken
    requires cfg.params.Decisive() ==>
      taken == [] || (|taken| == 1 && a + taken <= e.trace && taken[0].ReceiveVote? && MayTake(cfg, g, taken[0]))
    ensures Tracks(cfg, e, g') && OneMoved(cfg, e.me, e.View(), g, g')
  {
    g' := g;
    if cfg.Honest(e.me) && cfg.params.Decisive() {
      g' := ReplayHandler(cfg, g, e.me, e.base, a, s, said, heard,
                          e.trace, e.View(), SaidBy(e.network.broadcasts, e.me), taken);
    }
  }

  /** One engine handles one message; the system takes the same steps. */
  method DeliverTo(cfg: Config, e: ConsensusEngine, m: Message, ghost g: System) returns (ghost g': System)
    requires cfg.Formed() && cfg.params.N() >= 2 && e.p == cfg.params && Tracks(cfg, e, g)
    requires e.Ready() && e.TimerArmed()
    requires cfg.params.Decisive() && m.VoteMessage? ==> MayTake(cfg, g, ReceiveVote(m.phase, m.vote, m.signature))
    modifies e, e.cs, e.store, e.network, e.network.clock
    ensures e.Ready() && e.TimerArmed() && (e.cs == old(e.cs) || fresh(e.cs))
    ensures OnlyBy(e.me, e.equivocates, old(e.network.View()), e.network.View())
    ensures old(e.trace) + FirstSteps(cfg.params, e.me, old(e.View()), m) <= e.trace
    ensures m.BodyRequest? ==>
      var answer := BodyResponse(m.round, Bodies(m.txHashes, Pool(cfg.params.crypto, old(e.mempool))));
      e.network.directs == old(e.network.directs) + [(e.me, m.requester, answer)]
    ensures Tracks(cfg, e, g') && OneMoved(cfg, e.me, e.View(), g, g')
  {
    ghost var a, s, said, heard := e.trace, e.View(), SaidBy(e.network.broadcasts, e.me), e.heard;
    e.Receive(m);
    g' := CatchUp(cfg, e, g, a, s, said, heard, TakenFrom(cfg.params, e.me, s, m));
  }

  method ServeClient(cfg: Config, e: ConsensusEngine, tx: Option<Transaction>, ghost g: System) returns (ghost g': System)
    requires cfg.Formed() && cfg.params.N() >= 2 && e.p == cfg.params && Tracks(cfg, e, g)
    requires e.Ready() && e.TimerArmed()
    modifies e`mempool, e`trace
    ensures e.Ready() && e.TimerArmed()
    ensures OnlyBy(e.me, e.equivocates, old(e.network.View()), e.network.View())
    ensures e.mempool == if tx.Some? then old(e.mempool) + [tx.value] else []
    ensures Tracks(cfg, e, g') && OneMoved(cfg, e.me, e.View(), g, g')
  {
    ghost var a, s, said, heard := e.trace, e.View(), SaidBy(e.network.broadcasts, e.me), e.heard;
    if tx.Some? { e.SubmitTx(tx.value); } else { e.ResetMempool(); }
    OnlyByRefl(e.me, e.equivocates, e.network.View());
    g' := CatchUp(cfg, e, g, a, s, said, heard, []);
  }

  method ExpireAt(cfg: Config, e: ConsensusEngine, ghost g: System) returns (ghost g': System)
    requires cfg.Formed() && cfg.params.N() >= 2 && e.p == cfg.params && Tracks(cfg, e, g)
    requires e.Ready() && e.TimerQuiet()
    modifies e, e.cs, e.store, e.network, e.network.clock
    ensures e.Ready() && e.TimerArmed() && (e.cs == old(e.cs) || fresh(e.cs))
    ensures OnlyBy(e.me, e.equivocates, old(e.network.View()), e.network.View())
    ensures Tracks(cfg, e, g') && OneMoved(cfg, e.me, e.View(), g, g')
    ensures old(e.trace) + [Action.EnterRound(old(e.cs.round) + 1)] <= e.trace
  {
    ghost var a, s, said, heard := e.trace, e.View(), SaidBy(e.network.broadcasts, e.me), e.heard;
    e.OnRoundTimeout();
    g' := CatchUp(cfg, e, g, a, s, said, heard, []);
  }

  method StartAt(cfg: Config, e: ConsensusEngine, ghost g: System) returns (ghost g': System)
    requires cfg.Formed() && cfg.params.N() >= 2 && e.p == cfg.params && Tracks(cfg, e, g)
    requires e.Ready() && e.View() == e.base && e.TimerQuiet()
    modifies e, e.cs, e.store, e.network, e.network.clock
    ensures e.Ready() && e.TimerArmed() && (e.cs == old(e.cs) || fresh(e.cs))
    ensures OnlyBy(e.me, e.equivocates, old(e.network.View()), e.network.View())
    ensures Tracks(cfg, e, g') && OneMoved(cfg, e.me, e.View(), g, g')
    ensures old(e.trace) + [Action.EnterRound(0)] <= e.trace
  {
    ghost var a, s, said, heard := e.trace, e.View(), SaidBy(e.network.broadcasts, e.me), e.heard;
    e.Start();
    g' := CatchUp(cfg, e, g, a, s, said, heard, []);
  }
}
