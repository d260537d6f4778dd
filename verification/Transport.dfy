/** Sending: the sliding-window rate limiter, and the only way a message reaches the clock. */
module Transport {
  import opened Messages
  import opened Clock

  /** A send that reached the limiter's count, and whether it was let through. */
  datatype Attempt = Attempt(time: int, passed: bool)

  function Since(times: seq<int>, start: int): seq<int> {
    if times == [] then []
    else Since(times[..|times| - 1], start) + (if times[|times| - 1] >= start then [times[|times| - 1]] else [])
  }

  function Times(history: seq<Attempt>): (ts: seq<int>)
    ensures |ts| == |history| && forall k :: 0 <= k < |history| ==> ts[k] == history[k].time
  {
    seq(|history|, k requires 0 <= k < |history| => history[k].time)
  }

  /** How many attempts, passed or not, the whole history holds from a given time on. */
  function Recent(history: seq<Attempt>, start: int): nat { |Since(Times(history), start)| }

  ghost predicate Monotone(history: seq<Attempt>) {
    forall i, j :: 0 <= i < j < |history| ==> history[i].time <= history[j].time
  }

  predicate Fair(history: seq<Attempt>, k: nat, window: nat, limit: nat)
    requires k < |history|
  {
    history[k].passed <==> Recent(history[..k + 1], history[k].time - window) <= limit
  }

  /** Each attempt passes exactly when the window that ends with it holds no more than the limit,
      counted over the full history. */
  ghost predicate Limited(history: seq<Attempt>, window: nat, limit: nat) {
    Monotone(history) && forall k: nat :: k < |history| ==> Fair(history, k, window, limit)
  }

  lemma FairPrefix(history: seq<Attempt>, m: nat, k: nat, window: nat, limit: nat)
    requires k < m <= |history|
    ensures Fair(history[..m], k, window, limit) == Fair(history, k, window, limit)
  {
    assert history[..m][..k + 1] == history[..k + 1];
  }

  /** What the pruned list holds: the full history cut to the window at the last attempt. */
  function Pruned(history: seq<Attempt>, window: nat): seq<int> {
    if history == [] then [] else Since(Times(history), history[|history| - 1].time - window)
  }

  lemma {:induction false} SinceSince(times: seq<int>, a: int, b: int)
    requires a <= b
    ensures Since(Since(times, a), b) == Since(times, b)
  {
    if times != [] {
      var k := |times| - 1;
      SinceSince(times[..k], a, b);
      if times[k] >= a {
        assert Since(times, a)[..|Since(times, a)| - 1] == Since(times[..k], a);
      } else {
        assert Since(times, a) == Since(times[..k], a) && Since(times, b) == Since(times[..k], b);
      }
    }
  }

  lemma SinceAppends(times: seq<int>, time: int, start: int)
    requires time >= start
    ensures Since(times + [time], start) == Since(times, start) + [time]
  {
    assert (times + [time])[..|times|] == times;
  }

  /** Pruning the pruned list is pruning the history. */
  lemma PruneAgain(history: seq<Attempt>, window: nat, attempt: Attempt)
    requires Monotone(history) && (history != [] ==> history[|history| - 1].time <= attempt.time)
    ensures Since(Pruned(history, window), attempt.time - window) + [attempt.time] == Pruned(history + [attempt], window)
    ensures Monotone(history + [attempt])
  {
    var times, start := Times(history), attempt.time - window;
    assert history == [] ==> Since(times, start) == [] == Since([], start);
    hide Since;
    PrunedLast(history, window, attempt);
    SinceAppends(times, attempt.time, start);
    hide Times;
    if history != [] { SinceSince(times, history[|history| - 1].time - window, start); }
  }

  lemma PrunedLast(history: seq<Attempt>, window: nat, attempt: Attempt)
    ensures Pruned(history + [attempt], window) == Since(Times(history) + [attempt.time], attempt.time - window)
  {
    hide Since;
    assert Times(history + [attempt]) == Times(history) + [attempt.time];
  }

  /** The passed attempts inside a closed time interval. */
  function PassedIn(history: seq<Attempt>, from: int, to: int): nat {
    if history == [] then 0
    else var a := history[|history| - 1];
      PassedIn(history[..|history| - 1], from, to) + (if a.passed && from <= a.time <= to then 1 else 0)
  }

  lemma {:induction false} PassedAtMostRecent(history: seq<Attempt>, from: int, to: int, start: int)
    requires start <= from
    ensures PassedIn(history, from, to) <= Recent(history, start)
  {
    if history != [] {
      var k := |history| - 1;
      PassedAtMostRecent(history[..k], from, to, start);
      assert Times(history)[..k] == Times(history[..k]);
    }
  }

  lemma LimitedPrefix(history: seq<Attempt>, k: nat, window: nat, limit: nat)
    requires Limited(history, window, limit) && k <= |history|
    ensures Limited(history[..k], window, limit)
  {
    forall j: nat | j < k ensures Fair(history[..k], j, window, limit) {
      FairPrefix(history, k, j, window, limit);
    }
  }

  /** In every time window, wherever it starts, at most `limit` sends of one sender pass. */
  lemma {:induction false} WindowBound(history: seq<Attempt>, window: nat, limit: nat, from: int)
    requires Limited(history, window, limit)
    ensures PassedIn(history, from, from + window) <= limit
  {
    if history != [] {
      var k := |history| - 1;
      var a := history[k];
      if a.passed && from <= a.time <= from + window {
        assert Fair(history, k, window, limit) && history[..k + 1] == history;
        PassedAtMostRecent(history, from, from + window, a.time - window);
      } else {
        LimitedPrefix(history, k, window, limit);
        WindowBound(history[..k], window, limit, from);
      }
    }
  }

  /** The pruned list stands for the full history of a sender. */
  ghost predicate Tracked(history: seq<Attempt>, times: seq<int>, now: int, window: nat, limit: nat) {
    && Limited(history, window, limit)
    && (history != [] ==> history[|history| - 1].time <= now)
    && times == Pruned(history, window)
  }

  lemma LimitedGrows(history: seq<Attempt>, attempt: Attempt, window: nat, limit: nat)
    requires Limited(history, window, limit) && Monotone(history + [attempt])
    requires attempt.passed <==> |Pruned(history + [attempt], window)| <= limit
    ensures Limited(history + [attempt], window, limit)
  {
    var more := history + [attempt];
    forall k: nat | k < |more| ensures Fair(more, k, window, limit) {
      if k < |history| {
        assert more[..|history|] == history;
        FairPrefix(more, |history|, k, window, limit);
      } else {
        assert more[..k + 1] == more;
      }
    }
  }

  lemma NothingTracked(now: int, window: nat, limit: nat)
    ensures Tracked([], [], now, window, limit)
  {
  }

  lemma CountedStaysTracked(history: seq<Attempt>, times: seq<int>, now: int, window: nat, limit: nat, times': seq<int>, passed: bool)
    requires Tracked(history, times, now, window, limit)
    requires times' == Since(times, now - window) + [now] && passed == (|times'| <= limit)
    ensures Tracked(history + [Attempt(now, passed)], times', now, window, limit)
  {
    PruneAgain(history, window, Attempt(now, passed));
    LimitedGrows(history, Attempt(now, passed), window, limit);
  }

  lemma LastIsFair(history: seq<Attempt>, attempt: Attempt, times: seq<int>, now: int, window: nat, limit: nat)
    requires Tracked(history + [attempt], times, now, window, limit)
    ensures attempt.passed <==> Recent(history + [attempt], attempt.time - window) <= limit
  {
    var more := history + [attempt];
    assert Fair(more, |history|, window, limit) && more[..|history| + 1] == more;
  }

  /** A block that lasts until the given time was earned: by an attempt that did not pass, the block duration before. */
  ghost predicate Earned(history: seq<Attempt>, until: int, blockDuration: nat) {
    exists k :: 0 <= k < |history| && !history[k].passed && until == history[k].time + blockDuration
  }

  lemma EarnedStays(history: seq<Attempt>, attempt: Attempt, until: int, blockDuration: nat)
    requires Earned(history, until, blockDuration)
    ensures Earned(history + [attempt], until, blockDuration)
  {
    var k :| 0 <= k < |history| && !history[k].passed && until == history[k].time + blockDuration;
    assert (history + [attempt])[k] == history[k];
  }

  lemma EarnedNow(history: seq<Attempt>, now: int, blockDuration: nat)
    ensures Earned(history + [Attempt(now, false)], now + blockDuration, blockDuration)
  {
    assert (history + [Attempt(now, false)])[|history|] == Attempt(now, false);
  }

  /** Every block was earned by its sender. */
  ghost predicate AllEarned(attempts: map<Id, seq<Attempt>>, blockedUntil: map<(Id, Id), int>, blockDuration: nat) {
    forall receiver, sender :: (receiver, sender) in blockedUntil ==>
      Earned(HistoryOf(attempts, sender), blockedUntil[(receiver, sender)], blockDuration)
  }

  /** Counting one more send keeps it so. */
  lemma CountingEarns(attempts: map<Id, seq<Attempt>>, blockedUntil: map<(Id, Id), int>, blockDuration: nat,
                      sender: Id, to: Id, now: int, passed: bool)
    requires AllEarned(attempts, blockedUntil, blockDuration)
    ensures AllEarned(attempts[sender := HistoryOf(attempts, sender) + [Attempt(now, passed)]],
                      if passed then blockedUntil - {(to, sender)} else blockedUntil[(to, sender) := now + blockDuration], blockDuration)
  {
    var counted := HistoryOf(attempts, sender) + [Attempt(now, passed)];
    var blocked' := if passed then blockedUntil - {(to, sender)} else blockedUntil[(to, sender) := now + blockDuration];
    hide Earned;
    forall receiver, other | (receiver, other) in blocked'
      ensures Earned(HistoryOf(attempts[sender := counted], other), blocked'[(receiver, other)], blockDuration)
    {
      if !passed && (receiver, other) == (to, sender) {
        EarnedNow(HistoryOf(attempts, sender), now, blockDuration);
      } else if other == sender {
        EarnedStays(HistoryOf(attempts, sender), Attempt(now, passed), blockedUntil[(receiver, other)], blockDuration);
      }
    }
  }

  /** The history of a sender, empty before its first attempt. */
  function HistoryOf(attempts: map<Id, seq<Attempt>>, sender: Id): seq<Attempt> {
    if sender in attempts then attempts[sender] else []
  }

  /** The clock moved on only by deliveries being scheduled: no time passed, nothing fired, no timer changed. */
  ghost predicate OnlySends(before: Timeline, after: Timeline) {
    && after == before.(heap := after.heap, last := after.last)
    && before.last <= after.last && before.heap <= after.heap
    && (forall e :: e in after.heap && e !in before.heap ==> e.callback.Deliver?)
    && (forall node :: LiveTimers(after, node) == LiveTimers(before, node))
  }

  lemma NothingSent(t: Timeline)
    ensures OnlySends(t, t)
  {
  }

  /** The clock after some copies of a message were put on their way, all with one delay. */
  function Sent(t: Timeline, to: Id, message: Message, delay: nat, copies: nat): Timeline {
    if copies == 0 then t else Do(Sent(t, to, message, delay, copies - 1), Schedule(delay, Deliver(to, message)))
  }

  ghost predicate IdsFit(t: Timeline) { forall e :: e in t.heap ==> e.id <= t.last }

  /** What was added for one receiver. */
  ghost function ComingTo(before: set<Event>, after: set<Event>, to: Id): set<Event> {
    set e | e in after && e !in before && e.callback.Deliver? && e.callback.to == to
  }

  lemma OneMoreComing(before: set<Event>, after: set<Event>, e: Event)
    requires before <= after && e !in after && e.callback.Deliver?
    ensures |ComingTo(before, after + {e}, e.callback.to)| == |ComingTo(before, after, e.callback.to)| + 1
  {
    assert ComingTo(before, after + {e}, e.callback.to) == ComingTo(before, after, e.callback.to) + {e};
  }

  /** Each copy is one more delivery, and nothing else is added. */
  lemma {:induction false} SentAdds(t: Timeline, to: Id, message: Message, delay: nat, copies: nat)
    requires IdsFit(t)
    ensures var u := Sent(t, to, message, delay, copies);
      && IdsFit(u) && u == t.(heap := u.heap, last := t.last + copies) && t.heap <= u.heap
      && (forall e :: e in u.heap && e !in t.heap ==> e.callback == Deliver(to, message) && e.when == t.now + delay)
      && |ComingTo(t.heap, u.heap, to)| == copies
  {
    if copies == 0 {
      assert ComingTo(t.heap, t.heap, to) == {};
    } else {
      SentAdds(t, to, message, delay, copies - 1);
      var u := Sent(t, to, message, delay, copies - 1);
      hide ComingTo;
      OneMoreComing(t.heap, u.heap, Event(t.now + delay, u.last + 1, Deliver(to, message)));
    }
  }

  /** How the network treats messages; the settings of the source, in ticks. */
  datatype Settings = Settings(
    minDelay: nat, maxDelay: nat, boundedDelay: nat, reorderList: seq<nat>, stabilized: bool,
    rateLimit: nat, rateWindow: nat, blockDuration: nat)
  {
    /** The delays a message may have when so many were already taken from the reorder list: the next of the list,
        else the bounded delay once stabilized, else anything between the two limits. */
    predicate Timely(taken: nat, delay: nat) {
      if taken < |reorderList| then delay == reorderList[taken]
      else if stabilized then delay == boundedDelay
      else minDelay <= delay <= maxDelay || maxDelay <= delay <= minDelay
    }

    function TakenNext(taken: nat): nat { if taken < |reorderList| then taken + 1 else taken }
  }

  /** All that a send depends on and changes: the clock, what the limiter remembers, and how much of the reorder list is
      used up. */
  datatype Wire = Wire(clock: Timeline, attempts: map<Id, seq<Attempt>>, blockedUntil: map<(Id, Id), int>, taken: nat)

  /** Up to the time recorded for the pair a send is suppressed and not counted. From then on, or if no time is recorded,
      it is counted, and passes exactly when the window that ends with it holds no more than the limit; if it does not
      pass, the pair is blocked from now on for the block duration, and otherwise it is no longer blocked. */
  ghost predicate Metered(config: Settings, before: Wire, sender: Id, to: Id, passed: bool, after: Wire) {
    var pair, now := (to, sender), before.clock.now;
    if config.rateLimit == 0 then passed && after.attempts == before.attempts && after.blockedUntil == before.blockedUntil
    else if pair in before.blockedUntil && now < before.blockedUntil[pair] then
      !passed && after.attempts == before.attempts && after.blockedUntil == before.blockedUntil
    else
      var counted := HistoryOf(before.attempts, sender) + [Attempt(now, passed)];
      && after.attempts == before.attempts[sender := counted]
      && (passed <==> Recent(counted, now - config.rateWindow) <= config.rateLimit)
      && after.blockedUntil == if passed then before.blockedUntil - {pair} else before.blockedUntil[pair := now + config.blockDuration]
  }

  /** One message to one receiver: suppressed, lost, or on its way once or twice with one delay the settings allow, in
      which case the reorder list is used up by one. Nothing let through is lost once stabilized. */
  ghost predicate SentOnce(config: Settings, before: Wire, sender: Id, to: Id, message: Message, copies: nat, after: Wire) {
    exists passed, delay :: SentWith(config, before, sender, to, message, passed, delay, copies, after)
  }

  ghost predicate SentWith(config: Settings, before: Wire, sender: Id, to: Id, message: Message,
                           passed: bool, delay: nat, copies: nat, after: Wire)
  {
    && Metered(config, before, sender, to, passed, after)
    && copies <= 2 && (copies > 0 ==> passed) && (config.stabilized && passed ==> copies > 0)
    && after.clock == Sent(before.clock, to, message, delay, copies)
    && (if copies > 0 then config.Timely(before.taken, delay) && after.taken == config.TakenNext(before.taken)
        else after.taken == before.taken)
  }

  /** The message went to each of these peers but the sender, one after the other. */
  ghost predicate SentToAll(config: Settings, before: Wire, sender: Id, peers: seq<Id>, message: Message, after: Wire) {
    if peers == [] then after == before
    else
      var k := |peers| - 1;
      if peers[k] == sender then SentToAll(config, before, sender, peers[..k], message, after)
      else exists mid, copies: nat ::
        SentToAll(config, before, sender, peers[..k], message, mid) && SentOnce(config, mid, sender, peers[k], message, copies, after)
  }

  lemma NotSent(config: Settings, before: Wire, sender: Id, to: Id, message: Message, passed: bool, after: Wire)
    requires Metered(config, before, sender, to, passed, after) && !(config.stabilized && passed)
    requires after.clock == before.clock && after.taken == before.taken
    ensures SentOnce(config, before, sender, to, message, 0, after)
  {
    assert SentWith(config, before, sender, to, message, passed, 0, 0, after);
  }

  lemma WasSent(config: Settings, before: Wire, metered: Wire, sender: Id, to: Id, message: Message, delay: nat, copies: nat, after: Wire)
    requires Metered(config, before, sender, to, true, metered) && 0 < copies <= 2
    requires metered.clock == before.clock && metered.taken == before.taken && config.Timely(before.taken, delay)
    requires after.clock == Sent(before.clock, to, message, delay, copies) && after.taken == config.TakenNext(before.taken)
    requires after.attempts == metered.attempts && after.blockedUntil == metered.blockedUntil
    ensures SentOnce(config, before, sender, to, message, copies, after)
  {
    assert SentWith(config, before, sender, to, message, true, delay, copies, after);
  }

  lemma NothingToSend(config: Settings, before: Wire, sender: Id, message: Message)
    ensures SentToAll(config, before, sender, [], message, before)
  {
  }

  lemma IdsAreIssued(t: Timeline)
    requires Sound(t)
    ensures IdsFit(t)
  {
  }

  lemma SentToAllGrows(config: Settings, before: Wire, sender: Id, peers: seq<Id>, i: nat, message: Message,
                       mid: Wire, copies: nat, after: Wire)
    requires i < |peers| && SentToAll(config, before, sender, peers[..i], message, mid)
    requires if peers[i] == sender then after == mid else SentOnce(config, mid, sender, peers[i], message, copies, after)
    ensures SentToAll(config, before, sender, peers[..i + 1], message, after)
  {
    assert peers[..i + 1][..i] == peers[..i];
  }

  /** Once stabilized and unlimited, every send arrives. */
  predicate Lossless(config: Settings) { config.stabilized && config.rateLimit == 0 }

  ghost predicate Delivers(config: Settings, before: set<Event>, after: set<Event>, sender: Id, to: Id) {
    |ComingTo(before, after, to)| <= 2 && (Lossless(config) && to != sender ==> ComingTo(before, after, to) != {})
  }

  lemma SentOnceAdds(config: Settings, before: Wire, sender: Id, to: Id, message: Message, copies: nat, after: Wire)
    requires IdsFit(before.clock) && SentOnce(config, before, sender, to, message, copies, after)
    ensures IdsFit(after.clock) && before.clock.heap <= after.clock.heap
    ensures forall e :: e in after.clock.heap && e !in before.clock.heap ==> e.callback == Deliver(to, message)
    ensures Delivers(config, before.clock.heap, after.clock.heap, sender, to)
  {
    var passed, delay :| SentWith(config, before, sender, to, message, passed, delay, copies, after);
    SentAdds(before.clock, to, message, delay, copies);
  }

  /** Sending to all peers adds nothing but deliveries of the message, to peers other than the sender, two at most for each
      of them, and at least one for each when nothing is lost. */
  lemma {:induction false} SentToAllAdds(config: Settings, before: Wire, sender: Id, peers: seq<Id>, message: Message, after: Wire)
    requires IdsFit(before.clock) && Distinct(peers) && SentToAll(config, before, sender, peers, message, after)
    ensures IdsFit(after.clock) && before.clock.heap <= after.clock.heap
    ensures forall e :: e in after.clock.heap && e !in before.clock.heap ==>
              e.callback.Deliver? && e.callback.message == message && e.callback.to in peers && e.callback.to != sender
    ensures forall to :: to in peers ==> Delivers(config, before.clock.heap, after.clock.heap, sender, to)
  {
    hide SentOnce;
    if peers != [] {
      var k := |peers| - 1;
      var last := peers[k];
      assert peers == peers[..k] + [last];
      var mid, copies: nat;
      if last == sender {
        mid := after;
      } else {
        mid, copies :| SentToAll(config, before, sender, peers[..k], message, mid) &&
          SentOnce(config, mid, sender, last, message, copies, after);
      }
      SentToAllAdds(config, before, sender, peers[..k], message, mid);
      if last != sender { SentOnceAdds(config, mid, sender, last, message, copies, after); }
      forall to | to in peers ensures Delivers(config, before.clock.heap, after.clock.heap, sender, to) {
        if to != last {
          assert ComingTo(before.clock.heap, after.clock.heap, to) == ComingTo(before.clock.heap, mid.clock.heap, to);
        } else if last != sender {
          assert ComingTo(before.clock.heap, after.clock.heap, to) == ComingTo(mid.clock.heap, after.clock.heap, to);
        } else {
          assert ComingTo(before.clock.heap, after.clock.heap, to) == {};
        }
      }
    }
  }

  /** What one sender has broadcast, in order. */
  function SaidBy(log: seq<(Id, Message)>, sender: Id): seq<Message> {
    if log == [] then []
    else SaidBy(log[..|log| - 1], sender) + (if log[|log| - 1].0 == sender then [log[|log| - 1].1] else [])
  }

  predicate InLog(log: seq<(Id, Message)>, message: Message) { exists entry :: entry in log && entry.1 == message }

  lemma SaidAfter(log: seq<(Id, Message)>, entry: (Id, Message))
    ensures forall sender :: SaidBy(log + [entry], sender) == SaidBy(log, sender) + if entry.0 == sender then [entry.1] else []
  {
    assert (log + [entry])[..|log + [entry]| - 1] == log;
  }

  /** A vote on the wire: broadcast, or sent to somebody. */
  predicate Logged(broadcasts: seq<(Id, Message)>, directs: seq<(Id, Id, Message)>, message: Message) {
    InLog(broadcasts, message) || exists entry :: entry in directs && entry.2 == message
  }

  lemma LoggedGrows(broadcasts: seq<(Id, Message)>, directs: seq<(Id, Id, Message)>, entry: (Id, Id, Message))
    ensures forall m :: Logged(broadcasts, directs, m) ==> Logged(broadcasts, directs + [entry], m)
    ensures Logged(broadcasts, directs + [entry], entry.2)
  {
    assert entry in directs + [entry];
    forall m | Logged(broadcasts, directs, m) ensures Logged(broadcasts, directs + [entry], m) {
      if !InLog(broadcasts, m) {
        var e :| e in directs && e.2 == m;
        assert e in directs + [entry];
      }
    }
  }

  /** What anybody can tell of the network: the clock, and everything ever sent. */
  datatype Traffic = Traffic(clock: Timeline, peers: seq<Id>, broadcasts: seq<(Id, Message)>, directs: seq<(Id, Id, Message)>)

  /** A point-to-point message of a validator. Only one that equivocates sends votes this way, and they are its own,
      under the phase they were signed for. */
  predicate OwnDirect(me: Id, equivocates: bool, entry: (Id, Id, Message)) {
    entry.0 == me && (entry.2.VoteMessage? ==> equivocates && entry.2.vote.validator == me && entry.2.phase == entry.2.vote.phase)
  }

  /** A broadcast of a validator: a vote is its own, under the phase it was signed for. */
  predicate OwnBroadcast(me: Id, entry: (Id, Message)) {
    entry.0 == me && (entry.1.VoteMessage? ==> entry.1.vote.validator == me && entry.1.phase == entry.1.vote.phase)
  }

  /** No time passed and nothing fired, and only one validator sent anything or touched its timers.
      One that equivocates sends point to point alone. */
  ghost predicate OnlyBy(me: Id, equivocates: bool, before: Traffic, after: Traffic) {
    && after.clock.now == before.clock.now && after.clock.fired == before.clock.fired && before.clock.last <= after.clock.last
    && after.peers == before.peers
    && (forall other :: other != me ==>
          && LiveTimers(after.clock, other) == LiveTimers(before.clock, other)
          && SaidBy(after.broadcasts, other) == SaidBy(before.broadcasts, other))
    && before.broadcasts <= after.broadcasts
    && (forall k :: |before.broadcasts| <= k < |after.broadcasts| ==> OwnBroadcast(me, after.broadcasts[k]))
    && (equivocates ==> after.broadcasts == before.broadcasts)
    && before.directs <= after.directs
    && (forall k :: |before.directs| <= k < |after.directs| ==> OwnDirect(me, equivocates, after.directs[k]))
  }

  lemma OnlyByRefl(me: Id, equivocates: bool, t: Traffic)
    ensures OnlyBy(me, equivocates, t, t)
  {
  }

  lemma OnlyByTrans(me: Id, equivocates: bool, a: Traffic, b: Traffic, c: Traffic)
    requires OnlyBy(me, equivocates, a, b) && OnlyBy(me, equivocates, b, c)
    ensures OnlyBy(me, equivocates, a, c)
  {
    hide LiveTimers, SaidBy, OwnDirect, OwnBroadcast;
    assert forall k :: |a.broadcasts| <= k < |b.broadcasts| ==> c.broadcasts[k] == b.broadcasts[k];
    assert forall k :: |a.directs| <= k < |b.directs| ==> c.directs[k] == b.directs[k];
  }

  /** Broadcasting one message. */
  lemma BroadcastIsBy(me: Id, before: Traffic, after: Traffic, message: Message)
    requires OnlySends(before.clock, after.clock) && after.peers == before.peers && after.directs == before.directs
    requires after.broadcasts == before.broadcasts + [(me, message)] && OwnBroadcast(me, (me, message))
    ensures OnlyBy(me, false, before, after)
  {
    SaidAfter(before.broadcasts, (me, message));
  }

  /** Sending one message to one receiver. */
  lemma DirectIsBy(me: Id, equivocates: bool, before: Traffic, after: Traffic, to: Id, message: Message)
    requires OnlySends(before.clock, after.clock) && after.peers == before.peers && after.broadcasts == before.broadcasts
    requires after.directs == before.directs + [(me, to, message)] && OwnDirect(me, equivocates, (me, to, message))
    ensures OnlyBy(me, equivocates, before, after)
  {
  }

  class Network {
    const clock: VirtualClock
    const config: Settings
    var peers: seq<Id>
    var sendTimes: map<Id, seq<int>>
    var blockedUntil: map<(Id, Id), int>
    var orderIndex: nat
    /** Every counted send of every sender, never pruned. */
    ghost var attempts: map<Id, seq<Attempt>>
    /** Every broadcast ever asked for, with its sender. */
    var broadcasts: seq<(Id, Message)>
    /** Every point-to-point send: sender, receiver, message. */
    ghost var directs: seq<(Id, Id, Message)>

    /** The recorded times stand for the attempts. */
    ghost predicate CountsOk()
      reads this, clock
    {
      && sendTimes.Keys == attempts.Keys
      && forall s :: s in attempts ==> Tracked(attempts[s], sendTimes[s], clock.now, config.rateWindow, config.rateLimit)
    }

    ghost predicate LimiterOk()
      reads this, clock
    {
      CountsOk() && AllEarned(attempts, blockedUntil, config.blockDuration)
    }

    /** Every vote on its way was once sent. */
    ghost predicate WireOk()
      reads this, clock
    {
      forall e :: e in clock.heap && e.callback.Deliver? && e.callback.message.VoteMessage? ==>
        Logged(broadcasts, directs, e.callback.message)
    }

    ghost function View(): Traffic
      reads this, clock
    {
      Traffic(clock.View(), peers, broadcasts, directs)
    }

    ghost function State(): Wire
      reads this, clock
    {
      Wire(clock.View(), attempts, blockedUntil, orderIndex)
    }

    ghost predicate Valid()
      reads this, clock
    {
      clock.Valid() && LimiterOk() && WireOk() && Distinct(peers)
    }

    constructor (clock: VirtualClock, config: Settings)
      requires clock.Valid() && clock.heap == {}
      ensures Valid() && blockedUntil == map[] && this.clock == clock && this.config == config
      ensures peers == [] && attempts == map[] && broadcasts == [] && directs == [] && orderIndex == 0
    {
      this.clock, this.config := clock, config;
      peers, sendTimes, blockedUntil, attempts, broadcasts, directs, orderIndex := [], map[], map[], map[], [], [], 0;
    }

    /** No sender gets more than the limit through in any window, wherever the window starts. */
    lemma SenderBound(sender: Id, from: int)
      requires Valid()
      ensures PassedIn(HistoryOf(attempts, sender), from, from + config.rateWindow) <= config.rateLimit
    {
      hide AllEarned, Sound, Limited;
      if sender in attempts { WindowBound(attempts[sender], config.rateWindow, config.rateLimit, from); }
    }

    /** No block outlasts its duration: once every attempt of a sender that did not pass lies that far back, nobody blocks
        it any more. */
    lemma BlocksEnd(sender: Id, receiver: Id)
      requires Valid()
      requires forall k :: 0 <= k < |HistoryOf(attempts, sender)| && !HistoryOf(attempts, sender)[k].passed ==>
                 HistoryOf(attempts, sender)[k].time + config.blockDuration <= clock.now
      ensures (receiver, sender) in blockedUntil ==> blockedUntil[(receiver, sender)] <= clock.now
    {
    }

    method Register(node: Id)
      requires Valid()
      modifies this`peers
      ensures Valid() && peers == if node in old(peers) then old(peers) else old(peers) + [node]
    {
      if node !in peers { peers := peers + [node]; }
    }

    /** One turn of the clock's run loop. */
    method TakeTurn(until: Option<int>) returns (turn: Turn)
      requires Valid() && (until.Some? ==> until.value >= clock.now)
      modifies clock
      ensures Valid() && (until.Some? ==> until.value >= clock.now)
      ensures turn.Idle? <==> old(clock.heap) == {}
      ensures turn.Idle? ==> clock.View() == old(clock.View())
      ensures !turn.Idle? ==> IsMin(old(clock.heap), turn.event) && clock.View() == Do(old(clock.View()), Step(turn.event, until))
      ensures turn.Due? ==> turn.event.id !in old(clock.cancelled) && turn.event !in old(clock.fired)
      ensures turn.Due? ==> clock.fired == old(clock.fired) + [turn.event]
      ensures !turn.Due? ==> clock.fired == old(clock.fired)
      ensures old(clock.now) <= clock.now
      ensures Took(old(clock.View()), until, clock.fired, if turn.Due? then Some(turn.event.callback) else None)
    {
      turn := clock.TakeTurn(until);
      if !turn.Idle? {
        assert Pending(old(clock.View()), turn.event.id);
        DoKeepsSound(old(clock.View()), Step(turn.event, until));
        forall e | e in old(clock.fired) ensures e != turn.event {
          assert Fired(old(clock.View()), e.id);
        }
      }
    }

    /** True when the message must be suppressed. A sender still blocked towards this receiver is not counted;
        otherwise the send is counted, and going over the limit blocks the pair. */
    method RateLimitBlocks(sender: Id, receiver: Id) returns (blocked: bool)
      requires Valid()
      modifies this`sendTimes, this`blockedUntil, this`attempts
      ensures Valid()
      ensures var pair := (receiver, sender);
        if pair in old(blockedUntil) && clock.now < old(blockedUntil)[pair] then
          blocked && attempts == old(attempts) && blockedUntil == old(blockedUntil)
        else
          var counted := HistoryOf(old(attempts), sender) + [Attempt(clock.now, !blocked)];
          && attempts == old(attempts)[sender := counted]
          && (blocked <==> Recent(counted, clock.now - config.rateWindow) > config.rateLimit)
          && blockedUntil == if blocked then old(blockedUntil)[pair := clock.now + config.blockDuration]
                             else old(blockedUntil) - {pair}
    {
      hide Sound, Tracked, AllEarned, Recent;
      var now := clock.now;
      var pair := (receiver, sender);
      ghost var before, blocks := attempts, blockedUntil;
      if pair in blockedUntil {
        if now < blockedUntil[pair] { return true; }
        blockedUntil := blockedUntil - {pair};
      }
      blocked := CountSend(sender);
      CountingEarns(before, blocks, config.blockDuration, sender, receiver, now, !blocked);
      if blocked { blockedUntil := blockedUntil[pair := now + config.blockDuration]; }
      assert blockedUntil == if blocked then blocks[pair := now + config.blockDuration] else blocks - {pair};
    }

    /** Prune the sender's recorded times to the window, add this one, and compare with the limit. */
    method CountSend(sender: Id) returns (over: bool)
      requires CountsOk()
      modifies this`sendTimes, this`attempts
      ensures CountsOk()
      ensures var counted := HistoryOf(old(attempts), sender) + [Attempt(clock.now, !over)];
        attempts == old(attempts)[sender := counted] && (over <==> Recent(counted, clock.now - config.rateWindow) > config.rateLimit)
    {
      hide Sound, Tracked, Since, Recent;
      var now := clock.now;
      ghost var history := HistoryOf(attempts, sender);
      var recorded := if sender in sendTimes then sendTimes[sender] else [];
      var times := Since(recorded, now - config.rateWindow) + [now];
      over := |times| > config.rateLimit;
      ghost var counted := history + [Attempt(now, !over)];
      NothingTracked(now, config.rateWindow, config.rateLimit);
      CountedStaysTracked(history, recorded, now, config.rateWindow, config.rateLimit, times, !over);
      LastIsFair(history, Attempt(now, !over), times, now, config.rateWindow, config.rateLimit);
      sendTimes := sendTimes[sender := times];
      attempts := attempts[sender := counted];
    }

    /** Loss and duplication are arbitrary choices, as is the delay between its limits. */
    method Send(sender: Id, to: Id, message: Message) returns (copies: nat)
      requires Valid() && (message.VoteMessage? ==> Logged(broadcasts, directs, message))
      modifies this`sendTimes, this`blockedUntil, this`attempts, this`orderIndex, clock
      ensures Valid() && OnlySends(old(clock.View()), clock.View())
      ensures SentOnce(config, old(State()), sender, to, message, copies, State())
      ensures copies <= 2 && (config.stabilized && config.rateLimit == 0 ==> copies > 0)
      ensures copies == 0 ==> clock.View() == old(clock.View()) && orderIndex == old(orderIndex)
    {
      hide Sound, Tracked, Logged, LiveTimers, AllEarned, Recent, Sent;
      copies := 0;
      ghost var before := State();
      if config.rateLimit > 0 {
        var blocked := RateLimitBlocks(sender, to);
        if blocked {
          NotSent(config, before, sender, to, message, false, State());
          return;
        }
      }
      ghost var metered := State();
      var lost: bool, twice: bool := *, *;
      if config.stabilized || !lost {
        var delay := ChooseDelay();
        copies := Dispatch(to, message, delay, if twice then 2 else 1);
        WasSent(config, before, metered, sender, to, message, delay, copies, State());
      } else {
        NotSent(config, before, sender, to, message, true, State());
      }
    }

    method ChooseDelay() returns (delay: nat)
      modifies this`orderIndex
      ensures config.Timely(old(orderIndex), delay) && orderIndex == config.TakenNext(old(orderIndex))
      ensures if old(orderIndex) < |config.reorderList|
        then delay == config.reorderList[old(orderIndex)] && orderIndex == old(orderIndex) + 1
        else orderIndex == old(orderIndex) &&
             if config.stabilized then delay == config.boundedDelay
             else config.minDelay <= delay <= config.maxDelay || config.maxDelay <= delay <= config.minDelay
    {
      if config.stabilized {
        delay := config.boundedDelay;
      } else {
        var low, high := config.minDelay, config.maxDelay;
        if low > high { low, high := high, low; }
        delay :| low <= delay <= high;
      }
      if orderIndex < |config.reorderList| {
        delay := config.reorderList[orderIndex];
        orderIndex := orderIndex + 1;
      }
    }

    method Dispatch(to: Id, message: Message, delay: nat, copies: nat) returns (sent: nat)
      requires Valid() && (message.VoteMessage? ==> Logged(broadcasts, directs, message))
      modifies clock
      ensures Valid() && OnlySends(old(clock.View()), clock.View())
      ensures sent == copies && clock.View() == Sent(old(clock.View()), to, message, delay, copies)
    {
      hide Sound, Logged;
      NothingSent(clock.View());
      for i := 0 to copies
        invariant Valid() && OnlySends(old(clock.View()), clock.View())
        invariant clock.View() == Sent(old(clock.View()), to, message, delay, i)
      {
        DeliveryKeepsTimers(clock.View(), delay, to, message);
        var _ := clock.ScheduleAfter(delay, Deliver(to, message));
      }
      sent := copies;
    }

    method SendDirect(sender: Id, to: Id, message: Message) returns (copies: nat)
      requires Valid()
      modifies this`sendTimes, this`blockedUntil, this`attempts, this`directs, this`orderIndex, clock
      ensures Valid() && OnlySends(old(clock.View()), clock.View())
      ensures directs == old(directs) + [(sender, to, message)]
      ensures SentOnce(config, old(State()), sender, to, message, copies, State())
    {
      hide Sound, Tracked, LiveTimers, Sent, SentOnce;
      LoggedGrows(broadcasts, directs, (sender, to, message));
      directs := directs + [(sender, to, message)];
      copies := Send(sender, to, message);
    }

    method Broadcast(sender: Id, message: Message)
      requires Valid()
      modifies this`sendTimes, this`blockedUntil, this`attempts, this`broadcasts, this`orderIndex, clock
      ensures Valid() && OnlySends(old(clock.View()), clock.View())
      ensures broadcasts == old(broadcasts) + [(sender, message)]
      ensures SentToAll(config, old(State()), sender, peers, message, State())
      ensures forall to :: to in peers ==> Delivers(config, old(clock.heap), clock.heap, sender, to)
      ensures forall e :: e in clock.heap && e !in old(clock.heap) ==>
                e.callback.message == message && e.callback.to in peers && e.callback.to != sender
    {
      hide Sound, Tracked, LiveTimers, Sent, SentOnce, SentToAll, Delivers;
      assert forall m :: Logged(broadcasts, directs, m) ==> Logged(broadcasts + [(sender, message)], directs, m);
      broadcasts := broadcasts + [(sender, message)];
      assert (sender, message) in broadcasts;
      NothingToSend(config, State(), sender, message);
      for i := 0 to |peers|
        invariant Valid() && OnlySends(old(clock.View()), clock.View())
        invariant broadcasts == old(broadcasts) + [(sender, message)]
        invariant SentToAll(config, old(State()), sender, peers[..i], message, State())
      {
        ghost var mid := State();
        var copies := 0;
        if peers[i] != sender { copies := Send(sender, peers[i], message); }
        SentToAllGrows(config, old(State()), sender, peers, i, message, mid, copies, State());
      }
      assert peers[..|peers|] == peers;
      IdsAreIssued(old(clock.View()));
      SentToAllAdds(config, old(State()), sender, peers, message, State());
    }
  }
}
