/** The discrete-event clock: a priority queue on (time, id) with lazy cancellation. */
module Clock {
  import opened Messages

  datatype Event = Event(when: int, id: nat, callback: Callback)

  /** Strictly later in (time, id). */
  predicate After(a: Event, b: Event) { a.when > b.when || (a.when == b.when && a.id > b.id) }

  predicate IsMin(heap: set<Event>, e: Event) { e in heap && forall x :: x in heap && x != e ==> After(x, e) }

  /** The clock together with its history: what fired, in order, and what was dropped as cancelled. */
  datatype Timeline = Timeline(
    now: int, heap: set<Event>, last: nat, cancelled: set<nat>, fired: seq<Event>, dropped: set<nat>)

  const Beginning := Timeline(0, {}, 0, {}, [], {})

  predicate Pending(t: Timeline, id: nat) { exists e :: e in t.heap && e.id == id }

  predicate Fired(t: Timeline, id: nat) { exists e :: e in t.fired && e.id == id }

  predicate Dropped(t: Timeline, id: nat) { id in t.dropped }

  /** Every id ever given out is exactly one of pending, fired once, or dropped. */
  ghost predicate Conserved(t: Timeline) {
    && (forall e :: e in t.heap ==> 1 <= e.id <= t.last)
    && (forall e :: e in t.fired ==> 1 <= e.id <= t.last)
    && (forall id :: id in t.dropped ==> 1 <= id <= t.last)
    && (forall d, e :: d in t.heap && e in t.heap && d.id == e.id ==> d == e)
    && (forall i, j :: 0 <= i < j < |t.fired| ==> t.fired[i].id != t.fired[j].id)
    && (forall id :: 1 <= id <= t.last ==> Pending(t, id) || Fired(t, id) || Dropped(t, id))
    && (forall id :: Pending(t, id) ==> !Fired(t, id) && !Dropped(t, id))
    && (forall id :: Fired(t, id) ==> !Dropped(t, id))
  }

  /** Events fire in strictly increasing (time, id), and nothing pending is behind. */
  ghost predicate Ordered(t: Timeline) {
    && (forall i, j :: 0 <= i < j < |t.fired| ==> After(t.fired[j], t.fired[i]))
    && (forall e :: e in t.heap ==> e.when >= t.now)
    && (forall e :: e in t.fired ==> e.when <= t.now)
    && (forall d, e :: d in t.heap && e in t.fired ==> After(d, e))
  }

  ghost predicate Sound(t: Timeline) {
    Conserved(t) && Ordered(t)
  }

  // ---- operations ----

  datatype Operation = Schedule(delay: nat, callback: Callback) | Cancel(id: nat) | Step(event: Event, until: Option<int>)

  predicate Doable(t: Timeline, op: Operation) {
    match op
    case Schedule(_, _) => true
    case Cancel(_) => true
    case Step(e, until) => IsMin(t.heap, e) && (until.Some? ==> until.value >= t.now)
  }

  /** One turn of the run loop on the earliest event: drop it, put it back and stop, or fire it. */
  function Do(t: Timeline, op: Operation): Timeline {
    match op
    case Schedule(delay, callback) =>
      t.(heap := t.heap + {Event(t.now + delay, t.last + 1, callback)}, last := t.last + 1)
    case Cancel(id) => t.(cancelled := t.cancelled + {id})
    case Step(e, until) =>
      if e.id in t.cancelled then
        t.(heap := t.heap - {e}, cancelled := t.cancelled - {e.id}, dropped := t.dropped + {e.id})
      else if until.Some? && e.when > until.value then t.(now := until.value)
      else t.(heap := t.heap - {e}, now := e.when, fired := t.fired + [e])
  }

  lemma ScheduleConserves(t: Timeline, delay: nat, callback: Callback)
    requires Sound(t)
    ensures Conserved(Do(t, Schedule(delay, callback)))
  {
    var t' := Do(t, Schedule(delay, callback));
    var added := Event(t.now + delay, t.last + 1, callback);
    forall id ensures Fired(t', id) == Fired(t, id) {}
    forall id | 1 <= id <= t'.last ensures Pending(t', id) || Fired(t', id) || Dropped(t', id) {
      if id == t'.last { assert added in t'.heap; }
      else if Pending(t, id) { var e :| e in t.heap && e.id == id; assert e in t'.heap; }
    }
    forall id | Pending(t', id) ensures !Fired(t', id) && !Dropped(t', id) {
      var e :| e in t'.heap && e.id == id;
      if e in t.heap { assert Pending(t, id); }
    }
  }

  lemma ScheduleKeepsSound(t: Timeline, delay: nat, callback: Callback)
    requires Sound(t)
    ensures Sound(Do(t, Schedule(delay, callback)))
  {
    ScheduleConserves(t, delay, callback);
  }

  lemma RemoveMin(t: Timeline, t': Timeline, e: Event)
    requires Sound(t) && IsMin(t.heap, e) && t'.heap == t.heap - {e}
    ensures forall id :: Pending(t', id) <==> Pending(t, id) && id != e.id
  {
    forall id ensures Pending(t', id) <==> Pending(t, id) && id != e.id {
      if Pending(t, id) && id != e.id { var d :| d in t.heap && d.id == id; assert d in t'.heap; }
      if Pending(t', id) { var d :| d in t'.heap && d.id == id; assert d in t.heap; }
    }
  }

  lemma DropKeepsSound(t: Timeline, e: Event, until: Option<int>)
    requires Sound(t) && IsMin(t.heap, e) && e.id in t.cancelled
    ensures Sound(Do(t, Step(e, until)))
  {
    var t' := Do(t, Step(e, until));
    RemoveMin(t, t', e);
    assert Pending(t, e.id);
    forall id ensures Fired(t', id) == Fired(t, id) {}
  }

  lemma FiredIs(t: Timeline, t': Timeline, e: Event)
    requires t'.fired == t.fired + [e]
    ensures forall id :: Fired(t', id) <==> Fired(t, id) || id == e.id
  {
    forall id ensures Fired(t', id) <==> Fired(t, id) || id == e.id {
      assert e in t'.fired;
      if Fired(t, id) { var d :| d in t.fired && d.id == id; assert d in t'.fired; }
    }
  }

  lemma FireConserves(t: Timeline, e: Event, until: Option<int>)
    requires Sound(t) && IsMin(t.heap, e) && e.id !in t.cancelled
    requires until.Some? ==> e.when <= until.value
    ensures Conserved(Do(t, Step(e, until)))
  {
    var t' := Do(t, Step(e, until));
    RemoveMin(t, t', e);
    FiredIs(t, t', e);
    assert Pending(t, e.id);
    hide IsMin, Ordered;
    forall i | 0 <= i < |t.fired| ensures t'.fired[i].id != e.id {
      assert t.fired[i] in t.fired;
      assert Fired(t, t.fired[i].id);
    }
  }

  lemma FireOrders(t: Timeline, e: Event, until: Option<int>)
    requires Sound(t) && IsMin(t.heap, e) && e.id !in t.cancelled
    requires until.Some? ==> e.when <= until.value
    ensures Ordered(Do(t, Step(e, until)))
  {
    var t' := Do(t, Step(e, until));
    forall i | 0 <= i < |t.fired| ensures After(e, t'.fired[i]) { assert t.fired[i] in t.fired; }
  }

  /** Nothing but the time or the cancellation marks changed. */
  lemma SameEventsKeepSound(t: Timeline, t': Timeline)
    requires Sound(t) && t' == t.(now := t'.now, cancelled := t'.cancelled) && t'.now >= t.now
    requires forall e :: e in t.heap ==> e.when >= t'.now
    ensures Sound(t')
  {
    forall id ensures Pending(t', id) == Pending(t, id) && Fired(t', id) == Fired(t, id) {}
  }

  lemma DoKeepsSound(t: Timeline, op: Operation)
    requires Sound(t) && Doable(t, op)
    ensures Sound(Do(t, op)) && Do(t, op).now >= t.now
  {
    match op
    case Schedule(delay, callback) => ScheduleKeepsSound(t, delay, callback);
    case Cancel(id) => SameEventsKeepSound(t, Do(t, op));
    case Step(e, until) =>
      if e.id in t.cancelled { DropKeepsSound(t, e, until); }
      else if until.Some? && e.when > until.value { SameEventsKeepSound(t, Do(t, op)); }
      else {
        FireConserves(t, e, until);
        FireOrders(t, e, until);
      }
  }

  /** What a turn calls back, if anything. */
  function CalledBy(t: Timeline, e: Event, until: Option<int>): Option<Callback> {
    if e.id in t.cancelled || (until.Some? && e.when > until.value) then None else Some(e.callback)
  }

  /** What one turn of the clock fires: its earliest event, unless that is cancelled or beyond the limit. */
  ghost predicate Took(t: Timeline, until: Option<int>, fired: seq<Event>, due: Option<Callback>) {
    if t.heap == {} then fired == t.fired && due == None
    else exists e :: IsMin(t.heap, e) && due == CalledBy(t, e, until) && fired == if due.Some? then t.fired + [e] else t.fired
  }

  ghost predicate Runs(t: Timeline, ops: seq<Operation>)
    decreases |ops|
  {
    ops == [] || (Doable(t, ops[0]) && Runs(Do(t, ops[0]), ops[1..]))
  }

  ghost function Outcome(t: Timeline, ops: seq<Operation>): Timeline
    requires Runs(t, ops)
    decreases |ops|
  {
    if ops == [] then t else Outcome(Do(t, ops[0]), ops[1..])
  }

  /** Over any run from the start, with events scheduled by callbacks and runs resumed after a pause,
      events fire in strictly increasing (time, id), none is lost or fired twice, and time never goes back. */
  lemma {:induction false} RunIsSound(t: Timeline, ops: seq<Operation>)
    requires Sound(t) && Runs(t, ops)
    ensures Sound(Outcome(t, ops)) && Outcome(t, ops).now >= t.now && t.fired <= Outcome(t, ops).fired
    decreases |ops|
  {
    if ops != [] {
      DoKeepsSound(t, ops[0]);
      RunIsSound(Do(t, ops[0]), ops[1..]);
    }
  }

  lemma BeginningIsSound()
    ensures Sound(Beginning)
  {
  }

  /** An id cancelled before it fired, or even before it was given out, stays so until it is dropped. */
  ghost predicate Doomed(t: Timeline, id: nat) { !Fired(t, id) && (Dropped(t, id) || id in t.cancelled) }

  lemma StaysDoomed(t: Timeline, op: Operation, id: nat)
    requires Sound(t) && Doable(t, op) && Doomed(t, id)
    ensures Doomed(Do(t, op), id)
  {
    if op.Step? && op.event.id == id {
      assert op.event in t.heap && Pending(t, id);
    }
    forall e | e in Do(t, op).fired ensures e.id != id {
      if e in t.fired { assert Fired(t, e.id); }
    }
  }

  lemma {:induction false} CancelledNeverFires(t: Timeline, ops: seq<Operation>, id: nat)
    requires Sound(t) && Runs(t, ops) && Doomed(t, id)
    ensures Doomed(Outcome(t, ops), id) && !Fired(Outcome(t, ops), id)
    decreases |ops|
  {
    if ops != [] {
      var t' := Do(t, ops[0]);
      DoKeepsSound(t, ops[0]);
      StaysDoomed(t, ops[0], id);
      CancelledNeverFires(t', ops[1..], id);
    }
  }

  /** Equal but for cancellation marks of ids that were given out and are no longer pending. */
  ghost predicate SameButStale(t: Timeline, u: Timeline) {
    && u == t.(cancelled := u.cancelled)
    && (forall e :: e in t.heap ==> (e.id in t.cancelled <==> e.id in u.cancelled))
    && (forall id :: id > t.last ==> (id in t.cancelled <==> id in u.cancelled))
  }

  /** Cancelling an event that already fired or was dropped changes nothing that happens later. */
  lemma LateCancelIsHarmless(t: Timeline, id: nat, ops: seq<Operation>)
    requires Sound(t) && (Fired(t, id) || Dropped(t, id)) && Runs(t, ops)
    ensures Runs(Do(t, Cancel(id)), ops)
    ensures var t' := Outcome(t, ops); var u' := Outcome(Do(t, Cancel(id)), ops);
      u'.fired == t'.fired && u'.dropped == t'.dropped && u'.heap == t'.heap && u'.now == t'.now
  {
    var u := Do(t, Cancel(id));
    assert !Pending(t, id);
    forall e | e in t.heap ensures e.id != id { assert Pending(t, e.id); }
    DoKeepsSound(t, Cancel(id));
    StaleRun(t, u, ops);
  }

  lemma {:induction false} StaleRun(t: Timeline, u: Timeline, ops: seq<Operation>)
    requires Sound(t) && Sound(u) && SameButStale(t, u) && Runs(t, ops)
    ensures Runs(u, ops) && SameButStale(Outcome(t, ops), Outcome(u, ops))
    decreases |ops|
  {
    if ops != [] {
      DoKeepsSound(t, ops[0]);
      assert Doable(u, ops[0]);
      DoKeepsSound(u, ops[0]);
      assert SameButStale(Do(t, ops[0]), Do(u, ops[0]));
      StaleRun(Do(t, ops[0]), Do(u, ops[0]), ops[1..]);
    }
  }

  // ---- round timers ----

  /** The round timers of a validator that may still fire. */
  ghost function LiveTimers(t: Timeline, node: Id): set<Event> {
    set e | e in t.heap && e.callback == RoundTimeout(node) && e.id !in t.cancelled
  }

  /** Only ids already given out are marked cancelled. */
  ghost predicate CancelsIssued(t: Timeline) { forall id :: id in t.cancelled ==> id <= t.last }

  /** No live round timer but the one the validator remembers. */
  ghost predicate NoStrayTimer(t: Timeline, node: Id, timer: Option<nat>) {
    && CancelsIssued(t)
    && (forall e :: e in LiveTimers(t, node) ==> timer == Some(e.id))
    && (timer.Some? ==> timer.value <= t.last)
    && (timer.Some? ==> forall e :: e in t.heap && e.id == timer.value ==> e.callback == RoundTimeout(node))
  }

  /** Exactly one live round timer, the one the validator remembers. */
  ghost predicate Armed(t: Timeline, node: Id, timer: Option<nat>) {
    CancelsIssued(t) && timer.Some? && timer.value <= t.last && exists e :: LiveTimers(t, node) == {e} && e.id == timer.value
  }

  lemma ArmedIsNotStray(t: Timeline, node: Id, timer: Option<nat>)
    requires Sound(t) && Armed(t, node, timer)
    ensures NoStrayTimer(t, node, timer)
  {
    var e :| LiveTimers(t, node) == {e} && e.id == timer.value;
    assert e in LiveTimers(t, node);
  }

  /** Of all live timers a turn of the loop takes away only the event that fires. */
  lemma TurnAndTimers(t: Timeline, e: Event, until: Option<int>, node: Id)
    requires Sound(t) && IsMin(t.heap, e)
    ensures var u := Do(t, Step(e, until));
      LiveTimers(u, node) == if e in u.fired && e !in t.fired then LiveTimers(t, node) - {e} else LiveTimers(t, node)
  {
    assert Pending(t, e.id);
    forall d | d in t.heap && d.id == e.id ensures d == e {}
    assert forall d :: d in t.fired ==> d.id != e.id by {
      forall d | d in t.fired ensures d.id != e.id { assert Fired(t, d.id); }
    }
  }

  /** A turn leaves a validator's timer armed, unless it is the one that fires; then none is left. No other
      round timer of the validator ever fires. */
  lemma TurnKeepsArmed(t: Timeline, e: Event, until: Option<int>, node: Id, timer: Option<nat>)
    requires Sound(t) && IsMin(t.heap, e) && Armed(t, node, timer)
    ensures var u := Do(t, Step(e, until));
      if e in u.fired && e !in t.fired && e.callback == RoundTimeout(node) then
        timer == Some(e.id) && LiveTimers(u, node) == {} && NoStrayTimer(u, node, timer)
      else Armed(u, node, timer)
  {
    TurnAndTimers(t, e, until, node);
    ArmedIsNotStray(t, node, timer);
    var live :| LiveTimers(t, node) == {live} && live.id == timer.value;
    assert live in LiveTimers(t, node);
    if e in Do(t, Step(e, until)).fired && e !in t.fired && e.callback == RoundTimeout(node) {
      assert e in LiveTimers(t, node);
    }
  }

  lemma DeliveryKeepsTimers(t: Timeline, delay: nat, to: Id, message: Message)
    ensures forall node :: LiveTimers(Do(t, Schedule(delay, Deliver(to, message))), node) == LiveTimers(t, node)
  {
  }

  /** Cancelling the remembered timer and scheduling anew leaves exactly the new one, and others' timers alone. */
  lemma RearmTimer(t: Timeline, node: Id, timer: Option<nat>, delay: nat)
    requires Sound(t) && NoStrayTimer(t, node, timer)
    ensures var u := if timer.Some? then Do(t, Cancel(timer.value)) else t;
      var v := Do(u, Schedule(delay, RoundTimeout(node)));
      && LiveTimers(u, node) == {}
      && LiveTimers(v, node) == {Event(t.now + delay, t.last + 1, RoundTimeout(node))}
      && forall other :: other != node ==> LiveTimers(v, other) == LiveTimers(t, other) == LiveTimers(u, other)
  {
    var u := if timer.Some? then Do(t, Cancel(timer.value)) else t;
    var v := Do(u, Schedule(delay, RoundTimeout(node)));
    var e := Event(t.now + delay, t.last + 1, RoundTimeout(node));
    assert e in LiveTimers(v, node);
    forall other | other != node ensures LiveTimers(v, other) == LiveTimers(t, other) == LiveTimers(u, other) {}
  }

  // ---- the clock as an object ----

  datatype Turn = Idle | Skipped(event: Event) | Paused(event: Event) | Due(event: Event)

  class VirtualClock {
    var now: int
    var heap: set<Event>
    var seqno: nat
    var cancelled: set<nat>
    ghost var fired: seq<Event>
    ghost var dropped: set<nat>

    ghost function View(): Timeline
      reads this
    {
      Timeline(now, heap, seqno, cancelled, fired, dropped)
    }

    ghost predicate Valid()
      reads this
    {
      Sound(View())
    }

    constructor ()
      ensures Valid() && View() == Beginning
    {
      now, heap, seqno, cancelled := 0, {}, 0, {};
      fired, dropped := [], {};
      new;
      BeginningIsSound();
    }

    method ScheduleAfter(delay: nat, callback: Callback) returns (id: nat)
      requires Valid()
      modifies this
      ensures Valid() && View() == Do(old(View()), Schedule(delay, callback)) && id == seqno
      ensures id == old(seqno) + 1 && heap == old(heap) + {Event(old(now) + delay, id, callback)} && now == old(now)
    {
      DoKeepsSound(View(), Schedule(delay, callback));
      seqno := seqno + 1;
      id := seqno;
      heap := heap + {Event(now + delay, id, callback)};
    }

    method CancelEvent(id: Option<nat>)
      requires Valid()
      modifies this
      ensures Valid() && View() == if id.Some? then Do(old(View()), Cancel(id.value)) else old(View())
      ensures cancelled == old(cancelled) + (if id.Some? then {id.value} else {}) && heap == old(heap) && now == old(now)
    {
      if id.Some? {
        DoKeepsSound(View(), Cancel(id.value));
        cancelled := cancelled + {id.value};
      }
    }

    method Reset()
      modifies this
      ensures Valid() && View() == Beginning
    {
      now, heap, seqno, cancelled := 0, {}, 0, {};
      fired, dropped := [], {};
      BeginningIsSound();
    }

    /** One turn of the run loop, up to the call back itself. */
    method TakeTurn(until: Option<int>) returns (turn: Turn)
      requires Valid() && (until.Some? ==> until.value >= now)
      modifies this
      ensures Valid()
      ensures turn.Idle? <==> old(heap) == {}
      ensures turn.Idle? ==> View() == old(View())
      ensures !turn.Idle? ==> IsMin(old(heap), turn.event) && View() == Do(old(View()), Step(turn.event, until))
      ensures turn.Skipped? <==> !turn.Idle? && turn.event.id in old(cancelled)
      ensures turn.Paused? <==> !turn.Idle? && !turn.Skipped? && until.Some? && turn.event.when > until.value
      ensures turn.Skipped? ==> now == old(now) && heap == old(heap) - {turn.event} && turn.event.id !in cancelled
      ensures turn.Paused? ==> now == until.value && heap == old(heap)
      ensures turn.Due? ==> now == turn.event.when && heap == old(heap) - {turn.event}
    {
      if heap == {} { return Idle; }
      var e := PopMin();
      DoKeepsSound(old(View()), Step(e, until));
      if e.id in cancelled {
        cancelled := cancelled - {e.id};
        dropped := dropped + {e.id};
        return Skipped(e);
      }
      if until.Some? && e.when > until.value {
        heap := heap + {e};
        assert heap == old(heap);
        now := until.value;
        return Paused(e);
      }
      now := e.when;
      fired := fired + [e];
      return Due(e);
    }

    method PopMin() returns (e: Event)
      requires Conserved(View()) && heap != {}
      modifies this`heap
      ensures IsMin(old(heap), e) && heap == old(heap) - {e}
    {
      e :| e in heap;
      var rest := heap - {e};
      while rest != {}
        invariant rest <= heap && e in heap && e !in rest && heap == old(heap)
        invariant forall x :: x in heap && x !in rest && x != e ==> After(x, e)
        decreases rest
      {
        var x :| x in rest;
        if After(e, x) { e := x; rest := rest - {x}; } else { rest := rest - {x}; }
      }
      heap := heap - {e};
    }
  }
}
