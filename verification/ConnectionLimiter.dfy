/** restinio's connection count limiter and the monitors that tie it to the life of connections
    (connection_count_limiter.hpp), used by an acceptor that follows the scheme documented there. */
module ConnectionLimiter {
  import opened Counting

  type Slot = nat

  /** Where a socket slot is: with the acceptor, in an `accept()`, parked in the limiter, or posted back. */
  datatype Place = Held | Accepting | Pending | Scheduled

  /** The fields of actual_limiter_t, and the place of every slot. */
  datatype State = State(max: nat, active: nat, connections: nat, pending: seq<Slot>, place: map<Slot, Place>)

  function At(place: map<Slot, Place>, p: Place): set<Slot> {
    set i | i in place && place[i] == p
  }

  predicate HasFreeSlots(s: State) {
    s.active + s.connections < s.max
  }

  // ---------- the protocol as steps ----------

  /** What can happen: the acceptor calls accept_next with a slot it holds or that was scheduled, an accept
      completes and its connection is counted, or a connection ends. */
  datatype Event = AcceptNext(slot: Slot) | Accepted(slot: Slot) | Closed

  predicate Possible(s: State, e: Event) {
    match e
    case AcceptNext(i) => i in s.place && (s.place[i] == Held || s.place[i] == Scheduled)
    case Accepted(i) => i in s.place && s.place[i] == Accepting && s.active > 0
    case Closed => s.connections > 0
  }

  function Apply(s: State, e: Event): State
    requires Possible(s, e)
  {
    match e
    case AcceptNext(i) =>
      if HasFreeSlots(s) then s.(active := s.active + 1, place := s.place[i := Accepting])
      else s.(pending := s.pending + [i], place := s.place[i := Pending])
    case Accepted(i) =>
      s.(active := s.active - 1, connections := s.connections + 1, place := s.place[i := Held])
    case Closed =>
      var t := s.(connections := s.connections - 1);
      if HasFreeSlots(t) && t.pending != [] then
        var i := t.pending[|t.pending| - 1];
        t.(pending := t.pending[..|t.pending| - 1], place := t.place[i := Scheduled])
      else t
  }

  predicate Distinct(s: seq<Slot>) {
    forall i, j :: 0 <= i < j < |s| ==> s[i] != s[j]
  }

  /** The parked slots are exactly those on the stack, each once. */
  ghost predicate Parked(s: State) {
    Distinct(s.pending) && forall i :: i in s.pending <==> i in At(s.place, Pending)
  }

  /** A slot stays parked only while the limit is used up by accepts, connections and slots on their way. */
  predicate NotStranded(s: State) {
    s.pending != [] ==> s.active + s.connections + |At(s.place, Scheduled)| >= s.max
  }

  ghost predicate Inv(s: State) {
    s.active + s.connections <= s.max && s.active == |At(s.place, Accepting)| && Parked(s) && NotStranded(s)
  }

  /** The slots at a place after one slot has moved. */
  lemma PlaceMoves(place: map<Slot, Place>, i: Slot, p: Place, q: Place)
    requires i in place
    ensures At(place[i := p], q) == (At(place, q) - {i}) + (if p == q then {i} else {})
    ensures |At(place[i := p], q)| == |At(place, q)| - One(place[i] == q) + One(p == q)
  {
    ReplaceMember(At(place, q), i, p == q);
  }

  lemma AcceptNowKeeps(s: State, i: Slot)
    requires Inv(s) && Possible(s, AcceptNext(i)) && HasFreeSlots(s)
    ensures Inv(Apply(s, AcceptNext(i)))
  {
    PlaceMoves(s.place, i, Accepting, Accepting);
    PlaceMoves(s.place, i, Accepting, Scheduled);
    PlaceMoves(s.place, i, Accepting, Pending);
  }

  lemma ParkKeeps(s: State, i: Slot)
    requires Inv(s) && Possible(s, AcceptNext(i)) && !HasFreeSlots(s)
    ensures Inv(Apply(s, AcceptNext(i)))
  {
    PlaceMoves(s.place, i, Pending, Accepting);
    PlaceMoves(s.place, i, Pending, Pending);
    assert i !in At(s.place, Pending);
  }

  lemma AcceptNextKeeps(s: State, i: Slot)
    requires Inv(s) && Possible(s, AcceptNext(i))
    ensures Inv(Apply(s, AcceptNext(i)))
  {
    if HasFreeSlots(s) {
      AcceptNowKeeps(s, i);
    } else {
      ParkKeeps(s, i);
    }
  }

  lemma AcceptedKeeps(s: State, i: Slot)
    requires Inv(s) && Possible(s, Accepted(i))
    ensures Inv(Apply(s, Accepted(i)))
  {
    PlaceMoves(s.place, i, Held, Accepting);
    PlaceMoves(s.place, i, Held, Scheduled);
    PlaceMoves(s.place, i, Held, Pending);
  }

  lemma ClosedKeeps(s: State)
    requires Inv(s) && Possible(s, Closed)
    ensures Inv(Apply(s, Closed))
  {
    var t := s.(connections := s.connections - 1);
    if HasFreeSlots(t) && s.pending != [] {
      var n := |s.pending| - 1;
      var i := s.pending[n];
      assert i in At(s.place, Pending);
      PlaceMoves(s.place, i, Scheduled, Accepting);
      PlaceMoves(s.place, i, Scheduled, Scheduled);
      PlaceMoves(s.place, i, Scheduled, Pending);
      PopParked(s.pending);
    }
  }

  lemma PopParked(stack: seq<Slot>)
    requires stack != [] && Distinct(stack)
    ensures forall k :: k in stack[..|stack| - 1] <==> k in stack && k != stack[|stack| - 1]
  {
    assert stack == stack[..|stack| - 1] + [stack[|stack| - 1]];
  }

  lemma StepKeeps(s: State, e: Event)
    requires Inv(s) && Possible(s, e)
    ensures Inv(Apply(s, e))
  {
    match e
    case AcceptNext(i) => AcceptNextKeeps(s, i);
    case Accepted(i) => AcceptedKeeps(s, i);
    case Closed => ClosedKeeps(s);
  }

  /** The slot that was parked last is the first to come back, with the next connection that ends. */
  lemma {:induction false} LastParkedFirst(s: State, i: Slot)
    requires Inv(s) && Possible(s, AcceptNext(i)) && !HasFreeSlots(s) && s.connections > 0
    ensures var t := Apply(s, AcceptNext(i));
            Possible(t, Closed) && Apply(t, Closed).pending == s.pending &&
            Apply(t, Closed).place == s.place[i := Scheduled]
  {
    var t := Apply(s, AcceptNext(i));
    assert t.pending[..|t.pending| - 1] == s.pending;
    assert t.place[i := Scheduled] == s.place[i := Scheduled];
  }

  function Start(max: nat, slots: set<Slot>): State {
    State(max, 0, 0, [], map i | i in slots :: Held)
  }

  predicate CanRun(s: State, events: seq<Event>)
    decreases |events|
  {
    events == [] || (Possible(s, events[0]) && CanRun(Apply(s, events[0]), events[1..]))
  }

  function Run(s: State, events: seq<Event>): State
    requires CanRun(s, events)
    decreases |events|
  {
    if events == [] then s else Run(Apply(s, events[0]), events[1..])
  }

  lemma {:induction false} RunKeeps(s: State, events: seq<Event>)
    requires Inv(s) && CanRun(s, events)
    ensures Inv(Run(s, events)) && Run(s, events).max == s.max && Run(s, events).place.Keys == s.place.Keys
    decreases |events|
  {
    if events != [] {
      StepKeeps(s, events[0]);
      if events[0].Closed? && Apply(s, Closed).place != s.place {
        assert s.pending[|s.pending| - 1] in At(s.place, Pending);
      }
      RunKeeps(Apply(s, events[0]), events[1..]);
    }
  }

  lemma {:induction false} DistinctFits(s: seq<Slot>, all: set<Slot>)
    requires Distinct(s) && forall i :: i in s ==> i in all
    ensures |s| <= |all|
  {
    if s != [] {
      var front, last := s[..|s| - 1], s[|s| - 1];
      DistinctFits(front, all - {last});
    }
  }

  /** Over every run from the start: the limit is respected, the stack never outgrows the capacity reserved
      for one entry per slot, and a parked slot waits only while the limit is used up. */
  lemma {:induction false} EveryRunIsSafe(max: nat, slots: set<Slot>, events: seq<Event>)
    requires CanRun(Start(max, slots), events)
    ensures var s := Run(Start(max, slots), events);
            s.active + s.connections <= max && |s.pending| <= |slots| && Parked(s) &&
            (s.pending != [] ==> s.active + s.connections + |At(s.place, Scheduled)| >= max)
  {
    var s0 := Start(max, slots);
    assert At(s0.place, Accepting) == {} && At(s0.place, Pending) == {};
    RunKeeps(s0, events);
    var s := Run(s0, events);
    assert forall i :: i in s.pending ==> i in At(s.place, Pending);
    DistinctFits(s.pending, slots);
  }

  // ---------- the classes ----------

  /** The call back into the acceptor, made after the lock is released. */
  datatype Callback = NoCallback | CallAcceptNow(slot: Slot) | ScheduleNextAcceptAttempt(slot: Slot)

  /** What the end of a connection calls back: the slot that it takes off the stack is posted to the acceptor. */
  function CallbackOf(before: State, after: State): Callback {
    if before.pending != [] && |after.pending| < |before.pending|
    then ScheduleNextAcceptAttempt(before.pending[|before.pending| - 1]) else NoCallback
  }

  class Limiter {
    var activeAccepts: nat
    var connections: nat
    const maxParallelConnections: nat
    var pendingIndexes: seq<Slot>

    /** Where the acceptor and the limiter have the slots, and the monitors that hold a connection. */
    ghost var place: map<Slot, Place>
    ghost var live: set<Monitor>

    ghost function Now(): State
      reads this
    {
      State(maxParallelConnections, activeAccepts, connections, pendingIndexes, place)
    }

    /** Every live monitor points here, and there are as many as counted connections. */
    ghost predicate Valid()
      reads this, live
    {
      Inv(Now()) && |live| == connections && forall m :: m in live ==> m.manager == this
    }

    constructor (max: nat, ghost slots: set<Slot>)
      ensures Valid() && Now() == Start(max, slots) && live == {}
    {
      maxParallelConnections := max;
      activeAccepts, connections, pendingIndexes := 0, 0, [];
      place, live := map i | i in slots :: Held, {};
      new;
      assert At(place, Accepting) == {} && At(place, Pending) == {};
    }

    /** The accept of `slot` completed; `m` is the monitor of its connection. */
    method IncrementParallelConnections(ghost slot: Slot, ghost m: Monitor)
      requires Valid() && slot in place && place[slot] == Accepting && m !in live && m.manager == this
      modifies this
      ensures Valid() && Possible(old(Now()), Accepted(slot)) && Now() == Apply(old(Now()), Accepted(slot))
      ensures live == old(live) + {m}
    {
      assert slot in At(place, Accepting);
      AcceptedKeeps(Now(), slot);
      activeAccepts := activeAccepts - 1;
      connections := connections + 1;
      place := place[slot := Held];
      live := live + {m};
    }

    method DecrementParallelConnections(ghost m: Monitor) returns (callback: Callback)
      requires Valid() && m in live
      modifies this
      ensures Valid() && Possible(old(Now()), Closed) && Now() == Apply(old(Now()), Closed)
      ensures live == old(live) - {m}
      ensures callback == CallbackOf(old(Now()), Now())
    {
      ClosedKeeps(Now());
      callback := NoCallback;
      connections := connections - 1;
      live := live - {m};
      if activeAccepts + connections < maxParallelConnections && pendingIndexes != [] {
        var pendingIndex := pendingIndexes[|pendingIndexes| - 1];
        pendingIndexes := pendingIndexes[..|pendingIndexes| - 1];
        assert pendingIndex in At(old(place), Pending);
        place := place[pendingIndex := Scheduled];
        callback := ScheduleNextAcceptAttempt(pendingIndex);
        assert place[pendingIndex] != old(place)[pendingIndex];
      }
    }

    /** A connection has changed its monitor. */
    ghost method Rebind(before: Monitor, after: Monitor)
      requires Inv(Now()) && |live| == connections && before in live && after !in live && after.manager == this
      requires forall m :: m in live && m != before ==> m.manager == this
      modifies this`live
      ensures Valid() && live == old(live) - {before} + {after}
    {
      live := live - {before} + {after};
    }

    method AcceptNext(index: Slot) returns (callback: Callback)
      requires Valid() && Possible(Now(), Event.AcceptNext(index))
      modifies this
      ensures Valid() && Now() == Apply(old(Now()), Event.AcceptNext(index)) && live == old(live)
      ensures callback == if place[index] == Accepting then CallAcceptNow(index) else NoCallback
    {
      AcceptNextKeeps(Now(), index);
      if activeAccepts + connections < maxParallelConnections {
        activeAccepts := activeAccepts + 1;
        place := place[index := Accepting];
        callback := CallAcceptNow(index);
      } else {
        pendingIndexes := pendingIndexes + [index];
        place := place[index := Pending];
        callback := NoCallback;
      }
    }
  }

  /** connection_lifetime_monitor_t: movable, not copyable. */
  class Monitor {
    var manager: Limiter?

    /** The monitor is the limiter's or empty, and live exactly if it is not empty. */
    ghost predicate Of(l: Limiter)
      reads this, l
    {
      (manager == null || manager == l) && (manager == l <==> this in l.live)
    }

    constructor (l: Limiter, ghost slot: Slot)
      requires l.Valid() && slot in l.place && l.place[slot] == Accepting
      modifies l
      ensures l.Valid() && Of(l) && manager == l && l.live == old(l.live) + {this}
      ensures Possible(old(l.Now()), Accepted(slot)) && l.Now() == Apply(old(l.Now()), Accepted(slot))
    {
      manager := l;
      new;
      l.IncrementParallelConnections(slot, this);
    }

    /** The destructor; afterwards the object is gone, shown here by an empty monitor. */
    method Destroy(l: Limiter) returns (callback: Callback)
      requires l.Valid() && Of(l)
      modifies this, l
      ensures l.Valid() && Of(l) && manager == null && l.live == old(l.live) - {this}
      ensures old(manager) == null ==> l.Now() == old(l.Now()) && callback == NoCallback
      ensures old(manager) != null ==> old(l.connections) > 0 && l.Now() == Apply(old(l.Now()), Closed)
      ensures callback == CallbackOf(old(l.Now()), l.Now())
    {
      callback := NoCallback;
      if manager != null {
        callback := manager.DecrementParallelConnections(this);
        manager := null;
      }
    }

    /** The move constructor: the connection changes its monitor, the count does not change. */
    constructor Move(other: Monitor, ghost l: Limiter)
      requires l.Valid() && other.Of(l)
      modifies other, l`live
      ensures l.Valid() && Of(l) && other.Of(l) && l.Now() == old(l.Now())
      ensures manager == old(other.manager) && other.manager == null
      ensures l.live == old(l.live) - {other} + if old(other.manager) == null then {} else {this}
    {
      manager := other.manager;
      new;
      other.manager := null;
      if manager != null {
        l.Rebind(other, this);
      }
    }

    method Swap(other: Monitor, ghost l: Limiter)
      requires l.Valid() && Of(l) && other.Of(l)
      modifies this, other, l`live
      ensures l.Valid() && Of(l) && other.Of(l) && l.Now() == old(l.Now())
      ensures manager == old(other.manager) && other.manager == old(manager)
      ensures forall m :: m != this && m != other ==> (m in l.live <==> m in old(l.live))
    {
      ghost var a, b := manager, other.manager;
      manager, other.manager := other.manager, manager;
      if a == null && b != null {
        l.Rebind(other, this);
      } else if a != null && b == null {
        l.Rebind(this, other);
      }
    }

    /** The first two statements of move assignment. */
    method TakeOver(other: Monitor, ghost l: Limiter) returns (tmp: Monitor)
      requires l.Valid() && Of(l) && other.Of(l)
      modifies this, other, l`live
      ensures fresh(tmp) && l.Valid() && Of(l) && other.Of(l) && tmp.Of(l) && l.Now() == old(l.Now())
      ensures manager == old(other.manager) && (other != this ==> other.manager == null)
      ensures tmp.manager == if other == this then null else old(manager)
      ensures forall m :: m != this && m != other && m != tmp ==> (m in l.live <==> m in old(l.live))
    {
      tmp := new Monitor.Move(other, l);
      Swap(tmp, l);
    }

    /** Move assignment: the target's own connection, if it had one, ends here; assigning to itself changes
        nothing. */
    method Assign(other: Monitor, l: Limiter) returns (callback: Callback)
      requires l.Valid() && Of(l) && other.Of(l)
      modifies this, other, l
      ensures l.Valid() && Of(l) && other.Of(l)
      ensures manager == old(other.manager) && (other != this ==> other.manager == null)
      ensures forall m :: m != this && m != other ==> (m in l.live <==> m in old(l.live))
      ensures other == this || old(manager) == null ==> l.Now() == old(l.Now()) && callback == NoCallback
      ensures other != this && old(manager) != null ==>
                old(l.connections) > 0 && l.Now() == Apply(old(l.Now()), Closed)
      ensures callback == CallbackOf(old(l.Now()), l.Now())
    {
      var tmp := TakeOver(other, l);
      callback := tmp.Destroy(l);
    }
  }
}
