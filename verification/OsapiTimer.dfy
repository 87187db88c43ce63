/** The timer service of osapi (Timer.cpp): a multimap from deadlines to timers, and in every timer an
    iterator back to its entry. */
module OsapiTimer {
  import opened Options
  import opened OsapiTime

  /** A node of the multimap; `node` stands for the iterator to it. */
  datatype Entry = Entry(key: Stamp, timer: TimerId, node: nat)

  /** What a timer sends to its queue. */
  datatype Posting = Posting(id: nat, message: Option<int>)

  class TimerId {
    const id: nat
    var armedTime: Stamp
    var timeOut: nat
    var message: Option<int>
    var canceled: bool
    /** The iterator, if its flag is set. */
    var containerPos: Option<nat>

    constructor (id: nat)
      ensures containerPos == None && message == None && this.id == id && armedTime == Stamp(0, 0)
    {
      this.id := id;
      armedTime, timeOut, canceled := Stamp(0, 0), 0, false;
      message, containerPos := None, None;
    }
  }

  predicate Sorted(c: seq<Entry>) {
    forall i, j :: 0 <= i < j < |c| ==> AtMost(c[i].key, c[j].key)
  }

  predicate AllNormal(c: seq<Entry>) {
    forall i :: 0 <= i < |c| ==> Normal(c[i].key)
  }

  predicate DistinctNodes(c: seq<Entry>) {
    forall i, j :: 0 <= i < j < |c| ==> c[i].node != c[j].node
  }

  /** Where `multimap::insert` puts a key: behind all entries that are not later. */
  function UpperBound(c: seq<Entry>, key: Stamp): (i: nat)
    ensures i <= |c|
  {
    if c == [] || Less(key, c[0].key) then 0 else 1 + UpperBound(c[1..], key)
  }

  lemma {:induction false} UpperBoundCuts(c: seq<Entry>, key: Stamp)
    ensures forall k :: 0 <= k < UpperBound(c, key) ==> AtMost(c[k].key, key)
    ensures UpperBound(c, key) < |c| ==> Less(key, c[UpperBound(c, key)].key)
  {
    if c != [] && !Less(key, c[0].key) {
      UpperBoundCuts(c[1..], key);
    }
  }

  function Insert(c: seq<Entry>, e: Entry): seq<Entry> {
    var i := UpperBound(c, e.key);
    c[..i] + [e] + c[i..]
  }

  function Erase(c: seq<Entry>, i: int): seq<Entry>
    requires 0 <= i < |c|
  {
    c[..i] + c[i + 1..]
  }

  /** The container as a value: sorted by key, with distinct nodes. */
  predicate Ordered(c: seq<Entry>, nextNode: nat) {
    Sorted(c) && AllNormal(c) && DistinctNodes(c) && forall i :: 0 <= i < |c| ==> c[i].node < nextNode
  }

  predicate PointsTo(c: seq<Entry>, node: nat, i: int) {
    0 <= i < |c| && c[i].node == node
  }

  /** The iterator points to an entry of this timer. */
  ghost predicate Entered(c: seq<Entry>, node: nat, t: TimerId) {
    exists i :: PointsTo(c, node, i) && c[i].timer == t
  }

  lemma {:induction false} InsertSorted(c: seq<Entry>, e: Entry)
    requires Sorted(c) && AllNormal(c) && Normal(e.key)
    ensures Sorted(Insert(c, e)) && AllNormal(Insert(c, e))
  {
    var i := UpperBound(c, e.key);
    UpperBoundCuts(c, e.key);
    forall k | i <= k < |c| ensures AtMost(e.key, c[k].key) {
      LessIsOrder(e.key, c[i].key);
      LessIsOrder(c[i].key, c[k].key);
      LessIsOrder(e.key, c[k].key);
    }
  }

  lemma InsertAdds(c: seq<Entry>, e: Entry)
    ensures forall x :: x in Insert(c, e) <==> x in c || x == e
  {
    assert c == c[..UpperBound(c, e.key)] + c[UpperBound(c, e.key)..];
  }

  lemma {:induction false} InsertOrdered(c: seq<Entry>, e: Entry)
    requires Ordered(c, e.node) && Normal(e.key)
    ensures Ordered(Insert(c, e), e.node + 1)
  {
    InsertSorted(c, e);
  }

  lemma InsertEnters(c: seq<Entry>, e: Entry)
    ensures Entered(Insert(c, e), e.node, e.timer)
  {
    assert PointsTo(Insert(c, e), e.node, UpperBound(c, e.key));
  }

  lemma InsertKeeps(c: seq<Entry>, e: Entry, node: nat, t: TimerId)
    requires Entered(c, node, t)
    ensures Entered(Insert(c, e), node, t)
  {
    var i :| PointsTo(c, node, i) && c[i].timer == t;
    assert PointsTo(Insert(c, e), node, if i < UpperBound(c, e.key) then i else i + 1);
  }

  lemma EraseOrdered(c: seq<Entry>, i: int, nextNode: nat)
    requires 0 <= i < |c| && Ordered(c, nextNode)
    ensures Ordered(Erase(c, i), nextNode)
    ensures forall x :: x in Erase(c, i) <==> x in c && x != c[i]
  {
    assert c == c[..i] + [c[i]] + c[i + 1..];
  }

  /** Entries of different timers are different nodes. */
  lemma OtherNode(c: seq<Entry>, i: int, node: nat, t: TimerId, ti: TimerId)
    requires 0 <= i < |c| && c[i].timer == ti != t && DistinctNodes(c) && Entered(c, node, t)
    ensures c[i].node != node
  {
    var k :| PointsTo(c, node, k) && c[k].timer == t;
    assert k != i;
  }

  lemma EraseKeeps(c: seq<Entry>, i: int, node: nat, t: TimerId)
    requires 0 <= i < |c| && Entered(c, node, t) && c[i].node != node
    ensures Entered(Erase(c, i), node, t)
  {
    var k :| PointsTo(c, node, k) && c[k].timer == t;
    assert PointsTo(Erase(c, i), node, if k < i then k else k - 1);
  }

  lemma FindInRest(c: seq<Entry>, node: nat)
    requires (exists i :: PointsTo(c, node, i)) && c[0].node != node
    ensures exists i :: PointsTo(c[1..], node, i)
  {
    var k :| PointsTo(c, node, k);
    assert PointsTo(c[1..], node, k - 1);
  }

  /** The entry an iterator points to. */
  function Find(c: seq<Entry>, node: nat): (i: int)
    requires exists i :: PointsTo(c, node, i)
    ensures PointsTo(c, node, i)
  {
    if c[0].node == node then 0
    else
      FindInRest(c, node);
      1 + Find(c[1..], node)
  }

  class Timer {
    var container: seq<Entry>
    var nextNode: nat
    /** Everything the timers have sent, in order. */
    var posted: seq<Posting>

    /** All timers that use this service. */
    ghost var timers: set<TimerId>

    /** The multimap is sorted, and every iterator points to an entry of its timer. */
    ghost predicate Linked()
      reads this, timers
    {
      Ordered(container, nextNode) && (forall e :: e in container ==> e.timer in timers) &&
      (forall t :: t in timers ==> Normal(t.armedTime)) &&
      (forall t :: t in timers && t.containerPos.Some? ==> Entered(container, t.containerPos.value, t))
    }

    /** The entries and the armed timers correspond one to one through the iterators; an entry's key is the time its
        timer is armed for. */
    ghost predicate Valid()
      reads this, timers
    {
      Linked() &&
      forall e :: e in container ==> e.timer.containerPos == Some(e.node) && e.timer.armedTime == e.key
    }

    constructor ()
      ensures Valid() && container == [] && timers == {} && posted == []
    {
      container, nextNode, posted := [], 0, [];
      timers := {};
    }

    /** createNewTimer. */
    method CreateNewTimer(id: nat) returns (t: TimerId)
      requires Valid()
      modifies this`timers
      ensures Valid() && fresh(t) && timers == old(timers) + {t} && t.containerPos == None && t.id == id
    {
      t := new TimerId(id);
      timers := timers + {t};
    }

    /** Timer::arm. It does not ask whether the timer has an entry already; one that has keeps its old entry, to
        which nothing points back any more. */
    method ArmEntry(ti: TimerId, key: Stamp)
      requires Linked() && ti in timers && ti.armedTime == key && Normal(key)
      modifies this`container, this`nextNode, ti`containerPos
      ensures Linked() && container == Insert(old(container), Entry(key, ti, old(nextNode)))
      ensures ti.containerPos == Some(old(nextNode))
    {
      var e := Entry(key, ti, nextNode);
      ghost var before := container;
      InsertOrdered(container, e);
      InsertAdds(container, e);
      container := Insert(container, e);
      nextNode := nextNode + 1;
      ti.containerPos := Some(e.node);
      InsertEnters(before, e);
      forall t | t in timers && t.containerPos.Some? && t != ti
        ensures Entered(container, t.containerPos.value, t)
      {
        InsertKeeps(before, e, t.containerPos.value, t);
      }
    }

    /** TimerId::arm, `now` being the monotonic clock. Entries and timers go on corresponding if and only if the timer
        was not armed. */
    method Arm(ti: TimerId, timeout: nat, m: Option<int>, now: Stamp)
      requires Valid() && ti in timers && Normal(now)
      modifies this`container, this`nextNode, ti
      ensures Linked() && (Valid() <==> old(ti.containerPos) == None)
      ensures !ti.canceled && ti.message == m && ti.timeOut == timeout && ti.containerPos == Some(old(nextNode))
      ensures Total(ti.armedTime) == Total(now) + timeout
      ensures container == Insert(old(container), Entry(ti.armedTime, ti, old(nextNode)))
    {
      ti.timeOut := timeout;
      var t := new Time.Copy(now);
      t.PlusAssignMsecs(timeout);
      ti.armedTime := t.Value();
      ti.message := m;
      ti.canceled := false;
      ghost var c, node, was := container, nextNode, ti.containerPos;
      ArmEntry(ti, ti.armedTime);
      ArmedTwice(c, ti, was, node, ti.armedTime);
    }

    /** TimerId::reArm: one period after the previous deadline. */
    method ReArm(ti: TimerId, m: Option<int>)
      requires Valid() && ti in timers
      modifies this`container, this`nextNode, ti
      ensures Linked() && (Valid() <==> old(ti.containerPos) == None)
      ensures !ti.canceled && ti.message == m && ti.timeOut == old(ti.timeOut) && ti.containerPos == Some(old(nextNode))
      ensures Total(ti.armedTime) == old(Total(ti.armedTime)) + old(ti.timeOut)
      ensures container == Insert(old(container), Entry(ti.armedTime, ti, old(nextNode)))
    {
      ti.message := m;
      ti.canceled := false;
      var t := new Time.Copy(ti.armedTime);
      t.PlusAssignMsecs(ti.timeOut);
      ti.armedTime := t.Value();
      ghost var c, node, was := container, nextNode, ti.containerPos;
      ArmEntry(ti, ti.armedTime);
      ArmedTwice(c, ti, was, node, ti.armedTime);
    }

    /** An entry that was there before is still there. */
    lemma ArmedTwice(c: seq<Entry>, ti: TimerId, was: Option<nat>, node: nat, key: Stamp)
      requires Linked() && container == Insert(c, Entry(key, ti, node)) && ti.containerPos == Some(node)
      requires ti in timers && ti.armedTime == key
      requires forall e :: e in c ==> e.node < node && (e.timer == ti ==> was == Some(e.node))
      requires forall e :: e in c && e.timer != ti ==>
                 e.timer.containerPos == Some(e.node) && e.timer.armedTime == e.key
      requires was.Some? ==> Entered(c, was.value, ti)
      ensures Valid() <==> was == None
    {
      InsertAdds(c, Entry(key, ti, node));
      if was.Some? {
        var i :| PointsTo(c, was.value, i) && c[i].timer == ti;
        assert c[i] in c && c[i] in container;
      }
    }

    /** Timer::internalDisArm: `multimap::erase` through the iterator. */
    method InternalDisArm(ti: TimerId)
      requires Linked() && ti in timers
      modifies this`container, ti`containerPos
      ensures Linked() && ti.containerPos == None && (old(Valid()) ==> Valid())
      ensures old(ti.containerPos) == None ==> container == old(container)
      ensures old(ti.containerPos).Some? ==> Erased(old(container), old(ti.containerPos).value, ti, container)
    {
      if ti.containerPos.Some? {
        ghost var before := container;
        var i := Find(container, ti.containerPos.value);
        EraseOrdered(container, i, nextNode);
        container := Erase(container, i);
        forall t | t in timers && t.containerPos.Some? && t != ti
          ensures Entered(container, t.containerPos.value, t)
        {
          OtherNode(before, i, t.containerPos.value, t, ti);
          EraseKeeps(before, i, t.containerPos.value, t);
        }
        ti.containerPos := None;
      }
    }

    /** TimerId::disArm. */
    method DisArm(ti: TimerId)
      requires Linked() && ti in timers
      modifies this`container, ti
      ensures Linked() && ti.containerPos == None && ti.canceled && ti.message == None
      ensures old(Valid()) ==> Valid()
      ensures old(ti.containerPos) == None ==> container == old(container)
      ensures old(ti.containerPos).Some? ==> Erased(old(container), old(ti.containerPos).value, ti, container)
    {
      ti.message := None;
      ti.canceled := true;
      InternalDisArm(ti);
    }

    /** TimerId::sendTimerMsg. */
    method SendTimerMsg(ti: TimerId)
      modifies this`posted, ti`message
      ensures posted == old(posted) + [Posting(ti.id, old(ti.message))] && ti.message == None
    {
      posted := posted + [Posting(ti.id, ti.message)];
      ti.message := None;
    }

    /** One turn of the expiry loop: the first entry's timer fires, and the entry it points to is taken out. That is
        the first entry itself if entries and timers correspond; if the timer points nowhere, the first entry stays,
        the next turn is such a turn again, and the loop does not end. */
    method FireFirst()
      requires Linked() && container != []
      modifies this`container, this`posted, timers
      ensures Linked() && timers == old(timers)
      ensures old(Valid()) ==> Valid() && container == old(container)[1..]
      ensures old(container[0].timer.containerPos) == None ==> container == old(container)
      ensures var t := old(container)[0].timer;
              old(t.containerPos).Some? ==> Erased(old(container), old(t.containerPos).value, t, container)
      ensures posted == old(posted) + [Posting(old(container)[0].timer.id, old(container[0].timer.message))]
      ensures var t := old(container)[0].timer; t.containerPos == None && t.message == None
      ensures forall t :: t in timers && t != old(container)[0].timer ==> unchanged(t)
    {
      var first := container[0];
      assert first in container;
      ghost var before, paired := container, Valid();
      SendTimerMsg(first.timer);
      InternalDisArm(first.timer);
      if paired {
        OnlyFirst(before, first.node, first.timer, container);
      }
    }

    /** A service in which a timer was armed twice and has expired: its first entry is due and stays for good. */
    static method ArmTwice(now: Stamp) returns (service: Timer)
      requires Normal(now)
      ensures fresh(service) && service.Linked() && service.container != []
      ensures service.container[0].timer.containerPos == None && service.container[0].key == now
    {
      service := new Timer();
      var t := service.CreateNewTimer(0);
      ghost var first := Entry(now, t, service.nextNode);
      service.Arm(t, 0, None, now);
      LessIsOrder(t.armedTime, now);
      assert service.container == [first];
      ghost var second := Entry(now, t, service.nextNode);
      service.Arm(t, 0, None, now);
      LessIsOrder(t.armedTime, now);
      assert service.container == [first, second];
      service.FireFirst();
    }

    /** What the timers of the entries would send now. */
    ghost function Messages(c: seq<Entry>): seq<Posting>
      reads set e | e in c :: e.timer
    {
      seq(|c|, i requires 0 <= i < |c| reads set e | e in c :: e.timer => Posting(c[i].timer.id, c[i].timer.message))
    }

    /** No timer has two entries. */
    lemma EachTimerOnce()
      requires Valid()
      ensures forall i, j :: 0 <= i < j < |container| ==> container[i].timer != container[j].timer
    {
      forall i, j | 0 <= i < j < |container| ensures container[i].timer != container[j].timer {
        assert container[i] in container && container[j] in container;
      }
    }

    /** The expiry loop of Timer::run; `clock(i)` is the i-th reading of the monotonic clock. It ends, fires
        every timer that is due exactly once, in the order of the deadlines, and leaves the later ones. */
    method Expire(clock: nat -> Stamp) returns (fired: nat)
      requires Valid() && (forall i :: Normal(clock(i)))
      modifies this`container, this`posted, timers
      ensures Valid() && timers == old(timers)
      ensures fired <= |old(container)| && container == old(container)[fired..]
      ensures posted == old(posted) + old(Messages(container))[..fired]
      ensures forall i :: 0 <= i < fired ==> AtMost(old(container)[i].key, clock(i))
      ensures forall e :: e in container ==> Less(clock(fired), e.key)
      ensures forall i :: 0 <= i < fired ==> old(container)[i].timer.containerPos == None
    {
      fired := 0;
      ghost var c0, p0, m0 := container, posted, Messages(container);
      EachTimerOnce();
      while container != [] && AtMost(container[0].key, clock(fired))
        invariant Valid() && timers == old(timers)
        invariant fired <= |c0| && container == c0[fired..]
        invariant posted == p0 + m0[..fired]
        invariant forall i :: 0 <= i < fired ==> AtMost(c0[i].key, clock(i))
        invariant forall i :: 0 <= i < fired ==> c0[i].timer.containerPos == None
        invariant forall i :: fired <= i < |c0| ==> c0[i].timer.message == m0[i].message
        decreases |container|
      {
        assert container[0] == c0[fired];
        FireFirst();
        assert m0[..fired + 1] == m0[..fired] + [m0[fired]];
        fired := fired + 1;
      }
      LaterRest(container, clock(fired));
    }

    /** `deadline -= getCurrentMonotonicTime()`, compared with 0. */
    static method Overdue(key: Stamp, now: Stamp) returns (overdue: bool)
      requires Normal(key) && Normal(now)
      ensures overdue <==> Total(key) < Total(now)
    {
      var deadline := new Time.Copy(key);
      var t := new Time.Copy(now);
      deadline.MinusAssign(t);
      NegativeTime(deadline.Value());
      overdue := Less(deadline.Value(), Stamp(0, 0));
    }

    /** The body of Timer::run after the wait for the first deadline: a signal before that deadline fires
        nothing. `reading` is the clock before the wait. */
    method AfterWait(timedOut: bool, reading: Stamp, clock: nat -> Stamp) returns (fired: nat)
      requires Valid() && container != [] && Normal(reading) && (forall i :: Normal(clock(i)))
      modifies this`container, this`posted, timers
      ensures Valid() && fired <= |old(container)| && container == old(container)[fired..]
      ensures posted == old(posted) + old(Messages(container))[..fired]
      ensures !timedOut && Total(reading) <= Total(old(container)[0].key) ==> fired == 0
      ensures timedOut || Total(old(container)[0].key) < Total(reading) ==> forall e :: e in container ==>
              Less(clock(fired), e.key)
    {
      var overdue := Overdue(container[0].key, reading);
      fired := 0;
      if overdue || timedOut {
        fired := Expire(clock);
      }
    }
  }

  /** When the first entry of a sorted container is later, all are. */
  lemma LaterRest(c: seq<Entry>, now: Stamp)
    requires Sorted(c) && AllNormal(c) && Normal(now)
    requires c != [] ==> !AtMost(c[0].key, now)
    ensures forall e :: e in c ==> Less(now, e.key)
  {
    forall e | e in c ensures Less(now, e.key) {
      var i :| 0 <= i < |c| && c[i] == e;
      assert i == 0 || AtMost(c[0].key, c[i].key);
      LessIsOrder(c[0].key, c[i].key);
      LessIsOrder(now, c[0].key);
      LessIsOrder(now, c[i].key);
    }
  }

  /** The entry an iterator to the first node points to is the first. */
  lemma OnlyFirst(before: seq<Entry>, node: nat, t: TimerId, after: seq<Entry>)
    requires before != [] && before[0].node == node && DistinctNodes(before) && Erased(before, node, t, after)
    ensures after == before[1..]
  {
    var i :| PointsTo(before, node, i) && before[i].timer == t && after == Erase(before, i);
    assert i == 0;
  }

  /** `after` is `before` without the one entry of `t` that the iterator points to. */
  ghost predicate Erased(before: seq<Entry>, node: nat, t: TimerId, after: seq<Entry>) {
    exists i :: PointsTo(before, node, i) && before[i].timer == t && after == Erase(before, i)
  }
}
