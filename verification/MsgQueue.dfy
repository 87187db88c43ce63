/** The bounded message queue of osapi (MsgQueue.hpp): send and receive as the steps that threads take
    between two acquisitions of the mutex, under any interleaving and with spurious wakeups. */
module MsgQueue {
  import opened Counting
  import opened Options
  import opened Sequences

  type Thread = nat

  datatype Item = Item(id: nat, message: int)

  /** Where a thread stands. `woken` tells a thread that came back from `wait` from one that just called. */
  datatype Point =
    | Idle
    | SendEnters(item: Item)               // before `mut_.lock()`
    | SendTests(item: Item, woken: bool)   // holds the mutex, at the `while`
    | SendSleeps(item: Item)               // in `writer_.wait`
    | SendWakes(item: Item)                // woken, the mutex not yet re-acquired
    | SendPushed                           // holds the mutex, item pushed
    | SendSignals                          // mutex released, before `reader_.signal()`
    | ReceiveEnters
    | ReceiveTests(woken: bool)
    | ReceiveSleeps
    | ReceiveWakes
    | ReceivePopped(item: Item)            // holds the mutex, before `writer_.signal()`
    | ReceiveSignalled(item: Item)         // holds the mutex, before `mut_.unlock()`

  predicate Holds(p: Point) {
    p.SendTests? || p.SendPushed? || p.ReceiveTests? || p.ReceivePopped? || p.ReceiveSignalled?
  }

  /** An item and the thread that handled it. */
  datatype Passed = Passed(thread: Thread, item: Item)

  /** `sent` and `received` are the history: items in the order they were pushed and popped. */
  datatype State = State(
    maxSize: nat, queue: seq<Item>, owner: Option<Thread>, at: map<Thread, Point>,
    sent: seq<Passed>, received: seq<Passed>)

  datatype Action =
    | CallSend(t: Thread, item: Item)
    | CallReceive(t: Thread)
    | Lock(t: Thread)                                    // first acquisition, or the one inside `wait`
    | Test(t: Thread)                                    // the `while` condition and what follows it
    | Signal(t: Thread, wakes: Option<Thread>)
    | Unlock(t: Thread)
    | SpuriousWakeup(t: Thread)

  predicate MayWake(s: State, wakes: Option<Thread>, sleeping: Role) {
    match wakes
    case None => Members(s.at, sleeping) == {}
    case Some(w) => w in Members(s.at, sleeping)
  }

  /** A signal wakes one sleeper if there is any. */
  predicate Enabled(s: State, a: Action) {
    a.t in s.at &&
    var p := s.at[a.t];
    match a
    case CallSend(_, _) => p.Idle?
    case CallReceive(_) => p.Idle?
    case Lock(_) => s.owner == None && (p.SendEnters? || p.SendWakes? || p.ReceiveEnters? || p.ReceiveWakes?)
    case Test(_) => p.SendTests? || p.ReceiveTests?
    case Signal(_, wakes) =>
      (p.SendSignals? && MayWake(s, wakes, SleepingReader)) || (p.ReceivePopped? && MayWake(s, wakes, SleepingWriter))
    case Unlock(_) => p.SendPushed? || p.ReceiveSignalled?
    case SpuriousWakeup(_) => p.SendSleeps? || p.ReceiveSleeps?
  }

  function Awake(p: Point): Point {
    if p.SendSleeps? then SendWakes(p.item) else if p.ReceiveSleeps? then ReceiveWakes else p
  }

  function Locked(p: Point): Point {
    if p.SendEnters? then SendTests(p.item, false)
    else if p.SendWakes? then SendTests(p.item, true)
    else if p.ReceiveEnters? then ReceiveTests(false)
    else if p.ReceiveWakes? then ReceiveTests(true)
    else p
  }

  function Move(s: State, t: Thread, p: Point): State {
    s.(at := s.at[t := p])
  }

  function Wake(s: State, wakes: Option<Thread>): State {
    if wakes.Some? && wakes.value in s.at then Move(s, wakes.value, Awake(s.at[wakes.value])) else s
  }

  function Apply(s: State, a: Action): State
    requires Enabled(s, a)
  {
    var p := s.at[a.t];
    match a
    case CallSend(t, item) => Move(s, t, SendEnters(item))
    case CallReceive(t) => Move(s, t, ReceiveEnters)
    case Lock(t) => Move(s, t, Locked(p)).(owner := Some(t))
    case Test(t) =>
      if p.SendTests? then
        if |s.queue| == s.maxSize then Move(s, t, SendSleeps(p.item)).(owner := None)
        else Move(s, t, SendPushed).(queue := s.queue + [p.item], sent := s.sent + [Passed(t, p.item)])
      else
        if |s.queue| == 0 then Move(s, t, ReceiveSleeps).(owner := None)
        else
          Move(s, t, ReceivePopped(s.queue[0]))
          .(queue := s.queue[1..], received := s.received + [Passed(t, s.queue[0])])
    case Signal(t, wakes) =>
      Wake(Move(s, t, if p.SendSignals? then Idle else ReceiveSignalled(p.item)), wakes)
    case Unlock(t) => Move(s, t, if p.SendPushed? then SendSignals else Idle).(owner := None)
    case SpuriousWakeup(t) => Move(s, t, Awake(p))
  }

  // ---------- who is about to do what ----------

  datatype Role =
    | SleepingReader | SleepingWriter
    | WokenReader | WokenWriter         // back from `wait`, has not taken or added an item yet
    | OwesReader                        // pushed an item and has still to signal `reader_`
    | OwesWriter                        // popped an item and has still to signal `writer_`
    | Other

  function RoleOf(p: Point): Role {
    if p.ReceiveSleeps? then SleepingReader
    else if p.SendSleeps? then SleepingWriter
    else if p.ReceiveWakes? || (p.ReceiveTests? && p.woken) then WokenReader
    else if p.SendWakes? || (p.SendTests? && p.woken) then WokenWriter
    else if p.SendPushed? || p.SendSignals? then OwesReader
    else if p.ReceivePopped? then OwesWriter
    else Other
  }

  function Members(at: map<Thread, Point>, r: Role): set<Thread> {
    set t | t in at && RoleOf(at[t]) == r
  }

  /** The threads in a role after one thread has moved. */
  lemma MembersMove(at: map<Thread, Point>, t: Thread, p: Point, r: Role)
    requires t in at
    ensures Members(at[t := p], r) == (Members(at, r) - {t}) + (if RoleOf(p) == r then {t} else {})
    ensures |Members(at[t := p], r)| == |Members(at, r)| - One(RoleOf(at[t]) == r) + One(RoleOf(p) == r)
  {
    ReplaceMember(Members(at, r), t, RoleOf(p) == r);
  }

  // ---------- the invariant ----------

  /** The mutex is held by exactly the thread that stands at a point inside it. */
  predicate Exclusive(s: State) {
    (s.owner.Some? ==> s.owner.value in s.at) &&
    forall t :: t in s.at ==> (Holds(s.at[t]) <==> s.owner == Some(t))
  }

  /** The queue is never longer than allowed. */
  predicate Bounded(s: State) {
    |s.queue| <= s.maxSize
  }

  /** First in, first out, and nothing is lost, duplicated or changed. */
  predicate Fifo(s: State) {
    Items(s.sent) == Items(s.received) + s.queue
  }

  function Items(history: seq<Passed>): seq<Item> {
    seq(|history|, i requires 0 <= i < |history| => history[i].item)
  }

  /** While a reader sleeps, every queued item has a woken reader or a signal on its way. */
  predicate ReadersServed(s: State) {
    Members(s.at, SleepingReader) != {} ==>
      |s.queue| <= |Members(s.at, WokenReader)| + |Members(s.at, OwesReader)|
  }

  /** While a writer sleeps, every free place has a woken writer, or the receiver inside the mutex is about
      to signal. */
  predicate WritersServed(s: State) {
    Members(s.at, SleepingWriter) != {} ==>
      s.maxSize - |s.queue| <= |Members(s.at, WokenWriter)| + |Members(s.at, OwesWriter)|
  }

  predicate Inv(s: State) {
    Exclusive(s) && Bounded(s) && Fifo(s) && ReadersServed(s) && WritersServed(s)
  }

  function Start(maxSize: nat, threads: set<Thread>): State {
    State(maxSize, [], None, map t | t in threads :: Idle, [], [])
  }

  lemma StartInv(maxSize: nat, threads: set<Thread>)
    ensures Inv(Start(maxSize, threads))
  {
    var s := Start(maxSize, threads);
    assert Members(s.at, SleepingReader) == {};
    assert Members(s.at, SleepingWriter) == {};
  }

  lemma StepKeepsOwner(s: State, a: Action)
    requires Inv(s) && Enabled(s, a)
    ensures Exclusive(Apply(s, a))
  {
    match a
    case CallSend(_, _) =>
    case CallReceive(_) =>
    case Lock(_) =>
    case Test(_) =>
    case Signal(_, _) =>
    case Unlock(_) =>
    case SpuriousWakeup(_) =>
  }

  lemma ItemsSnoc(history: seq<Passed>, p: Passed)
    ensures Items(history + [p]) == Items(history) + [p.item]
  {
  }

  lemma StepKeepsQueue(s: State, a: Action)
    requires Inv(s) && Enabled(s, a)
    ensures Bounded(Apply(s, a)) && Fifo(Apply(s, a))
  {
    var p := s.at[a.t];
    if a.Test? && p.ReceiveTests? && |s.queue| != 0 {
      assert s.queue == [s.queue[0]] + s.queue[1..];
      ItemsSnoc(s.received, Passed(a.t, s.queue[0]));
    } else if a.Test? && p.SendTests? {
      ItemsSnoc(s.sent, Passed(a.t, p.item));
    }
  }

  /** The sizes on which the wakeup invariants depend, for readers or for writers. */
  predicate Served(at: map<Thread, Point>, waiting: nat, sleeping: Role, woken: Role, owes: Role) {
    Members(at, sleeping) != {} ==> waiting <= |Members(at, woken)| + |Members(at, owes)|
  }

  /** A move of one thread keeps the sleepers served if it does not add more waiting work than helpers. */
  lemma MoveServed(at: map<Thread, Point>, t: Thread, p: Point, waiting: nat, waiting': nat,
                   sleeping: Role, woken: Role, owes: Role)
    requires t in at && Served(at, waiting, sleeping, woken, owes)
    requires RoleOf(p) == sleeping ==> waiting' == 0
    requires RoleOf(p) != sleeping ==>
               waiting' - waiting <= One(RoleOf(p) == woken) - One(RoleOf(at[t]) == woken)
                                     + One(RoleOf(p) == owes) - One(RoleOf(at[t]) == owes)
    ensures Served(at[t := p], waiting', sleeping, woken, owes)
  {
    MembersMove(at, t, p, sleeping);
    MembersMove(at, t, p, woken);
    MembersMove(at, t, p, owes);
    if RoleOf(p) != sleeping && Members(at[t := p], sleeping) != {} {
      assert Members(at, sleeping) != {};
    }
  }

  /** Signalling serves the sleepers as well as the pending signal did. */
  lemma SignalServed(at: map<Thread, Point>, t: Thread, p: Point, wakes: Option<Thread>, waiting: nat,
                     sleeping: Role, woken: Role, owes: Role)
    requires t in at && Served(at, waiting, sleeping, woken, owes)
    requires RoleOf(at[t]) == owes && RoleOf(p) == Other && sleeping != woken && woken != owes && owes != sleeping
    requires wakes == None ==> Members(at, sleeping) == {}
    requires wakes.Some? ==> wakes.value in Members(at, sleeping) && RoleOf(Awake(at[wakes.value])) == woken
    requires sleeping != Other && woken != Other && owes != Other
    ensures Served(if wakes.Some? then at[t := p][wakes.value := Awake(at[wakes.value])] else at[t := p],
                   waiting, sleeping, woken, owes)
  {
    MembersMove(at, t, p, sleeping);
    MembersMove(at, t, p, woken);
    MembersMove(at, t, p, owes);
    if wakes.Some? {
      var w := wakes.value;
      var q := Awake(at[w]);
      MembersMove(at[t := p], w, q, sleeping);
      MembersMove(at[t := p], w, q, woken);
      MembersMove(at[t := p], w, q, owes);
    }
  }

  /** A signal to the other side only moves threads in roles that do not matter here. */
  lemma OtherSignalServed(s: State, t: Thread, p: Point, wakes: Option<Thread>, waiting: nat,
                          sleeping: Role, woken: Role, owes: Role)
    requires t in s.at && Served(s.at, waiting, sleeping, woken, owes)
    requires RoleOf(p) == Other && RoleOf(s.at[t]) != woken && RoleOf(s.at[t]) != owes
    requires sleeping != Other && woken != Other && owes != Other
    requires wakes.Some? ==> wakes.value in s.at && wakes.value != t &&
                             RoleOf(s.at[wakes.value]) != woken && RoleOf(s.at[wakes.value]) != owes &&
                             RoleOf(Awake(s.at[wakes.value])) != sleeping
    ensures Served(Wake(Move(s, t, p), wakes).at, waiting, sleeping, woken, owes)
  {
    MoveServed(s.at, t, p, waiting, waiting, sleeping, woken, owes);
    if wakes.Some? {
      var u := Move(s, t, p);
      MoveServed(u.at, wakes.value, Awake(u.at[wakes.value]), waiting, waiting, sleeping, woken, owes);
    }
  }

  lemma StepKeepsReaders(s: State, a: Action)
    requires Inv(s) && Enabled(s, a)
    ensures ReadersServed(Apply(s, a))
  {
    var t, p, n := a.t, s.at[a.t], |s.queue|;
    assert Served(s.at, n, SleepingReader, WokenReader, OwesReader);
    var s' := Apply(s, a);
    if a.Signal? && p.SendSignals? {
      SignalServed(s.at, t, Idle, a.wakes, n, SleepingReader, WokenReader, OwesReader);
    } else if a.Signal? {
      OtherSignalServed(s, t, ReceiveSignalled(p.item), a.wakes, n, SleepingReader, WokenReader, OwesReader);
    } else {
      MoveServed(s.at, t, s'.at[t], n, |s'.queue|, SleepingReader, WokenReader, OwesReader);
    }
    assert Served(s'.at, |s'.queue|, SleepingReader, WokenReader, OwesReader);
  }

  lemma SignalKeepsWriters(s: State, a: Action)
    requires Inv(s) && Enabled(s, a) && a.Signal?
    ensures WritersServed(Apply(s, a))
  {
    var p, free := s.at[a.t], s.maxSize - |s.queue|;
    assert Served(s.at, free, SleepingWriter, WokenWriter, OwesWriter);
    if p.ReceivePopped? {
      SignalServed(s.at, a.t, ReceiveSignalled(p.item), a.wakes, free, SleepingWriter, WokenWriter, OwesWriter);
    } else {
      OtherSignalServed(s, a.t, Idle, a.wakes, free, SleepingWriter, WokenWriter, OwesWriter);
    }
    assert Served(Apply(s, a).at, free, SleepingWriter, WokenWriter, OwesWriter);
  }

  lemma StepKeepsWriters(s: State, a: Action)
    requires Inv(s) && Enabled(s, a)
    ensures WritersServed(Apply(s, a))
  {
    if a.Signal? {
      SignalKeepsWriters(s, a);
    } else {
      var s' := Apply(s, a);
      var free, free' := s.maxSize - |s.queue|, s'.maxSize - |s'.queue|;
      assert free' >= 0 by { StepKeepsQueue(s, a); }
      assert Served(s.at, free, SleepingWriter, WokenWriter, OwesWriter);
      MoveServed(s.at, a.t, s'.at[a.t], free, free', SleepingWriter, WokenWriter, OwesWriter);
      assert Served(s'.at, free', SleepingWriter, WokenWriter, OwesWriter);
    }
  }

  // ---------- whole runs ----------

  /** The state after the actions, if each was possible. */
  function Run(s: State, actions: seq<Action>): Option<State>
    decreases |actions|
  {
    if actions == [] then Some(s)
    else if !Enabled(s, actions[0]) then None
    else Run(Apply(s, actions[0]), actions[1..])
  }

  lemma StepInv(s: State, a: Action)
    requires Inv(s) && Enabled(s, a)
    ensures Inv(Apply(s, a))
  {
    StepKeepsOwner(s, a);
    StepKeepsQueue(s, a);
    StepKeepsReaders(s, a);
    StepKeepsWriters(s, a);
  }

  lemma {:induction false} RunInv(s: State, actions: seq<Action>)
    requires Inv(s)
    ensures Run(s, actions).Some? ==> Inv(Run(s, actions).value)
    decreases |actions|
  {
    if actions != [] && Enabled(s, actions[0]) {
      StepInv(s, actions[0]);
      RunInv(Apply(s, actions[0]), actions[1..]);
    }
  }

  /** Every run from the start, whatever the interleaving. */
  lemma {:induction false} EveryRunIsSafe(maxSize: nat, threads: set<Thread>, actions: seq<Action>)
    ensures var r := Run(Start(maxSize, threads), actions);
            r.Some? ==> |r.value.queue| <= r.value.maxSize && Fifo(r.value) &&
                        ReadersServed(r.value) && WritersServed(r.value)
  {
    StartInv(maxSize, threads);
    RunInv(Start(maxSize, threads), actions);
  }

  // ---------- what the callers put in and get out ----------

  /** What a thread has passed to `send`, in order. */
  function CallsOf(t: Thread, actions: seq<Action>): seq<Item> {
    if actions == [] then []
    else Called(t, actions[0]) + CallsOf(t, actions[1..])
  }

  function Called(t: Thread, a: Action): seq<Item> {
    if a.CallSend? && a.t == t then [a.item] else []
  }

  /** What has come back from `receive`, and to whom: a receive ends when it unlocks the mutex. */
  function Returns(s: State, actions: seq<Action>): seq<Passed>
    decreases |actions|
  {
    if actions == [] || !Enabled(s, actions[0]) then []
    else Returned(s, actions[0]) + Returns(Apply(s, actions[0]), actions[1..])
  }

  function Returned(s: State, a: Action): seq<Passed>
    requires Enabled(s, a)
  {
    if a.Unlock? && s.at[a.t].ReceiveSignalled? then [Passed(a.t, s.at[a.t].item)] else []
  }

  /** The items that a thread has pushed, in order. */
  function SentBy(t: Thread, sent: seq<Passed>): seq<Item> {
    if sent == [] then []
    else
      var n := |sent| - 1;
      SentBy(t, sent[..n]) + (if sent[n].thread == t then [sent[n].item] else [])
  }

  /** The item of a send that has not pushed it yet. */
  function Pending(p: Point): seq<Item> {
    if p.SendEnters? || p.SendTests? || p.SendSleeps? || p.SendWakes? then [p.item] else []
  }

  /** The item of the receive that has popped it and not returned yet. There is at most one: it holds the mutex. */
  function InHand(s: State): seq<Passed> {
    match s.owner
    case None => []
    case Some(t) =>
      if t in s.at && (s.at[t].ReceivePopped? || s.at[t].ReceiveSignalled?) then [Passed(t, s.at[t].item)] else []
  }

  /** The items with which a thread has called `send`, as far as the state remembers. */
  function Offered(s: State, t: Thread): seq<Item>
    requires t in s.at
  {
    SentBy(t, s.sent) + Pending(s.at[t])
  }

  lemma SentBySnoc(t: Thread, sent: seq<Passed>, p: Passed)
    ensures SentBy(t, sent + [p]) == SentBy(t, sent) + (if p.thread == t then [p.item] else [])
  {
    assert (sent + [p])[..|sent|] == sent;
  }

  lemma {:induction false} StepOffers(s: State, a: Action, t: Thread)
    requires Inv(s) && Enabled(s, a) && t in s.at
    ensures t in Apply(s, a).at
    ensures Offered(Apply(s, a), t) == Offered(s, t) + Called(t, a)
  {
    if a.Test? && s.at[a.t].SendTests? {
      SentBySnoc(t, s.sent, Passed(a.t, s.at[a.t].item));
    } else {
      PendingStep(s, a, t);
    }
  }

  /** Apart from the test, a step adds to what is pending the argument of a call and nothing else. */
  lemma {:induction false} PendingStep(s: State, a: Action, t: Thread)
    requires Enabled(s, a) && t in s.at && !(a.Test? && s.at[a.t].SendTests?)
    ensures var s' := Apply(s, a);
            s'.sent == s.sent && t in s'.at && Pending(s'.at[t]) == Pending(s.at[t]) + Called(t, a)
  {
    match a
    case CallSend(_, _) =>
    case CallReceive(_) =>
    case Lock(_) =>
    case Test(_) =>
    case Signal(_, _) =>
    case Unlock(_) =>
    case SpuriousWakeup(_) =>
  }

  /** A receive returns the item that it has popped itself. */
  lemma {:induction false} StepReturns(s: State, a: Action, before: seq<Passed>)
    requires Inv(s) && Enabled(s, a) && s.received == before + InHand(s)
    ensures Apply(s, a).received == before + Returned(s, a) + InHand(Apply(s, a))
  {
  }

  lemma {:induction false} RunOffers(s: State, actions: seq<Action>, t: Thread)
    requires Inv(s) && Run(s, actions).Some? && t in s.at
    ensures t in Run(s, actions).value.at
    ensures Offered(Run(s, actions).value, t) == Offered(s, t) + CallsOf(t, actions)
    decreases |actions|
  {
    if actions != [] {
      var s' := Apply(s, actions[0]);
      assert Inv(s') by { StepInv(s, actions[0]); }
      assert t in s'.at && Offered(s', t) == Offered(s, t) + Called(t, actions[0]) by { StepOffers(s, actions[0], t); }
      RunOffers(s', actions[1..], t);
      Regroup(Offered(s, t), Called(t, actions[0]), CallsOf(t, actions[1..]));
    }
  }

  lemma {:induction false} RunReturns(s: State, actions: seq<Action>, before: seq<Passed>)
    requires Inv(s) && Run(s, actions).Some? && s.received == before + InHand(s)
    ensures Run(s, actions).value.received == before + Returns(s, actions) + InHand(Run(s, actions).value)
    decreases |actions|
  {
    if actions != [] {
      var s', one := Apply(s, actions[0]), Returned(s, actions[0]);
      assert Inv(s') by { StepInv(s, actions[0]); }
      assert s'.received == before + one + InHand(s') by { StepReturns(s, actions[0], before); }
      RunReturns(s', actions[1..], before + one);
      Regroup(before, one, Returns(s', actions[1..]));
    }
  }

  /** Every run from the start, seen by the callers: the items that receives have returned are, in order, the items
      popped from the front, each to the thread that popped it, but for the one that a receive still has in hand; and
      the arguments of a thread's sends are, in order, the items it has pushed, but for the one still waiting. */
  lemma {:induction false} CallersSee(maxSize: nat, threads: set<Thread>, actions: seq<Action>, t: Thread)
    requires t in threads && Run(Start(maxSize, threads), actions).Some?
    ensures var s, got := Run(Start(maxSize, threads), actions).value, Returns(Start(maxSize, threads), actions);
            t in s.at && Items(s.sent) == Items(got) + Items(InHand(s)) + s.queue &&
            s.received == got + InHand(s) && CallsOf(t, actions) == SentBy(t, s.sent) + Pending(s.at[t])
  {
    var start := Start(maxSize, threads);
    StartInv(maxSize, threads);
    RunInv(start, actions);
    RunOffers(start, actions, t);
    RunReturns(start, actions, []);
    var s, got := Run(start, actions).value, Returns(start, actions);
    assert [] + got == got;
    assert Items(got + InHand(s)) == Items(got) + Items(InHand(s));
  }

  /** No thread can move except by a new call or a spurious wakeup. */
  predicate Quiet(s: State) {
    forall t :: t in s.at ==> s.at[t].Idle? || s.at[t].SendSleeps? || s.at[t].ReceiveSleeps?
  }

  /** No wakeup is lost: when everything is quiet a reader sleeps only on an empty queue, and a writer only
      on a full one. */
  lemma {:induction false} SleepersHaveReason(s: State)
    requires Inv(s) && Quiet(s)
    ensures Members(s.at, SleepingReader) != {} ==> s.queue == []
    ensures Members(s.at, SleepingWriter) != {} ==> |s.queue| == s.maxSize
  {
    forall r | r == WokenReader || r == OwesReader || r == WokenWriter || r == OwesWriter
      ensures Members(s.at, r) == {}
    {
      forall t | t in s.at ensures RoleOf(s.at[t]) != r {
        assert s.at[t].Idle? || s.at[t].SendSleeps? || s.at[t].ReceiveSleeps?;
      }
    }
  }

  /** A quiet system with room for an item never has a sleeping reader and a sleeping writer at once. */
  lemma {:induction false} NoDeadlock(s: State)
    requires Inv(s) && Quiet(s) && s.maxSize > 0
    ensures Members(s.at, SleepingReader) == {} || Members(s.at, SleepingWriter) == {}
  {
    SleepersHaveReason(s);
  }

  /** Unless it is quiet, some thread can take a step of its own. */
  lemma {:induction false} SomeThreadMoves(s: State) returns (a: Action)
    requires Inv(s) && !Quiet(s)
    ensures Enabled(s, a) && !a.CallSend? && !a.CallReceive? && !a.SpuriousWakeup?
  {
    var t :| t in s.at && !(s.at[t].Idle? || s.at[t].SendSleeps? || s.at[t].ReceiveSleeps?);
    if s.owner.Some? {
      t := s.owner.value;
    }
    var p := s.at[t];
    if p.SendTests? || p.ReceiveTests? {
      a := Test(t);
    } else if p.SendPushed? || p.ReceiveSignalled? {
      a := Unlock(t);
    } else if p.SendSignals? || p.ReceivePopped? {
      var sleepers := Members(s.at, if p.SendSignals? then SleepingReader else SleepingWriter);
      if sleepers == {} {
        a := Signal(t, None);
      } else {
        var w :| w in sleepers;
        a := Signal(t, Some(w));
      }
    } else {
      a := Lock(t);
    }
  }
}
