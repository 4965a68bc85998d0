/** The scheduler over whole runs: what holds in every state a run can reach. */
module SchedulerRuns {
  import opened Wrappers
  import opened Scheduler
  import opened SchedulerPlaces
  import opened SchedulerProof
  import opened SchedulerSafety

  /**
   * The carriers as they start: each on its own root, which is its g0 on a worker; the main
   * carrier's root is the module body, running, and its g0 a task beside it.
   */
  predicate FreshCarrier(s: State, c: nat)
    requires c < |s.cars| && Fits(s)
  {
    var car := s.cars[c];
    assert CarrierFits(car, |s.tasks|);
    && car.left.None? && car.next.None? && car.rq == [] && s.tasks[car.cur].home == c
    && s.tasks[car.g0].home == c && s.tasks[car.cur].root && s.tasks[car.cur].onstack
    && (if car.cur == car.g0 then car.pc.LookNext? else car.pc.Run? && !s.tasks[car.g0].onstack)
  }

  /** Whether a task is the root or the g0 of some carrier. */
  ghost predicate OfCarrier(s: State, t: nat) {
    exists c :: 0 <= c < |s.cars| && (s.cars[c].cur == t || s.cars[c].g0 == t)
  }

  ghost predicate Fresh(s: State) {
    && Fits(s)
    && (forall c :: 0 <= c < |s.cars| ==> FreshCarrier(s, c))
    && (forall c, d :: 0 <= c < |s.cars| && 0 <= d < |s.cars| && c != d ==>
          s.cars[c].cur != s.cars[d].cur && s.cars[c].g0 != s.cars[d].g0 && s.cars[c].cur != s.cars[d].g0)
    && s.monitors == {} && s.poller == {}
    && (forall t :: 0 <= t < |s.tasks| ==>
          && !s.tasks[t].pinned && !s.tasks[t].done && !s.tasks[t].freed && s.tasks[t].locks == []
          && (t in s.unused <==> !OfCarrier(s, t))
          && (t in s.unused ==> !s.tasks[t].root && !s.tasks[t].onstack))
  }

  ghost predicate IsAG0(s: State, t: nat) {
    exists c :: 0 <= c < |s.cars| && s.cars[c].g0 == t
  }

  predicate SlotFits(at: Slot, n: nat) {
    at.Running? || at.Queue? || at.Next? || at.InHand? || at.InLoot? ==> at.c < n
  }

  ghost predicate G0sOnly(s: State, w: seq<Slot>) {
    forall t :: 0 <= t < |w| ==> SlotFits(w[t], |s.cars|) && (w[t] == IsG0 ==> IsAG0(s, t))
  }

  lemma KeepG0sOnly(s: State, w: seq<Slot>, c: nat, a: Action)
    requires |w| == |s.tasks| && G0sOnly(s, w) && Can(s, c, a)
    ensures G0sOnly(Do(s, c, a), Moved(s, w, c, a))
  {
    SameG0s(s, c, a);
    forall t | 0 <= t < |w|
      ensures SlotFits(Moved(s, w, c, a)[t], |s.cars|)
      ensures Moved(s, w, c, a)[t] == IsG0 ==> IsAG0(Do(s, c, a), t)
    {
      NoNewG0(s, w, c, a, t);
      if w[t] == IsG0 {
        var d :| 0 <= d < |s.cars| && s.cars[d].g0 == t;
        assert Do(s, c, a).cars[d].g0 == t;
      }
    }
  }

  lemma NoNewG0(s: State, w: seq<Slot>, c: nat, a: Action, t: nat)
    requires |w| == |s.tasks| && Can(s, c, a) && t < |w| && SlotFits(w[t], |s.cars|)
    ensures Moved(s, w, c, a)[t] == IsG0 ==> w[t] == IsG0
    ensures SlotFits(Moved(s, w, c, a)[t], |s.cars|)
  {
    Bounds(s, c);
    if a.PushOld? || a.PushBack? {
      assert Hand(s.cars[c])[0] == s.cars[c].pc.out;
    }
    hide Steal, Hand;
  }

  ghost predicate Good(s: State, w: seq<Slot>, on: seq<Option<nat>>) {
    && |w| == |on| == |s.tasks|
    && InRange(s) && Lists(s, w) && AllSane(s) && Stacks(s, on) && OwnG0(s, on) && GoesFree(s) && AllTasksOk(s, w, on)
    && G0sOnly(s, w) && G0sAtHome(s)
  }

  ghost predicate Invariant(s: State) {
    exists w, on :: Good(s, w, on)
  }

  lemma KeepSane(s: State, w: seq<Slot>, c: nat, a: Action)
    requires Lists(s, w) && AllSane(s) && Can(s, c, a)
    ensures AllSane(Do(s, c, a))
  {
    hide Lists, DoWork, DoLook, DoSwitch, DoOutside, Sane;
    if Works(a) {
      KeepSaneWork(s, c, a);
    } else if Looks(a) {
      KeepSaneLook(s, c, a);
    } else if Switches(a) {
      if s.cars[c].pc.Picked? {
        PickedIsNoG0(s, w, c);
      }
      KeepSaneSwitch(s, c, a);
    } else {
      KeepSaneOutside(s, c, a);
    }
  }

  lemma KeepGood(s: State, w: seq<Slot>, on: seq<Option<nat>>, c: nat, a: Action)
    requires Good(s, w, on) && Can(s, c, a)
    ensures Good(Do(s, c, a), Moved(s, w, c, a), OnAfter(s, on, c, a))
  {
    assert Sane(s.cars[c]);
    hide InRange, Lists, Stacks, OwnG0, GoesFree, AllTasksOk, Do, Moved, OnAfter, Sane, G0sOnly, G0sAtHome;
    KeepInRange(s, c, a);
    KeepLists(s, w, c, a);
    KeepSane(s, w, c, a);
    KeepStacks(s, on, c, a);
    KeepOwnG0(s, w, on, c, a);
    KeepGoesFree(s, w, on, c, a);
    KeepTasks(s, w, on, c, a);
    KeepG0sOnly(s, w, c, a);
    KeepG0sAtHome(s, w, on, c, a);
  }

  /** The state after a list of actions, if each could happen. */
  predicate Runs(s: State, events: seq<(nat, Action)>, t: State)
    decreases |events|
  {
    if events == [] then s == t
    else Can(s, events[0].0, events[0].1) && Runs(Do(s, events[0].0, events[0].1), events[1..], t)
  }

  lemma {:induction false} RunsKeep(s: State, events: seq<(nat, Action)>, t: State)
    requires Invariant(s) && Runs(s, events, t)
    ensures Invariant(t)
    decreases |events|
  {
    hide Good, Can, Do;
    if events != [] {
      var (c, a) := events[0];
      var w, on :| Good(s, w, on);
      KeepGood(s, w, on, c, a);
      RunsKeep(Do(s, c, a), events[1..], t);
    }
  }

  ghost predicate Reachable(t: State) {
    exists s, events :: Fresh(s) && Runs(s, events, t)
  }

  // The first state.

  ghost function FreshSlot(s: State, t: nat): Slot {
    if exists c :: 0 <= c < |s.cars| && s.cars[c].g0 == t then IsG0
    else if exists c :: 0 <= c < |s.cars| && s.cars[c].cur == t then
      Running(var c :| 0 <= c < |s.cars| && s.cars[c].cur == t; c)
    else Unused
  }

  ghost function FreshOn(s: State, t: nat): Option<nat> {
    if exists c :: 0 <= c < |s.cars| && s.cars[c].cur == t then
      Some(var c :| 0 <= c < |s.cars| && s.cars[c].cur == t; c)
    else None
  }

  lemma FreshCarrierPlaces(s: State, w: seq<Slot>, on: seq<Option<nat>>, c: nat)
    requires Fresh(s) && c < |s.cars| && |w| == |on| == |s.tasks|
    requires forall t :: 0 <= t < |w| ==> w[t] == FreshSlot(s, t) && on[t] == FreshOn(s, t)
    ensures s.cars[c].g0 < |w| && s.cars[c].cur < |w| && w[s.cars[c].g0] == IsG0 && on[s.cars[c].cur] == Some(c)
    ensures s.cars[c].cur != s.cars[c].g0 ==> w[s.cars[c].cur] == Running(c) && on[s.cars[c].g0] == None
    ensures forall t :: 0 <= t < |w| && w[t] == Running(c) ==> t == s.cars[c].cur && t != s.cars[c].g0
    ensures Sane(s.cars[c]) && AtCar(s.cars[c], w, c)
  {
    var car := s.cars[c];
    assert CarrierFits(car, |w|) && FreshCarrier(s, c);
    if car.cur != car.g0 {
      forall d | 0 <= d < |s.cars| ensures s.cars[d].g0 != car.cur && (s.cars[d].cur == car.g0 ==> false) {
        if d != c {
          assert s.cars[d].cur != s.cars[c].g0 && s.cars[c].cur != s.cars[d].g0;
        }
      }
    }
  }

  lemma FreshTask(s: State, t: nat)
    requires Fresh(s) && t < |s.tasks|
    ensures Parked(s, seq(|s.tasks|, i requires 0 <= i < |s.tasks| => FreshSlot(s, i)), t)
    ensures TaskOk(s.tasks[t], FreshSlot(s, t), FreshOn(s, t))
    ensures s.tasks[t].onstack <==> FreshOn(s, t).Some?
    ensures FreshOn(s, t).Some? ==> FreshOn(s, t).value < |s.cars| && s.cars[FreshOn(s, t).value].cur == t
  {
    if exists c :: 0 <= c < |s.cars| && s.cars[c].cur == t {
      var c := FreshOn(s, t).value;
      assert FreshCarrier(s, c);
    } else if exists c :: 0 <= c < |s.cars| && s.cars[c].g0 == t {
      var c :| 0 <= c < |s.cars| && s.cars[c].g0 == t;
      assert FreshCarrier(s, c);
    }
  }

  lemma FreshIsGood(s: State) returns (w: seq<Slot>, on: seq<Option<nat>>)
    requires Fresh(s)
    ensures Good(s, w, on)
  {
    w := seq(|s.tasks|, t requires 0 <= t < |s.tasks| => FreshSlot(s, t));
    on := seq(|s.tasks|, t requires 0 <= t < |s.tasks| => FreshOn(s, t));
    forall c | 0 <= c < |s.cars|
      ensures s.cars[c].g0 < |w| && s.cars[c].cur < |w| && w[s.cars[c].g0] == IsG0 && on[s.cars[c].cur] == Some(c)
      ensures Sane(s.cars[c]) && AtCar(s.cars[c], w, c) && s.cars[c].left.None? && !s.cars[c].pc.Going?
      ensures on[s.cars[c].g0] == None || on[s.cars[c].g0] == Some(c)
      ensures s.tasks[s.cars[c].g0].home == c
    {
      FreshCarrierPlaces(s, w, on, c);
      assert FreshCarrier(s, c);
    }
    forall t | 0 <= t < |w|
      ensures Parked(s, w, t) && TaskOk(s.tasks[t], w[t], on[t]) && (s.tasks[t].onstack <==> on[t].Some?)
      ensures on[t].Some? ==> on[t].value < |s.cars| && Uses(s.cars[on[t].value], t)
    {
      FreshTask(s, t);
    }
    hide AtCar, Parked, TaskOk, Sane, FreshSlot, FreshOn, FreshCarrier, CarrierFits;
  }

  lemma ReachableIsGood(t: State) returns (w: seq<Slot>, on: seq<Option<nat>>)
    requires Reachable(t)
    ensures |w| == |on| == |t.tasks| && Good(t, w, on)
  {
    hide Good, Fresh;
    var s, events :| Fresh(s) && Runs(s, events, t);
    var w0, on0 := FreshIsGood(s);
    RunsKeep(s, events, t);
    w, on :| Good(t, w, on);
    GoodSizes(t, w, on);
  }

  lemma GoodSizes(s: State, w: seq<Slot>, on: seq<Option<nat>>)
    requires Good(s, w, on)
    ensures |w| == |on| == |s.tasks|
  {}

  // What a user of the scheduler relies on.

  /** All the places a task is found in. */
  function Whereabouts(s: State, t: nat): set<Slot> {
    (if t in s.monitors then {InMonitor} else {}) + (if t in s.poller then {InPoller} else {}) +
    (set c | 0 <= c < |s.cars| && t in RunList(s.cars[c]) :: Running(c)) +
    (set c | 0 <= c < |s.cars| && t in s.cars[c].rq :: Queue(c)) +
    (set c | 0 <= c < |s.cars| && t in Some1(s.cars[c].next) :: Next(c)) +
    (set c | 0 <= c < |s.cars| && t in Hand(s.cars[c]) :: InHand(c)) +
    (set c | 0 <= c < |s.cars| && t in Loot(s.cars[c]) :: InLoot(c))
  }

  /** Started, not ended, and no carrier's g0. */
  ghost predicate Live(s: State, t: nat) {
    t < |s.tasks| && t !in s.unused && !s.tasks[t].done && !IsAG0(s, t)
  }

  lemma PlaceIsWhereabouts(s: State, w: seq<Slot>, t: nat)
    requires Lists(s, w) && t < |w| && SlotFits(w[t], |s.cars|)
    ensures Whereabouts(s, t) == if w[t].Unused? || w[t].Ended? || w[t].IsG0? then {} else {w[t]}
  {
    forall c | 0 <= c < |s.cars|
      ensures t in RunList(s.cars[c]) <==> w[t] == Running(c)
      ensures t in s.cars[c].rq <==> w[t] == Queue(c)
      ensures t in Some1(s.cars[c].next) <==> w[t] == Next(c)
      ensures t in Hand(s.cars[c]) <==> w[t] == InHand(c)
      ensures t in Loot(s.cars[c]) <==> w[t] == InLoot(c)
    {
      assert AtCar(s.cars[c], w, c);
    }
    assert Parked(s, w, t);
    hide RunList, Hand, Loot, Some1, AtCar;
  }

  /** Every live task is in exactly one place; an ended or unused one, and a g0, in none. */
  lemma ExactlyOnePlace(s: State, t: nat)
    requires Reachable(s) && t < |s.tasks|
    ensures Live(s, t) ==> exists at :: Whereabouts(s, t) == {at}
    ensures !Live(s, t) ==> Whereabouts(s, t) == {}
  {
    hide Reachable, Stacks, OwnG0, GoesFree, AllTasksOk, InRange, AllSane, Whereabouts;
    var w, on := ReachableIsGood(s);
    PlaceIsWhereabouts(s, w, t);
    assert Parked(s, w, t);
    if IsAG0(s, t) {
      var c :| 0 <= c < |s.cars| && s.cars[c].g0 == t;
      G0Place(s, w, c);
    }
  }

  /** No two carriers are ever on one task's stack, neither running on it nor switching away from it. */
  lemma StacksApart(s: State, c: nat, d: nat, t: nat)
    requires Reachable(s) && c < |s.cars| && d < |s.cars| && Uses(s.cars[c], t) && Uses(s.cars[d], t)
    ensures c == d && t < |s.tasks| && s.tasks[t].onstack && !s.tasks[t].freed
  {
    hide Reachable, Lists, AllSane, OwnG0, GoesFree, InRange, G0sOnly, G0sAtHome;
    var w, on := ReachableIsGood(s);
    assert TaskOk(s.tasks[t], w[t], on[t]);
  }

  /** A carrier that waits for a stack to be left. */
  predicate Spins(s: State, c: nat)
    requires c < |s.cars|
  {
    var car := s.cars[c];
    car.pc.Going? && car.pc.n != car.cur && car.pc.n < |s.tasks| && s.tasks[car.pc.n].onstack
  }

  /**
   * Only g0 waits for a stack, and the carrier on that stack does not itself wait for one, nor
   * sleeps, nor runs the task's own code: it is on its way off. So no carriers wait in a circle.
   */
  lemma WaitsAreShort(s: State, c: nat) returns (d: nat)
    requires Reachable(s) && c < |s.cars| && Spins(s, c)
    ensures s.cars[c].cur == s.cars[c].g0
    ensures d < |s.cars| && d != c && Uses(s.cars[d], s.cars[c].pc.n)
    ensures !Spins(s, d) && !s.cars[d].pc.Asleep? && s.cars[c].pc.n !in RunList(s.cars[d])
  {
    hide Reachable, Lists, OwnG0, AllTasksOk, InRange, G0sOnly, G0sAtHome;
    var w, on := ReachableIsGood(s);
    var n := s.cars[c].pc.n;
    assert Sane(s.cars[c]);
    d := on[n].value;
    assert Sane(s.cars[d]);
    SpunForPlace(s, w, c, d);
  }

  lemma SpunForPlace(s: State, w: seq<Slot>, c: nat, d: nat)
    requires Lists(s, w) && c < |s.cars| && d < |s.cars| && s.cars[c].pc.Going? && s.cars[c].pc.n != s.cars[c].g0
    ensures s.cars[c].pc.n != s.cars[d].g0 && s.cars[c].pc.n !in RunList(s.cars[d])
  {
    GoTarget(s, w, c);
    G0Place(s, w, d);
    assert AtCar(s.cars[d], w, d);
    hide AtCar, Lists, RunList;
  }

  /** A task runs at its home. */
  lemma RunsAtHome(s: State, c: nat)
    requires Reachable(s) && c < |s.cars| && s.cars[c].pc.Run?
    ensures s.cars[c].cur < |s.tasks| && s.tasks[s.cars[c].cur].home == c
  {
    hide Reachable, Stacks, OwnG0, GoesFree, AllSane, InRange, G0sOnly, G0sAtHome;
    var w, on := ReachableIsGood(s);
    RunnerPlace(s, w, c);
    assert TaskOk(s.tasks[s.cars[c].cur], w[s.cars[c].cur], on[s.cars[c].cur]);
  }

  /** A mutex is unlocked by the carrier that locked it, wherever the task has waited in between. */
  lemma UnlockedWhereLocked(s: State, c: nat, i: nat)
    requires Reachable(s) && c < |s.cars| && s.cars[c].pc.Run? && s.cars[c].cur < |s.tasks|
    requires i < |s.tasks[s.cars[c].cur].locks|
    ensures s.tasks[s.cars[c].cur].locks[i] == c
  {
    hide Reachable, Stacks, OwnG0, GoesFree, AllSane, InRange, G0sOnly, G0sAtHome;
    var w, on := ReachableIsGood(s);
    RunnerPlace(s, w, c);
    assert TaskOk(s.tasks[s.cars[c].cur], w[s.cars[c].cur], on[s.cars[c].cur]);
  }

  /** A thief takes a slot without asking whether its task is pinned. It need not: none there is. */
  lemma SlotHoldsNoPinned(s: State, c: nat)
    requires Reachable(s) && c < |s.cars| && s.cars[c].next.Some?
    ensures s.cars[c].next.value < |s.tasks|
    ensures !s.tasks[s.cars[c].next.value].pinned && !s.tasks[s.cars[c].next.value].root
  {
    hide Reachable, Stacks, OwnG0, GoesFree, AllSane, InRange, G0sOnly, G0sAtHome;
    var w, on := ReachableIsGood(s);
    SlotLists(s, w, c, s.cars[c].next.value);
    assert TaskOk(s.tasks[s.cars[c].next.value], w[s.cars[c].next.value], on[s.cars[c].next.value]);
  }

  /** h is a task's home, and no other carrier is on its stack, neither running on it nor just off it. */
  predicate BoundTo(s: State, t: nat, h: nat) {
    t < |s.tasks| && s.tasks[t].home == h && forall c :: 0 <= c < |s.cars| && Uses(s.cars[c], t) ==> c == h
  }

  /** A task is pinned, or a root, in every state that a list of actions passes through. */
  predicate FixedThroughout(s: State, events: seq<(nat, Action)>, t: nat)
    decreases |events|
  {
    && t < |s.tasks| && Fixed(s.tasks[t])
    && (events == [] ||
        (Can(s, events[0].0, events[0].1) && FixedThroughout(Do(s, events[0].0, events[0].1), events[1..], t)))
  }

  predicate BoundThroughout(s: State, events: seq<(nat, Action)>, t: nat, h: nat)
    decreases |events|
  {
    && BoundTo(s, t, h)
    && (events == [] ||
        (Can(s, events[0].0, events[0].1) && BoundThroughout(Do(s, events[0].0, events[0].1), events[1..], t, h)))
  }

  lemma FixedIsBound(s: State, w: seq<Slot>, on: seq<Option<nat>>, t: nat)
    requires Good(s, w, on) && t < |s.tasks| && Fixed(s.tasks[t])
    ensures BoundTo(s, t, s.tasks[t].home)
  {
    hide Lists, AllSane, GoesFree, InRange, IsAG0, Uses, Fixed, AllTasksOk, Stacks, OwnG0, G0sAtHome;
    forall c | 0 <= c < |s.cars| && Uses(s.cars[c], t) ensures c == s.tasks[t].home {
      G0Known(s, t);
      SettledUsed(s, w, on, c, t);
    }
  }

  lemma G0Known(s: State, t: nat)
    ensures IsAG0(s, t) ==> exists d :: 0 <= d < |s.cars| && s.cars[d].g0 == t
  {}

  /** One action from a good state: a fixed task's home is kept. */
  lemma FixedKeepsHome(s: State, w: seq<Slot>, on: seq<Option<nat>>, c: nat, a: Action, t: nat)
    requires Good(s, w, on) && Can(s, c, a) && t < |s.tasks| && Fixed(s.tasks[t])
    ensures Do(s, c, a).tasks[t].home == s.tasks[t].home && Do(s, c, a).tasks[t].root == s.tasks[t].root
  {
    SettledStaysHome(s, w, on, c, a, t);
    hide Do, Can, Good;
  }

  lemma {:induction false} GoodIsBound(s: State, events: seq<(nat, Action)>, t: nat)
    requires Invariant(s) && FixedThroughout(s, events, t)
    ensures BoundThroughout(s, events, t, s.tasks[t].home)
    decreases |events|
  {
    hide Can, Do, Good, BoundTo, Fixed;
    var w, on :| Good(s, w, on);
    FixedIsBound(s, w, on, t);
    if events != [] {
      var (c, a) := events[0];
      KeepGood(s, w, on, c, a);
      FixedKeepsHome(s, w, on, c, a, t);
      GoodIsBound(Do(s, c, a), events[1..], t);
    }
  }

  lemma {:induction false} RootIsFixed(s: State, events: seq<(nat, Action)>, u: State, r: nat)
    requires Invariant(s) && Runs(s, events, u) && r < |s.tasks| && s.tasks[r].root
    ensures FixedThroughout(s, events, r)
    decreases |events|
  {
    hide Can, Do, Good;
    if events != [] {
      var (c, a) := events[0];
      var w, on :| Good(s, w, on);
      KeepGood(s, w, on, c, a);
      FixedKeepsHome(s, w, on, c, a, r);
      RootIsFixed(Do(s, c, a), events[1..], u, r);
    }
  }

  /**
   * A task that is pinned in every state of a run keeps its home through that run, and no other
   * carrier is ever on its stack.
   */
  lemma PinnedStaysHome(s: State, events: seq<(nat, Action)>, t: nat)
    requires Reachable(s) && FixedThroughout(s, events, t)
    ensures BoundThroughout(s, events, t, s.tasks[t].home)
  {
    hide Reachable, Good, FixedThroughout, BoundThroughout;
    var w, on := ReachableIsGood(s);
    GoodIsBound(s, events, t);
  }

  /** So does a root, in every run, a worker's root among them. */
  lemma RootStaysHome(s: State, events: seq<(nat, Action)>, u: State, r: nat)
    requires Reachable(s) && Runs(s, events, u) && r < |s.tasks| && s.tasks[r].root
    ensures BoundThroughout(s, events, r, s.tasks[r].home)
  {
    hide Reachable, Good, FixedThroughout, BoundThroughout, Runs;
    var w, on := ReachableIsGood(s);
    RootIsFixed(s, events, u, r);
    GoodIsBound(s, events, r);
  }

  /** No wake takes place inside the switch, so what a switch gives back never displaces a task. */
  lemma NothingDisplaced(s: State, c: nat)
    requires Reachable(s) && c < |s.cars|
    ensures !s.cars[c].pc.PutBack?
  {
    hide Reachable, Lists, Stacks, OwnG0, GoesFree, AllTasksOk, InRange, G0sOnly, G0sAtHome;
    var w, on := ReachableIsGood(s);
    NeverPutBack(s, c);
  }

  /** A carrier that sleeps with no signal on its way has nothing queued and an empty slot. */
  lemma SleepsWithNothing(s: State, c: nat)
    requires Reachable(s) && c < |s.cars| && s.cars[c].pc.Asleep?
    ensures s.cars[c].next.None? && s.cars[c].cur == s.cars[c].g0
    ensures !s.cars[c].pc.signalled ==> s.cars[c].rq == []
  {
    hide Reachable, Stacks, OwnG0, GoesFree, AllTasksOk, Lists, InRange, G0sOnly, G0sAtHome;
    var w, on := ReachableIsGood(s);
    assert Sane(s.cars[c]);
  }

  /** An ended task is freed only once its stack is left, and it is in no queue then or later. */
  lemma FreedIsGone(s: State, t: nat)
    requires Reachable(s) && t < |s.tasks| && s.tasks[t].freed
    ensures s.tasks[t].done && !s.tasks[t].onstack && Whereabouts(s, t) == {}
  {
    hide Reachable, Lists, AllSane, OwnG0, GoesFree, InRange, G0sOnly, Whereabouts;
    var w, on := ReachableIsGood(s);
    assert TaskOk(s.tasks[t], w[t], on[t]);
    ExactlyOnePlace(s, t);
  }

  // The deadlock stop.

  /** The deadlock test, read in one step: every carrier asleep, every queue and slot empty, the poller empty. */
  predicate AllQuiet(s: State) {
    && s.poller == {}
    && forall c :: 0 <= c < |s.cars| ==> s.cars[c].pc.Asleep? && s.cars[c].rq == [] && s.cars[c].next.None?
  }

  /** When the test says so, every live task is parked in a monitor. */
  lemma QuietMeansAllWait(s: State, t: nat)
    requires Reachable(s) && AllQuiet(s) && Live(s, t)
    ensures t in s.monitors
  {
    hide Reachable, Stacks, OwnG0, GoesFree, AllTasksOk, InRange;
    var w, on := ReachableIsGood(s);
    assert Parked(s, w, t);
    forall c | 0 <= c < |s.cars|
      ensures w[t] != Running(c) && w[t] != Queue(c) && w[t] != Next(c) && w[t] != InHand(c) && w[t] != InLoot(c)
    {
      assert AtCar(s.cars[c], w, c);
    }
  }

  /** A carrier with nothing, in the search or asleep. */
  predicate Idle(car: Carrier) {
    && car.cur == car.g0 && car.left.None? && car.rq == [] && car.next.None?
    && (car.pc.LookNext? || car.pc.LookQueue? || car.pc.LookOthers? || car.pc.LastQueue? || car.pc.LastOthers?
        || car.pc.Dozing? || car.pc.Asleep?)
  }

  predicate AllIdle(s: State) {
    s.poller == {} && forall c :: 0 <= c < |s.cars| ==> Idle(s.cars[c])
  }

  lemma IdleStays(s: State, c: nat, a: Action)
    requires AllIdle(s) && Can(s, c, a) && !Outside(a)
    ensures AllIdle(Do(s, c, a)) && Do(s, c, a).monitors == s.monitors && Do(s, c, a).tasks == s.tasks
  {
    assert Idle(s.cars[c]);
  }

  /**
   * The stop is right: once the test has said so, and with no THREAD to wake one, no task ever
   * leaves its monitor or runs again.
   */
  lemma {:induction false} QuietForEver(s: State, events: seq<(nat, Action)>, t: State)
    requires AllIdle(s) && Runs(s, events, t) && forall i :: 0 <= i < |events| ==> !Outside(events[i].1)
    ensures AllIdle(t) && t.monitors == s.monitors && t.tasks == s.tasks
    decreases |events|
  {
    hide Can, Do, AllIdle;
    if events != [] {
      IdleStays(s, events[0].0, events[0].1);
      QuietForEver(Do(s, events[0].0, events[0].1), events[1..], t);
    }
  }

  lemma QuietIsIdle(s: State)
    requires Reachable(s) && AllQuiet(s)
    ensures AllIdle(s)
  {
    hide Reachable, Stacks, OwnG0, GoesFree, AllTasksOk, Lists, InRange, G0sOnly, G0sAtHome;
    var w, on := ReachableIsGood(s);
  }
}
