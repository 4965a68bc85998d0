/** Stacks, homes and locks: what every step of the scheduler keeps beside the places. */
module SchedulerSafety {
  import opened Wrappers
  import opened Queues
  import opened Scheduler
  import opened SchedulerPlaces
  import opened SchedulerProof

  // Stacks.

  predicate Uses(car: Carrier, t: nat) {
    car.cur == t || car.left == Some(t)
  }

  /** `on` names, for each task, the carrier on its stack; `onstack` says whether there is one. */
  predicate Stacks(s: State, on: seq<Option<nat>>) {
    && |on| == |s.tasks|
    && (forall t :: 0 <= t < |on| ==>
          && (s.tasks[t].onstack <==> on[t].Some?)
          && (on[t].Some? ==> on[t].value < |s.cars| && Uses(s.cars[on[t].value], t)))
    && (forall c :: 0 <= c < |s.cars| ==>
          && s.cars[c].cur < |on| && on[s.cars[c].cur] == Some(c)
          && (s.cars[c].left.Some? ==>
                && s.cars[c].left.value < |on| && on[s.cars[c].left.value] == Some(c)
                && s.cars[c].left.value != s.cars[c].cur))
  }

  function OnAfter(s: State, on: seq<Option<nat>>, c: nat, a: Action): (r: seq<Option<nat>>)
    requires Can(s, c, a) && |on| == |s.tasks|
    ensures |r| == |on|
  {
    var car := s.cars[c];
    assert CarrierFits(car, |on|);
    if a.Go? && car.pc.n != car.cur then on[car.pc.n := Some(c)]
    else if a.Finish? then on[car.left.value := None]
    else on
  }

  /** An action that switches nothing leaves every stack as it was. */
  predicate SameStacks(s: State, t: State) {
    && |t.tasks| == |s.tasks| && |t.cars| == |s.cars|
    && (forall i :: 0 <= i < |s.tasks| ==> t.tasks[i].onstack == s.tasks[i].onstack)
    && (forall c :: 0 <= c < |s.cars| ==>
          t.cars[c].cur == s.cars[c].cur && t.cars[c].left == s.cars[c].left && t.cars[c].g0 == s.cars[c].g0)
  }

  lemma WorkKeepsStacks(s: State, c: nat, a: Action)
    requires Can(s, c, a) && Works(a)
    ensures SameStacks(s, DoWork(s, c, a))
  {
    assert CarrierFits(s.cars[c], |s.tasks|);
    if a.PushOld? {
      assert Hand(s.cars[c])[0] == s.cars[c].pc.out;
    }
  }

  lemma LookKeepsStacks(s: State, c: nat, a: Action)
    requires Can(s, c, a) && Looks(a)
    ensures SameStacks(s, DoLook(s, c, a))
  {
    hide CarrierFits, Steal;
  }

  lemma OutsideKeepsStacks(s: State, c: nat, a: Action)
    requires Can(s, c, a) && Outside(a)
    ensures SameStacks(s, DoOutside(s, c, a))
  {
    hide CarrierFits;
  }

  lemma SwitchKeepsStacks(s: State, c: nat, a: Action)
    requires Can(s, c, a) && (a.Decide? || a.PushBack? || (a.Go? && s.cars[c].pc.n == s.cars[c].cur))
    ensures SameStacks(s, DoSwitch(s, c, a))
  {
    assert CarrierFits(s.cars[c], |s.tasks|);
    if a.PushBack? {
      assert Hand(s.cars[c])[0] == s.cars[c].pc.out;
    }
  }

  lemma KeepStacksGo(s: State, t: State, on: seq<Option<nat>>, c: nat, n: nat)
    requires Stacks(s, on) && c < |s.cars| && n < |on| && s.cars[c].left.None? && !s.tasks[n].onstack
    requires |t.tasks| == |s.tasks| && |t.cars| == |s.cars| && t.tasks == s.tasks[n := t.tasks[n]] && t.tasks[n].onstack
    requires t.cars == s.cars[c := t.cars[c]] && t.cars[c].cur == n && t.cars[c].left == Some(s.cars[c].cur)
    ensures Stacks(t, on[n := Some(c)])
  {
    var u := on[n := Some(c)];
    assert n != s.cars[c].cur;
    forall i | 0 <= i < |u| && i != n
      ensures t.tasks[i].onstack <==> u[i].Some?
      ensures u[i].Some? ==> u[i].value < |t.cars| && Uses(t.cars[u[i].value], i)
    {
      assert u[i] == on[i];
    }
  }

  lemma KeepStacksFinish(s: State, t: State, on: seq<Option<nat>>, c: nat, l: nat)
    requires Stacks(s, on) && c < |s.cars| && s.cars[c].left == Some(l) && l < |on|
    requires |t.tasks| == |s.tasks| && |t.cars| == |s.cars| && t.tasks == s.tasks[l := t.tasks[l]]
             && !t.tasks[l].onstack
    requires t.cars == s.cars[c := t.cars[c]] && t.cars[c].cur == s.cars[c].cur && t.cars[c].left == None
    ensures Stacks(t, on[l := None])
  {
    var u := on[l := None];
    forall i | 0 <= i < |u| && i != l
      ensures t.tasks[i].onstack <==> u[i].Some?
      ensures u[i].Some? ==> u[i].value < |t.cars| && Uses(t.cars[u[i].value], i)
    {
      assert u[i] == on[i];
    }
    forall d | 0 <= d < |t.cars|
      ensures t.cars[d].cur < |u| && u[t.cars[d].cur] == Some(d)
      ensures t.cars[d].left.Some? ==>
                && t.cars[d].left.value < |u| && u[t.cars[d].left.value] == Some(d)
                && t.cars[d].left.value != t.cars[d].cur
    {
      assert on[s.cars[d].cur] == Some(d);
    }
  }

  lemma KeepStacksSwitch(s: State, on: seq<Option<nat>>, c: nat, a: Action)
    requires Stacks(s, on) && Can(s, c, a) && Switches(a) && Sane(s.cars[c])
    ensures Stacks(DoSwitch(s, c, a), OnAfter(s, on, c, a))
  {
    var car := s.cars[c];
    if a.Go? && car.pc.n != car.cur {
      KeepStacksGo(s, DoSwitch(s, c, a), on, c, car.pc.n);
    } else if a.Finish? {
      assert CarrierFits(car, |on|);
      KeepStacksFinish(s, DoSwitch(s, c, a), on, c, car.left.value);
    } else {
      SwitchKeepsStacks(s, c, a);
      SameStacksKept(s, DoSwitch(s, c, a), on);
    }
  }

  lemma SameStacksKept(s: State, t: State, on: seq<Option<nat>>)
    requires Stacks(s, on) && SameStacks(s, t)
    ensures Stacks(t, on)
  {}

  lemma KeepStacks(s: State, on: seq<Option<nat>>, c: nat, a: Action)
    requires Stacks(s, on) && Can(s, c, a) && Sane(s.cars[c])
    ensures Stacks(Do(s, c, a), OnAfter(s, on, c, a))
  {
    hide DoWork, DoLook, DoSwitch, DoOutside, CarrierFits;
    if Works(a) {
      WorkKeepsStacks(s, c, a);
    } else if Looks(a) {
      LookKeepsStacks(s, c, a);
    } else if Switches(a) {
      KeepStacksSwitch(s, on, c, a);
    } else {
      OutsideKeepsStacks(s, c, a);
    }
  }

  // Each carrier's g0 is its own, and a task that a carrier other than from g0 goes to is free.

  predicate OwnG0(s: State, on: seq<Option<nat>>) {
    && |on| == |s.tasks|
    && (forall c :: 0 <= c < |s.cars| ==>
          s.cars[c].g0 < |on| && (on[s.cars[c].g0] == None || on[s.cars[c].g0] == Some(c)))
    && (forall c, d :: 0 <= c < d < |s.cars| ==> s.cars[c].g0 != s.cars[d].g0)
  }

  predicate GoesFree(s: State) {
    forall c ::
      0 <= c < |s.cars| && s.cars[c].pc.Going? && s.cars[c].cur != s.cars[c].g0 && s.cars[c].pc.n != s.cars[c].cur ==>
      s.cars[c].pc.n < |s.tasks| && !s.tasks[s.cars[c].pc.n].onstack
  }

  lemma GoTarget(s: State, w: seq<Slot>, c: nat)
    requires Lists(s, w) && c < |s.cars| && s.cars[c].pc.Going?
    ensures s.cars[c].pc.n < |w|
    ensures s.cars[c].pc.n == s.cars[c].g0 || w[s.cars[c].pc.n] == InHand(c)
  {
    assert AtCar(s.cars[c], w, c);
    if s.cars[c].pc.n != s.cars[c].g0 {
      assert Hand(s.cars[c])[0] == s.cars[c].pc.n;
    }
  }

  lemma G0Place(s: State, w: seq<Slot>, c: nat)
    requires Lists(s, w) && c < |s.cars|
    ensures s.cars[c].g0 < |w| && w[s.cars[c].g0] == IsG0
  {}

  lemma SameG0s(s: State, c: nat, a: Action)
    requires Can(s, c, a)
    ensures forall d :: 0 <= d < |s.cars| ==> Do(s, c, a).cars[d].g0 == s.cars[d].g0
  {
    hide DoWork, DoLook, DoSwitch, DoOutside, CarrierFits;
    if Works(a) {
      WorkKeepsStacks(s, c, a);
    } else if Looks(a) {
      LookKeepsStacks(s, c, a);
    } else if Switches(a) {
      SwitchKeepsG0s(s, c, a);
    } else {
      OutsideKeepsStacks(s, c, a);
    }
  }

  lemma SwitchKeepsG0s(s: State, c: nat, a: Action)
    requires Can(s, c, a) && Switches(a)
    ensures forall d :: 0 <= d < |s.cars| ==> DoSwitch(s, c, a).cars[d].g0 == s.cars[d].g0
    ensures forall d :: 0 <= d < |s.cars| && d != c ==> DoSwitch(s, c, a).cars[d] == s.cars[d]
  {
    assert CarrierFits(s.cars[c], |s.tasks|);
    if a.PushBack? {
      assert Hand(s.cars[c])[0] == s.cars[c].pc.out;
    }
  }

  lemma KeepOwnG0(s: State, w: seq<Slot>, on: seq<Option<nat>>, c: nat, a: Action)
    requires Lists(s, w) && |w| == |s.tasks| && OwnG0(s, on) && Can(s, c, a)
    ensures OwnG0(Do(s, c, a), OnAfter(s, on, c, a))
  {
    hide Lists, Do, CarrierFits;
    SameG0s(s, c, a);
    if a.Go? {
      GoTarget(s, w, c);
      forall d | 0 <= d < |s.cars| ensures w[s.cars[d].g0] == IsG0 {
        G0Place(s, w, d);
      }
    }
  }

  lemma G0IsFree(s: State, on: seq<Option<nat>>, c: nat)
    requires Stacks(s, on) && OwnG0(s, on) && c < |s.cars| && s.cars[c].cur != s.cars[c].g0 && s.cars[c].left.None?
    ensures !s.tasks[s.cars[c].g0].onstack
  {}

  /** How a carrier comes to be going to a task: from the search to its g0, or from its decision. */
  predicate CameToGo(s: State, c: nat, a: Action, d: nat, now: Carrier)
    requires d < |s.cars|
  {
    var car := s.cars[d];
    now.g0 == car.g0 && now.cur == car.cur && now.pc.Going? && (
    || now.pc == car.pc
    || (d == c && car.left.None? && now.pc.n == car.g0)
    || (d == c && car.left.None? &&
        (now.cur == now.g0 || now.pc.n == now.cur || (now.pc.n < |s.tasks| && !s.tasks[now.pc.n].onstack))))
  }

  lemma WorkGoes(s: State, c: nat, a: Action, d: nat)
    requires Can(s, c, a) && Works(a) && d < |s.cars| && DoWork(s, c, a).cars[d].pc.Going?
    ensures CameToGo(s, c, a, d, DoWork(s, c, a).cars[d])
  {
    assert CarrierFits(s.cars[c], |s.tasks|);
    if a.PushOld? {
      assert Hand(s.cars[c])[0] == s.cars[c].pc.out;
    }
    hide CarrierFits, Hand;
  }

  lemma LookGoes(s: State, c: nat, a: Action, d: nat)
    requires Can(s, c, a) && Looks(a) && d < |s.cars| && DoLook(s, c, a).cars[d].pc.Going? && Sane(s.cars[c])
    ensures CameToGo(s, c, a, d, DoLook(s, c, a).cars[d])
  {
    hide CarrierFits, Steal, Hand;
  }

  lemma SwitchGoes(s: State, c: nat, a: Action, d: nat)
    requires Can(s, c, a) && Switches(a) && d < |s.cars| && DoSwitch(s, c, a).cars[d].pc.Going? && Sane(s.cars[c])
    ensures CameToGo(s, c, a, d, DoSwitch(s, c, a).cars[d])
  {
    SwitchKeepsG0s(s, c, a);
    Bounds(s, c);
    if a.Decide? {
      assert Hand(s.cars[c])[0] == s.cars[c].pc.n;
    }
    hide CarrierFits, Hand;
  }

  lemma OutsideGoes(s: State, c: nat, a: Action, d: nat)
    requires Can(s, c, a) && Outside(a) && d < |s.cars| && DoOutside(s, c, a).cars[d].pc.Going?
    ensures CameToGo(s, c, a, d, DoOutside(s, c, a).cars[d])
  {
    hide CarrierFits, Hand;
  }

  lemma Goes(s: State, c: nat, a: Action, d: nat)
    requires Can(s, c, a) && d < |s.cars| && Do(s, c, a).cars[d].pc.Going? && Sane(s.cars[c])
    ensures CameToGo(s, c, a, d, Do(s, c, a).cars[d])
  {
    hide DoWork, DoLook, DoSwitch, DoOutside, CameToGo, Can;
    if Works(a) {
      WorkGoes(s, c, a, d);
    } else if Looks(a) {
      LookGoes(s, c, a, d);
    } else if Switches(a) {
      SwitchGoes(s, c, a, d);
    } else {
      OutsideGoes(s, c, a, d);
    }
  }

  lemma KeepGoesFree(s: State, w: seq<Slot>, on: seq<Option<nat>>, c: nat, a: Action)
    requires Lists(s, w) && |w| == |s.tasks| && Stacks(s, on) && OwnG0(s, on) && AllSane(s) && GoesFree(s)
             && Can(s, c, a)
    ensures GoesFree(Do(s, c, a))
  {
    var t := Do(s, c, a);
    KeepStacks(s, on, c, a);
    forall d | 0 <= d < |t.cars| && t.cars[d].pc.Going? && t.cars[d].cur != t.cars[d].g0
        && t.cars[d].pc.n != t.cars[d].cur
      ensures t.cars[d].pc.n < |t.tasks| && !t.tasks[t.cars[d].pc.n].onstack
    {
      FreeTarget(s, w, on, c, a, d);
    }
  }

  lemma FreeTarget(s: State, w: seq<Slot>, on: seq<Option<nat>>, c: nat, a: Action, d: nat)
    requires Lists(s, w) && |w| == |s.tasks| && Stacks(s, on) && OwnG0(s, on) && AllSane(s) && GoesFree(s)
             && Can(s, c, a)
    requires d < |s.cars| && c < |s.cars|
    requires var now := Do(s, c, a).cars[d]; now.pc.Going? && now.cur != now.g0 && now.pc.n != now.cur
    ensures var now := Do(s, c, a).cars[d]; now.pc.n < |s.tasks| && !Do(s, c, a).tasks[now.pc.n].onstack
  {
    hide DoWork, DoLook, DoSwitch, DoOutside, Lists, CarrierFits, Can, Do;
    var now := Do(s, c, a).cars[d];
    Goes(s, c, a, d);
    G0Place(s, w, d);
    if now.pc != s.cars[d].pc {
      if now.pc.n == now.g0 {
        G0IsFree(s, on, d);
      }
    }
    assert now.pc.n < |s.tasks| && !s.tasks[now.pc.n].onstack;
    if Do(s, c, a).tasks[now.pc.n].onstack {
      OnlyGoSets(s, c, a, now.pc.n);
      GoTarget(s, w, c);
      G0Place(s, w, c);
      GoAway(s, c);
      GoTarget(s, w, d);
    }
  }

  lemma OnlyGoSets(s: State, c: nat, a: Action, n: nat)
    requires Can(s, c, a) && n < |s.tasks| && !s.tasks[n].onstack && Do(s, c, a).tasks[n].onstack
    ensures a.Go? && s.cars[c].pc.Going? && s.cars[c].pc.n == n && n != s.cars[c].cur
  {
    hide DoWork, DoLook, DoOutside, DoSwitch, CarrierFits;
    if Works(a) {
      WorkKeepsStacks(s, c, a);
    } else if Looks(a) {
      LookKeepsStacks(s, c, a);
    } else if Switches(a) {
      OnlyGoSetsSwitch(s, c, a, n);
    } else {
      OutsideKeepsStacks(s, c, a);
    }
  }

  lemma OnlyGoSetsSwitch(s: State, c: nat, a: Action, n: nat)
    requires Can(s, c, a) && Switches(a) && n < |s.tasks| && !s.tasks[n].onstack && DoSwitch(s, c, a).tasks[n].onstack
    ensures a.Go? && s.cars[c].pc.Going? && s.cars[c].pc.n == n && n != s.cars[c].cur
  {
    assert CarrierFits(s.cars[c], |s.tasks|);
  }

  /** A carrier that goes is not going afterwards. */
  lemma GoAway(s: State, c: nat)
    requires Can(s, c, Go)
    ensures !Do(s, c, Go).cars[c].pc.Going?
  {}

  // Homes.

  /** A task that may not leave its carrier. */
  predicate Fixed(task: Task) {
    task.root || task.pinned
  }

  /** A task a carrier has is at home there; a fixed task is in no slot and no loot, and on no other stack. */
  predicate HomeOk(task: Task, at: Slot, on: Option<nat>) {
    && (at.Running? || at.Queue? || at.Next? || at.InHand? ==> task.home == at.c)
    && (Fixed(task) && !at.IsG0? ==> !at.Next? && !at.InLoot? && (on == None || on == Some(task.home)))
    && (at.Unused? ==> !Fixed(task) && on == None)
  }

  // Locks.

  /** Every lock a task holds was taken on its home; it runs there, or it is pinned. */
  predicate LocksOk(task: Task, at: Slot) {
    && (forall i :: 0 <= i < |task.locks| ==> task.locks[i] == task.home)
    && (task.locks != [] ==> at.Running? || (task.pinned && !at.Unused? && !at.Ended? && !at.IsG0?))
  }

  /** A task is freed once ended, when no carrier is on its stack. */
  predicate FreedOk(task: Task, on: Option<nat>) {
    task.freed ==> task.done && on == None
  }

  /** What is kept of one task. */
  predicate TaskOk(task: Task, at: Slot, on: Option<nat>) {
    HomeOk(task, at, on) && LocksOk(task, at) && FreedOk(task, on)
  }

  predicate AllTasksOk(s: State, w: seq<Slot>, on: seq<Option<nat>>) {
    && |w| == |on| == |s.tasks|
    && forall t :: 0 <= t < |w| ==> TaskOk(s.tasks[t], w[t], on[t])
  }

  lemma HandPlace(s: State, w: seq<Slot>, c: nat)
    requires Lists(s, w) && c < |s.cars| && Hand(s.cars[c]) != []
    ensures Hand(s.cars[c])[0] < |w| && w[Hand(s.cars[c])[0]] == InHand(c)
  {
    assert AtCar(s.cars[c], w, c);
  }

  /** Where the tasks an action moves were. */
  lemma WorkPlaces(s: State, w: seq<Slot>, c: nat, a: Action)
    requires Lists(s, w) && Can(s, c, a) && Works(a)
    ensures |w| == |s.tasks| && CarrierFits(s.cars[c], |w|)
    ensures s.cars[c].pc.Run? ==> w[s.cars[c].cur] == Running(c)
    ensures s.cars[c].next.Some? ==> w[s.cars[c].next.value] == Next(c)
    ensures a.PushOld? ==> s.cars[c].pc.out < |w| && w[s.cars[c].pc.out] == InHand(c)
    ensures a.Wake? || a.Deal? ==> w[a.t] == InMonitor
    ensures a.Start? ==> w[a.t] == Unused
  {
    assert CarrierFits(s.cars[c], |w|);
    if s.cars[c].pc.Run? {
      RunnerPlace(s, w, c);
    }
    if s.cars[c].next.Some? {
      SlotLists(s, w, c, s.cars[c].next.value);
    }
    if a.PushOld? {
      HandPlace(s, w, c);
    }
    if a.Wake? || a.Deal? || a.Start? {
      assert Parked(s, w, a.t);
    }
  }

  lemma RunnerOn(s: State, on: seq<Option<nat>>, c: nat)
    requires Stacks(s, on) && c < |s.cars|
    ensures s.cars[c].cur < |on| && on[s.cars[c].cur] == Some(c)
  {}

  // One task's change: queued, put in a slot, taken in hand.

  lemma QueuedOk(task: Task, at: Slot, on: Option<nat>, d: nat)
    requires TaskOk(task, at, on) && (Fixed(task) ==> task.home == d) && !at.Running? && !at.Ended? && !at.IsG0?
    ensures TaskOk(task.(home := d), Queue(d), on)
  {}

  lemma SlotOk(task: Task, at: Slot, on: Option<nat>, c: nat)
    requires TaskOk(task, at, on) && !Fixed(task) && !at.Running? && !at.Ended? && !at.IsG0?
    ensures TaskOk(task.(home := c), Next(c), on)
  {}

  lemma TakenOk(task: Task, at: Slot, on: Option<nat>, c: nat)
    requires TaskOk(task, at, on) && (at == Next(c) || at == Queue(c))
    ensures TaskOk(task, InHand(c), on)
  {}

  lemma StolenOk(task: Task, at: Slot, on: Option<nat>, c: nat)
    requires TaskOk(task, at, on) && at.Next?
    ensures TaskOk(task.(home := c), InHand(c), on)
  {}

  lemma LooseWhenNew(task: Task, at: Slot, on: Option<nat>)
    requires TaskOk(task, at, on)
    ensures at.Unused? || at.Next? || at.InLoot? ==> !Fixed(task)
    ensures at.InHand? || at.Running? || at.Queue? ==> task.home == at.c
  {}

  lemma TasksSlot(s: State, r: State, w: seq<Slot>, on: seq<Option<nat>>, c: nat, t: nat, q: nat)
    requires |w| == |on| == |s.tasks| && t < |w| && q < |w| && c < |s.cars| && r.cars == s.cars && r.tasks == s.tasks
    requires CarrierFits(s.cars[c], |w|) && (s.cars[c].next.Some? ==> w[s.cars[c].next.value] == Next(c))
    requires TaskOk(s.tasks[q], w[q], on[q]) && !Fixed(s.tasks[t]) && (w[t].InMonitor? || w[t].Unused?)
    ensures TaskOk(TakeSlot(r, c, t).tasks[q], SlotTaken(s.cars[c], w, c, t)[q], on[q])
  {
    hide TaskOk;
    if q == t {
      SlotOk(s.tasks[q], w[q], on[q], c);
    } else if s.cars[c].next == Some(q) {
      TakenOk(s.tasks[q], w[q], on[q], c);
    }
  }

  lemma TasksPush(s: State, r: State, w: seq<Slot>, on: seq<Option<nat>>, d: nat, t: nat, q: nat)
    requires |w| == |on| == |s.tasks| && t < |w| && q < |w| && d < |r.cars| && r.tasks == s.tasks
    requires TaskOk(s.tasks[q], w[q], on[q]) && (Fixed(s.tasks[t]) ==> s.tasks[t].home == d)
    requires !w[t].Running? && !w[t].Ended? && !w[t].IsG0?
    ensures TaskOk(Push(r, d, t).tasks[q], w[t := Queue(d)][q], on[q])
  {
    hide TaskOk;
    if q == t {
      QueuedOk(s.tasks[q], w[q], on[q], d);
    }
  }

  lemma TasksWake(s: State, w: seq<Slot>, on: seq<Option<nat>>, c: nat, t: nat, q: nat)
    requires Lists(s, w) && AllTasksOk(s, w, on) && Can(s, c, Wake(t)) && q < |w|
    ensures TaskOk(DoWork(s, c, Wake(t)).tasks[q], Moved(s, w, c, Wake(t))[q], on[q])
  {
    WorkPlaces(s, w, c, Wake(t));
    hide Lists, CarrierFits, TaskOk, Push, TakeSlot, SlotTaken;
    assert TaskOk(s.tasks[q], w[q], on[q]);
    var r := s.(monitors := s.monitors - {t});
    if s.tasks[t].pinned || s.tasks[t].root {
      TasksPush(s, r, w, on, s.tasks[t].home, t, q);
    } else {
      TasksSlot(s, r, w, on, c, t, q);
    }
  }

  lemma TasksDeal(s: State, w: seq<Slot>, on: seq<Option<nat>>, c: nat, t: nat, to: nat, q: nat)
    requires Lists(s, w) && AllTasksOk(s, w, on) && Can(s, c, Deal(t, to)) && q < |w|
    ensures TaskOk(DoWork(s, c, Deal(t, to)).tasks[q], Moved(s, w, c, Deal(t, to))[q], on[q])
  {
    WorkPlaces(s, w, c, Deal(t, to));
    hide Lists, CarrierFits, TaskOk, Push, TakeSlot, SlotTaken;
    assert TaskOk(s.tasks[q], w[q], on[q]);
    TasksPush(s, s.(monitors := s.monitors - {t}), w, on, to, t, q);
  }

  lemma TasksStart(s: State, w: seq<Slot>, on: seq<Option<nat>>, c: nat, t: nat, q: nat)
    requires Lists(s, w) && AllTasksOk(s, w, on) && Can(s, c, Start(t)) && q < |w|
    ensures TaskOk(DoWork(s, c, Start(t)).tasks[q], Moved(s, w, c, Start(t))[q], on[q])
  {
    WorkPlaces(s, w, c, Start(t));
    hide Lists, CarrierFits, TaskOk, Push, TakeSlot, SlotTaken;
    assert TaskOk(s.tasks[q], w[q], on[q]) && TaskOk(s.tasks[t], w[t], on[t]);
    LooseWhenNew(s.tasks[t], w[t], on[t]);
    TasksSlot(s, s.(unused := s.unused - {t}), w, on, c, t, q);
  }

  lemma TasksPushOld(s: State, w: seq<Slot>, on: seq<Option<nat>>, c: nat, q: nat)
    requires Lists(s, w) && AllTasksOk(s, w, on) && Can(s, c, PushOld) && q < |w|
    ensures TaskOk(DoWork(s, c, PushOld).tasks[q], Moved(s, w, c, PushOld)[q], on[q])
  {
    WorkPlaces(s, w, c, PushOld);
    hide Lists, CarrierFits, TaskOk, Push, TakeSlot, SlotTaken;
    var out := s.cars[c].pc.out;
    assert TaskOk(s.tasks[q], w[q], on[q]) && TaskOk(s.tasks[out], w[out], on[out]);
    LooseWhenNew(s.tasks[out], w[out], on[out]);
    TasksPush(s, To(s, c, if s.cars[c].pc.parting then Parting else Run), w, on, c, out, q);
  }

  /** The running task's own record after an action of its own. */
  lemma RunnerOk(task: Task, c: nat)
    requires TaskOk(task, Running(c), Some(c))
    ensures TaskOk(task.(locks := task.locks + [c]), Running(c), Some(c))
    ensures task.locks != [] ==> TaskOk(task.(locks := task.locks[..|task.locks| - 1]), Running(c), Some(c))
    ensures TaskOk(task.(pinned := task.locks != [], home := c), Queue(c), Some(c))
    ensures TaskOk(task.(done := true, locks := []), Ended, Some(c))
  {
    assert TaskOk(task.(home := c), Running(c), Some(c));
  }

  lemma ParkerOk(task: Task, c: nat, locks: seq<nat>, at: Slot)
    requires TaskOk(task, Running(c), Some(c)) && (at.InMonitor? || at.InPoller?)
    requires locks == task.locks || (task.locks != [] && locks == task.locks[..|task.locks| - 1])
    ensures TaskOk(task.(locks := locks, pinned := locks != []), at, Some(c))
  {}

  lemma RunsElsewhere(s: State, w: seq<Slot>, c: nat, a: Action, q: nat)
    requires |w| == |s.tasks| && Can(s, c, a) && q < |w| && q != s.cars[c].cur
    requires a.Lock? || a.Unlock? || a.Park? || a.Yield? || a.End? || a.Part?
    ensures DoWork(s, c, a).tasks[q] == s.tasks[q] && Moved(s, w, c, a)[q] == w[q]
  {
    assert CarrierFits(s.cars[c], |w|);
  }

  lemma TasksRunner(s: State, w: seq<Slot>, on: seq<Option<nat>>, c: nat, a: Action)
    requires |w| == |on| == |s.tasks| && Can(s, c, a) && s.cars[c].cur < |w|
    requires a.Lock? || a.Unlock? || a.Park? || a.Yield? || a.End?
    requires w[s.cars[c].cur] == Running(c) && on[s.cars[c].cur] == Some(c)
    requires TaskOk(s.tasks[s.cars[c].cur], Running(c), Some(c))
    ensures TaskOk(DoWork(s, c, a).tasks[s.cars[c].cur], Moved(s, w, c, a)[s.cars[c].cur], Some(c))
  {
    hide CarrierFits, TaskOk;
    var q := s.cars[c].cur;
    RunnerOk(s.tasks[q], c);
    if a.Park? {
      var locks := s.tasks[q].locks;
      ParkerOk(s.tasks[q], c, if a.release then locks[..|locks| - 1] else locks,
          if a.poll then InPoller else InMonitor);
    }
  }

  lemma TasksRuns(s: State, w: seq<Slot>, on: seq<Option<nat>>, c: nat, a: Action, q: nat)
    requires Lists(s, w) && AllTasksOk(s, w, on) && Stacks(s, on) && Can(s, c, a) && q < |w|
    requires a.Lock? || a.Unlock? || a.Park? || a.Yield? || a.End? || a.Part?
    ensures TaskOk(DoWork(s, c, a).tasks[q], Moved(s, w, c, a)[q], on[q])
  {
    WorkPlaces(s, w, c, a);
    RunnerOn(s, on, c);
    hide Lists, CarrierFits, Stacks, TaskOk;
    assert TaskOk(s.tasks[q], w[q], on[q]);
    if q != s.cars[c].cur {
      RunsElsewhere(s, w, c, a, q);
    } else if !a.Part? {
      TasksRunner(s, w, on, c, a);
    }
  }

  lemma TasksWork(s: State, w: seq<Slot>, on: seq<Option<nat>>, c: nat, a: Action, q: nat)
    requires Lists(s, w) && AllTasksOk(s, w, on) && Stacks(s, on) && Can(s, c, a) && Works(a) && q < |w|
    ensures TaskOk(DoWork(s, c, a).tasks[q], Moved(s, w, c, a)[q], on[q])
  {
    hide Lists, DoWork, TaskOk, Moved, Stacks;
    match a
    case Wake(t) => TasksWake(s, w, on, c, t, q);
    case Deal(t, to) => TasksDeal(s, w, on, c, t, to, q);
    case Start(t) => TasksStart(s, w, on, c, t, q);
    case PushOld => TasksPushOld(s, w, on, c, q);
    case _ => TasksRuns(s, w, on, c, a, q);
  }

  /** What a thief takes is not fixed. */
  lemma StolenIsLoose(s: State, c: nat, v: nat, busy: set<nat>, q: nat)
    requires Can(s, c, StealQueue(v, busy)) && Distinct(s.cars[v].rq)
    requires q in Steal(s.tasks, s.cars[v].rq, Half(s.cars[v].rq), busy).0
    ensures q < |s.tasks| && !Fixed(s.tasks[q]) && q in s.cars[v].rq
  {
    StealParts(s.tasks, s.cars[v].rq, Half(s.cars[v].rq), busy);
  }

  lemma StealQueueIs(s: State, w: seq<Slot>, c: nat, v: nat, busy: set<nat>)
    requires Lists(s, w) && Can(s, c, StealQueue(v, busy))
    ensures |w| == |s.tasks| && v < |s.cars| && CarrierFits(s.cars[v], |s.tasks|) && AtCar(s.cars[v], w, v)
    ensures DoLook(s, c, StealQueue(v, busy)).tasks == s.tasks
    ensures Moved(s, w, c, StealQueue(v, busy))
            == InAll(w, Steal(s.tasks, s.cars[v].rq, Half(s.cars[v].rq), busy).0, InLoot(c))
  {
    hide Steal, AtCar, At, Half;
  }

  lemma TasksStealQueue(s: State, w: seq<Slot>, on: seq<Option<nat>>, c: nat, v: nat, busy: set<nat>, q: nat)
    requires Lists(s, w) && AllTasksOk(s, w, on) && Can(s, c, StealQueue(v, busy)) && q < |w|
    ensures TaskOk(DoLook(s, c, StealQueue(v, busy)).tasks[q], Moved(s, w, c, StealQueue(v, busy))[q], on[q])
  {
    StealQueueIs(s, w, c, v, busy);
    assert At(s.cars[v].rq, w, Queue(v));
    hide Lists, Can, DoLook, Moved, Steal, CarrierFits, At, AtCar, Half, TaskOk, Fixed;
    var taken := Steal(s.tasks, s.cars[v].rq, Half(s.cars[v].rq), busy).0;
    assert TaskOk(s.tasks[q], w[q], on[q]);
    if q in taken {
      AtDistinct(s.cars[v].rq, w, Queue(v));
      StolenIsLoose(s, c, v, busy, q);
      AtMeans(s.cars[v].rq, w, Queue(v), q);
      LootOk(s.tasks[q], w[q], on[q], c);
    }
  }

  lemma LootOk(task: Task, at: Slot, on: Option<nat>, c: nat)
    requires TaskOk(task, at, on) && !Fixed(task) && at.Queue?
    ensures TaskOk(task, InLoot(c), on)
  {}

  lemma TasksPushRest(s: State, w: seq<Slot>, on: seq<Option<nat>>, c: nat, q: nat)
    requires Lists(s, w) && AllTasksOk(s, w, on) && Can(s, c, PushRest) && q < |w|
    ensures TaskOk(DoLook(s, c, PushRest).tasks[q], Moved(s, w, c, PushRest)[q], on[q])
  {
    var chain := s.cars[c].pc.chain;
    assert AtCar(s.cars[c], w, c);
    assert Loot(s.cars[c]) == chain;
    AtMeans(chain, w, InLoot(c), q);
    InChain(chain, q);
    hide Lists, AtCar, CarrierFits, At;
    assert TaskOk(s.tasks[q], w[q], on[q]);
  }

  lemma LookPlaces(s: State, w: seq<Slot>, c: nat, a: Action)
    requires Lists(s, w) && Can(s, c, a) && (a.TakeNext? || a.TakeQueue? || a.TakeLast? || a.StealNext?)
    ensures |w| == |s.tasks| && CarrierFits(s.cars[c], |w|)
    ensures s.cars[c].next.Some? ==> w[s.cars[c].next.value] == Next(c)
    ensures s.cars[c].rq != [] ==> s.cars[c].rq[0] < |w| && w[s.cars[c].rq[0]] == Queue(c)
    ensures a.StealNext? ==> CarrierFits(s.cars[a.v], |w|) && w[s.cars[a.v].next.value] == Next(a.v)
  {
    assert AtCar(s.cars[c], w, c);
    if s.cars[c].next.Some? {
      SlotLists(s, w, c, s.cars[c].next.value);
    }
    if a.StealNext? {
      SlotLists(s, w, a.v, s.cars[a.v].next.value);
    }
  }

  lemma TakesMove(s: State, w: seq<Slot>, c: nat, a: Action, q: nat)
    requires Lists(s, w) && Can(s, c, a) && q < |w| && (a.TakeNext? || a.TakeQueue? || a.TakeLast?)
    ensures DoLook(s, c, a).tasks == s.tasks && |w| == |s.tasks|
    ensures Moved(s, w, c, a)[q] == w[q] || (Moved(s, w, c, a)[q] == InHand(c) && (w[q] == Next(c) || w[q] == Queue(c)))
  {
    hide Lists, CarrierFits, Steal, InAll, SlotTaken, AllHomed, Homed, Hand, Loot, Half;
    LookPlaces(s, w, c, a);
  }

  lemma TasksTakes(s: State, w: seq<Slot>, on: seq<Option<nat>>, c: nat, a: Action, q: nat)
    requires Lists(s, w) && AllTasksOk(s, w, on) && Can(s, c, a) && q < |w|
    requires a.TakeNext? || a.TakeQueue? || a.TakeLast?
    ensures TaskOk(DoLook(s, c, a).tasks[q], Moved(s, w, c, a)[q], on[q])
  {
    TakesMove(s, w, c, a, q);
    hide Lists, DoLook, Moved, TaskOk;
    assert TaskOk(s.tasks[q], w[q], on[q]);
    if w[q] == Next(c) || w[q] == Queue(c) {
      TakenOk(s.tasks[q], w[q], on[q], c);
    }
  }

  lemma TasksStealNext(s: State, w: seq<Slot>, on: seq<Option<nat>>, c: nat, v: nat, q: nat)
    requires Lists(s, w) && AllTasksOk(s, w, on) && Can(s, c, StealNext(v)) && q < |w|
    ensures TaskOk(DoLook(s, c, StealNext(v)).tasks[q], Moved(s, w, c, StealNext(v))[q], on[q])
  {
    LookPlaces(s, w, c, StealNext(v));
    StealNextIs(s, w, c, v);
    hide Lists, DoLook, Moved, TaskOk, Can, CarrierFits;
    assert TaskOk(s.tasks[q], w[q], on[q]);
    if s.cars[v].next == Some(q) {
      StolenOk(s.tasks[q], w[q], on[q], c);
    }
  }

  lemma TasksStill(s: State, w: seq<Slot>, on: seq<Option<nat>>, c: nat, a: Action, q: nat)
    requires Lists(s, w) && AllTasksOk(s, w, on) && Can(s, c, a) && q < |w|
    requires a.GiveUp? || a.Tire? || a.GiveUpLast? || a.Sleep? || a.Rise?
    ensures TaskOk(DoLook(s, c, a).tasks[q], Moved(s, w, c, a)[q], on[q])
  {
    hide Lists, CarrierFits;
    assert TaskOk(s.tasks[q], w[q], on[q]);
  }

  lemma TasksThreadWake(s: State, w: seq<Slot>, on: seq<Option<nat>>, c: nat, t: nat, q: nat)
    requires Lists(s, w) && AllTasksOk(s, w, on) && Can(s, c, ThreadWake(t)) && q < |w|
    ensures TaskOk(DoOutside(s, c, ThreadWake(t)).tasks[q], Moved(s, w, c, ThreadWake(t))[q], on[q])
  {
    assert Parked(s, w, t);
    hide Lists, CarrierFits, TaskOk, Push;
    assert TaskOk(s.tasks[q], w[q], on[q]) && TaskOk(s.tasks[t], w[t], on[t]);
    LooseWhenNew(s.tasks[t], w[t], on[t]);
    TasksPush(s, s.(monitors := s.monitors - {t}), w, on, s.tasks[t].home, t, q);
  }

  lemma TasksPollWake(s: State, w: seq<Slot>, on: seq<Option<nat>>, c: nat, t: nat, q: nat)
    requires Lists(s, w) && AllTasksOk(s, w, on) && Can(s, c, PollWake(t)) && q < |w|
    ensures TaskOk(DoOutside(s, c, PollWake(t)).tasks[q], Moved(s, w, c, PollWake(t))[q], on[q])
  {
    assert Parked(s, w, t);
    hide Lists, CarrierFits, TaskOk, Push;
    assert TaskOk(s.tasks[q], w[q], on[q]) && TaskOk(s.tasks[t], w[t], on[t]);
    LooseWhenNew(s.tasks[t], w[t], on[t]);
    TasksPush(s, s.(poller := s.poller - {t}), w, on, s.tasks[t].home, t, q);
  }

  lemma TasksThreadStart(s: State, w: seq<Slot>, on: seq<Option<nat>>, c: nat, t: nat, to: nat, q: nat)
    requires Lists(s, w) && AllTasksOk(s, w, on) && Can(s, c, ThreadStart(t, to)) && q < |w|
    ensures TaskOk(DoOutside(s, c, ThreadStart(t, to)).tasks[q], Moved(s, w, c, ThreadStart(t, to))[q], on[q])
  {
    assert Parked(s, w, t);
    hide Lists, CarrierFits, TaskOk, Push;
    assert TaskOk(s.tasks[q], w[q], on[q]) && TaskOk(s.tasks[t], w[t], on[t]);
    LooseWhenNew(s.tasks[t], w[t], on[t]);
    TasksPush(s, s.(unused := s.unused - {t}), w, on, to, t, q);
  }

  lemma TasksOutside(s: State, w: seq<Slot>, on: seq<Option<nat>>, c: nat, a: Action, q: nat)
    requires Lists(s, w) && AllTasksOk(s, w, on) && Can(s, c, a) && Outside(a) && q < |w|
    ensures TaskOk(DoOutside(s, c, a).tasks[q], Moved(s, w, c, a)[q], on[q])
  {
    match a
    case ThreadWake(t) => TasksThreadWake(s, w, on, c, t, q);
    case PollWake(t) => TasksPollWake(s, w, on, c, t, q);
    case ThreadStart(t, to) => TasksThreadStart(s, w, on, c, t, to, q);
  }

  /** A picked task that is still on a stack is not fixed: a fixed one could only be on this carrier's own. */
  lemma GivenBackIsLoose(s: State, w: seq<Slot>, on: seq<Option<nat>>, c: nat)
    requires Lists(s, w) && AllTasksOk(s, w, on) && Stacks(s, on) && c < |s.cars| && Sane(s.cars[c])
             && s.cars[c].pc.Picked?
    ensures s.cars[c].pc.n < |w| && w[s.cars[c].pc.n] == InHand(c)
    ensures s.cars[c].pc.n != s.cars[c].cur && s.tasks[s.cars[c].pc.n].onstack ==> !Fixed(s.tasks[s.cars[c].pc.n])
  {
    HandPlace(s, w, c);
    assert TaskOk(s.tasks[s.cars[c].pc.n], w[s.cars[c].pc.n], on[s.cars[c].pc.n]);
  }

  lemma DecideIs(s: State, w: seq<Slot>, c: nat)
    requires Lists(s, w) && Can(s, c, Decide) && Sane(s.cars[c])
    ensures s.cars[c].pc.Picked? && s.cars[c].pc.n < |w| == |s.tasks| && CarrierFits(s.cars[c], |w|)
    ensures DoSwitch(s, c, Decide).tasks == s.tasks
    ensures Moved(s, w, c, Decide) ==
            if s.cars[c].pc.n != s.cars[c].cur && s.cars[c].cur != s.cars[c].g0 && s.tasks[s.cars[c].pc.n].onstack
            then SlotTaken(s.cars[c], w, c, s.cars[c].pc.n) else w
    ensures s.cars[c].next.None?
  {
    hide AtCar;
    HandPlace(s, w, c);
  }

  lemma TasksDecide(s: State, w: seq<Slot>, on: seq<Option<nat>>, c: nat, q: nat)
    requires Lists(s, w) && AllTasksOk(s, w, on) && Stacks(s, on) && Can(s, c, Decide) && Sane(s.cars[c]) && q < |w|
    ensures TaskOk(DoSwitch(s, c, Decide).tasks[q], Moved(s, w, c, Decide)[q], on[q])
  {
    DecideIs(s, w, c);
    GivenBackIsLoose(s, w, on, c);
    hide Lists, Can, DoSwitch, Moved, CarrierFits, Stacks, Sane;
    assert TaskOk(s.tasks[q], w[q], on[q]);
  }

  lemma ResumedOk(task: Task, on: Option<nat>, c: nat)
    requires TaskOk(task, InHand(c), on)
    ensures TaskOk(task, Running(c), on)
    ensures !task.done ==> TaskOk(task.(home := c, onstack := true), Running(c), Some(c))
  {}

  lemma OwnG0Ok(task: Task, on: Option<nat>, c: nat)
    requires TaskOk(task, IsG0, on) && !task.done
    ensures TaskOk(task.(home := c, onstack := true), IsG0, Some(c))
  {}

  lemma TasksGo(s: State, w: seq<Slot>, on: seq<Option<nat>>, c: nat, q: nat)
    requires Lists(s, w) && AllTasksOk(s, w, on) && Can(s, c, Go) && q < |w|
    ensures TaskOk(DoSwitch(s, c, Go).tasks[q], Moved(s, w, c, Go)[q], OnAfter(s, on, c, Go)[q])
  {
    GoTarget(s, w, c);
    G0Place(s, w, c);
    var n := s.cars[c].pc.n;
    assert Parked(s, w, n);
    hide Lists, CarrierFits, TaskOk;
    assert TaskOk(s.tasks[q], w[q], on[q]);
    if q == n {
      if n == s.cars[c].g0 {
        OwnG0Ok(s.tasks[q], on[q], c);
      } else {
        ResumedOk(s.tasks[q], on[q], c);
      }
    }
  }

  lemma FinishedOk(task: Task, at: Slot, on: Option<nat>)
    requires TaskOk(task, at, on)
    ensures TaskOk(task.(onstack := false), at, None)
    ensures task.done ==> TaskOk(task.(onstack := false, freed := true), at, None)
  {}

  lemma TasksFinish(s: State, w: seq<Slot>, on: seq<Option<nat>>, c: nat, q: nat)
    requires Lists(s, w) && AllTasksOk(s, w, on) && Can(s, c, Finish) && q < |w|
    ensures TaskOk(DoSwitch(s, c, Finish).tasks[q], Moved(s, w, c, Finish)[q], OnAfter(s, on, c, Finish)[q])
  {
    assert CarrierFits(s.cars[c], |w|);
    hide Lists, CarrierFits, TaskOk;
    assert TaskOk(s.tasks[q], w[q], on[q]);
    if s.cars[c].left == Some(q) {
      FinishedOk(s.tasks[q], w[q], on[q]);
    }
  }

  lemma TasksLook(s: State, w: seq<Slot>, on: seq<Option<nat>>, c: nat, a: Action, q: nat)
    requires Lists(s, w) && AllTasksOk(s, w, on) && Can(s, c, a) && Looks(a) && q < |w|
    ensures TaskOk(DoLook(s, c, a).tasks[q], Moved(s, w, c, a)[q], on[q])
  {
    hide Lists, DoLook, TaskOk, Moved;
    match a
    case StealQueue(v, busy) => TasksStealQueue(s, w, on, c, v, busy, q);
    case PushRest => TasksPushRest(s, w, on, c, q);
    case StealNext(v) => TasksStealNext(s, w, on, c, v, q);
    case _ =>
      if a.TakeNext? || a.TakeQueue? || a.TakeLast? {
        TasksTakes(s, w, on, c, a, q);
      } else {
        TasksStill(s, w, on, c, a, q);
      }
  }

  lemma KeepTasks(s: State, w: seq<Slot>, on: seq<Option<nat>>, c: nat, a: Action)
    requires Lists(s, w) && AllTasksOk(s, w, on) && Stacks(s, on) && AllSane(s) && Can(s, c, a)
    ensures AllTasksOk(Do(s, c, a), Moved(s, w, c, a), OnAfter(s, on, c, a))
  {
    forall q | 0 <= q < |w| ensures TaskOk(Do(s, c, a).tasks[q], Moved(s, w, c, a)[q], OnAfter(s, on, c, a)[q]) {
      TaskAfter(s, w, on, c, a, q);
    }
  }

  lemma TaskAfter(s: State, w: seq<Slot>, on: seq<Option<nat>>, c: nat, a: Action, q: nat)
    requires Lists(s, w) && AllTasksOk(s, w, on) && Stacks(s, on) && AllSane(s) && Can(s, c, a) && q < |w|
    ensures TaskOk(Do(s, c, a).tasks[q], Moved(s, w, c, a)[q], OnAfter(s, on, c, a)[q])
  {
    hide Lists, DoWork, DoLook, DoSwitch, DoOutside, TaskOk, Moved, Stacks;
    if Works(a) {
      TasksWork(s, w, on, c, a, q);
    } else if Looks(a) {
      TasksLook(s, w, on, c, a, q);
    } else if a.Decide? {
      TasksDecide(s, w, on, c, q);
    } else if a.PushBack? {
      NeverPutBack(s, c);
    } else if a.Go? {
      TasksGo(s, w, on, c, q);
    } else if a.Finish? {
      TasksFinish(s, w, on, c, q);
    } else {
      TasksOutside(s, w, on, c, a, q);
    }
  }

  // Numbers in range.

  predicate InRange(s: State) {
    && (forall i :: 0 <= i < |s.tasks| ==> s.tasks[i].home < |s.cars|)
    && (forall t :: t in s.monitors ==> t < |s.tasks|)
    && (forall t :: t in s.poller ==> t < |s.tasks|)
    && (forall t :: t in s.unused ==> t < |s.tasks|)
  }

  lemma WorkInRange(s: State, c: nat, a: Action)
    requires Can(s, c, a) && Works(a)
    ensures InRange(DoWork(s, c, a))
  {
    assert CarrierFits(s.cars[c], |s.tasks|);
    if a.PushOld? {
      assert Hand(s.cars[c])[0] == s.cars[c].pc.out;
    }
    hide CarrierFits, Hand;
  }

  lemma LookInRange(s: State, c: nat, a: Action)
    requires Can(s, c, a) && Looks(a)
    ensures InRange(DoLook(s, c, a))
  {
    hide CarrierFits, Steal, Hand;
  }

  lemma SwitchInRange(s: State, c: nat, a: Action)
    requires Can(s, c, a) && Switches(a)
    ensures InRange(DoSwitch(s, c, a))
  {
    Bounds(s, c);
    if a.PushBack? {
      assert Hand(s.cars[c])[0] == s.cars[c].pc.out;
    }
    hide CarrierFits, Hand;
  }

  lemma OutsideInRange(s: State, c: nat, a: Action)
    requires Can(s, c, a) && Outside(a)
    ensures InRange(DoOutside(s, c, a))
  {
    hide CarrierFits;
  }

  lemma KeepInRange(s: State, c: nat, a: Action)
    requires Can(s, c, a)
    ensures InRange(Do(s, c, a))
  {
    hide DoWork, DoLook, DoSwitch, DoOutside, InRange;
    if Works(a) {
      WorkInRange(s, c, a);
    } else if Looks(a) {
      LookInRange(s, c, a);
    } else if Switches(a) {
      SwitchInRange(s, c, a);
    } else {
      OutsideInRange(s, c, a);
    }
  }

  // Homes of fixed tasks.

  /** Each carrier's g0 is at home on it. */
  predicate G0sAtHome(s: State) {
    forall c :: 0 <= c < |s.cars| ==> s.cars[c].g0 < |s.tasks| && s.tasks[s.cars[c].g0].home == c
  }

  /** A task whose home no action may change. */
  predicate Settled(task: Task, at: Slot) {
    Fixed(task) || at.IsG0?
  }

  /** No action moves a fixed task's home or a g0's, or makes a root anything else. */
  lemma SettledStaysHome(s: State, w: seq<Slot>, on: seq<Option<nat>>, c: nat, a: Action, t: nat)
    requires Lists(s, w) && AllTasksOk(s, w, on) && AllSane(s) && G0sAtHome(s) && Can(s, c, a) && t < |w|
    requires Settled(s.tasks[t], w[t])
    ensures Do(s, c, a).tasks[t].home == s.tasks[t].home && Do(s, c, a).tasks[t].root == s.tasks[t].root
  {
    TaskFacts(s, w, on, t);
    hide Lists, CarrierFits, DoWork, DoLook, DoSwitch, DoOutside, TaskOk, AllTasksOk, Sane, G0sAtHome;
    if Works(a) {
      SettledWork(s, w, c, a, t);
    } else if Looks(a) {
      SettledLook(s, w, c, a, t);
    } else if Switches(a) {
      SettledSwitch(s, w, c, a, t);
    } else {
      NotUnused(s, w, t);
      SettledOutside(s, c, a, t);
    }
  }

  lemma NotUnused(s: State, w: seq<Slot>, t: nat)
    requires Lists(s, w) && t < |w|
    ensures t in s.unused <==> w[t].Unused?
  {
    assert Parked(s, w, t);
  }

  lemma TaskFacts(s: State, w: seq<Slot>, on: seq<Option<nat>>, t: nat)
    requires AllTasksOk(s, w, on) && t < |w| && Settled(s.tasks[t], w[t])
    ensures !w[t].Next? && !w[t].InLoot? && (w[t].InHand? ==> s.tasks[t].home == w[t].c)
    ensures w[t].Running? || w[t].Queue? ==> s.tasks[t].home == w[t].c
    ensures !w[t].Unused?
  {
    assert TaskOk(s.tasks[t], w[t], on[t]);
  }

  lemma SettledOutside(s: State, c: nat, a: Action, t: nat)
    requires Can(s, c, a) && Outside(a) && t < |s.tasks| && (a.ThreadStart? ==> t !in s.unused)
    ensures DoOutside(s, c, a).tasks[t].home == s.tasks[t].home && DoOutside(s, c, a).tasks[t].root == s.tasks[t].root
  {
    hide CarrierFits;
  }

  /** The actions of a running task that set a home: they leave t's, if these are not about t or t is there. */
  lemma WorkHomes(s: State, c: nat, a: Action, t: nat)
    requires Can(s, c, a) && Works(a) && t < |s.tasks|
    requires a.Wake? && a.t == t ==> Fixed(s.tasks[t])
    requires a.Deal? || a.Start? ==> a.t != t
    requires a.PushOld? && s.cars[c].pc.out == t ==> s.tasks[t].home == c
    requires a.Yield? && s.cars[c].cur == t ==> s.tasks[t].home == c
    ensures DoWork(s, c, a).tasks[t].home == s.tasks[t].home && DoWork(s, c, a).tasks[t].root == s.tasks[t].root
  {
    hide Within;
    Bounds(s, c);
    if a.PushOld? {
      assert Hand(s.cars[c])[0] == s.cars[c].pc.out;
    }
    hide CarrierFits, Hand;
  }

  lemma SettledWork(s: State, w: seq<Slot>, c: nat, a: Action, t: nat)
    requires Lists(s, w) && Can(s, c, a) && Works(a) && t < |w| && Settled(s.tasks[t], w[t])
    requires !w[t].Unused? && !w[t].Next? && (w[t].InHand? || w[t].Running? ==> s.tasks[t].home == w[t].c)
    ensures DoWork(s, c, a).tasks[t].home == s.tasks[t].home && DoWork(s, c, a).tasks[t].root == s.tasks[t].root
  {
    WorkPlaces(s, w, c, a);
    hide Lists, CarrierFits, DoWork;
    WorkHomes(s, c, a, t);
  }

  lemma SettledLook(s: State, w: seq<Slot>, c: nat, a: Action, t: nat)
    requires Lists(s, w) && Can(s, c, a) && Looks(a) && t < |w| && !w[t].Next? && !w[t].InLoot?
    ensures DoLook(s, c, a).tasks[t].home == s.tasks[t].home && DoLook(s, c, a).tasks[t].root == s.tasks[t].root
  {
    if a.PushRest? {
      RestElsewhere(s, w, c, t);
    } else if a.StealNext? {
      LookPlaces(s, w, c, a);
      StealNextIs(s, w, c, a.v);
    } else {
      hide Lists, CarrierFits, Steal;
    }
  }

  lemma RestElsewhere(s: State, w: seq<Slot>, c: nat, t: nat)
    requires Lists(s, w) && Can(s, c, PushRest) && t < |w| && !w[t].InLoot?
    ensures DoLook(s, c, PushRest).tasks[t] == s.tasks[t]
  {
    assert AtCar(s.cars[c], w, c);
    AtMeans(Loot(s.cars[c]), w, InLoot(c), t);
    assert Loot(s.cars[c]) == s.cars[c].pc.chain;
    hide Lists, CarrierFits, AtCar;
  }

  lemma SettledSwitch(s: State, w: seq<Slot>, c: nat, a: Action, t: nat)
    requires Lists(s, w) && Can(s, c, a) && Switches(a) && t < |w| && AllSane(s) && G0sAtHome(s)
    requires w[t] == InHand(c) ==> s.tasks[t].home == c
    ensures DoSwitch(s, c, a).tasks[t].home == s.tasks[t].home && DoSwitch(s, c, a).tasks[t].root == s.tasks[t].root
  {
    NeverPutBack(s, c);
    if a.Go? {
      GoTarget(s, w, c);
      SettledGo(s, c, t);
    } else {
      hide Lists, CarrierFits, Sane, G0sAtHome;
    }
  }

  /** Going to a task makes the carrier its home, which it was for a task in hand and for its g0. */
  lemma SettledGo(s: State, c: nat, t: nat)
    requires Can(s, c, Go) && t < |s.tasks| && (s.cars[c].pc.n == t ==> s.tasks[t].home == c)
    ensures DoSwitch(s, c, Go).tasks[t].home == s.tasks[t].home && DoSwitch(s, c, Go).tasks[t].root == s.tasks[t].root
  {
    hide CarrierFits;
  }

  lemma KeepG0sAtHome(s: State, w: seq<Slot>, on: seq<Option<nat>>, c: nat, a: Action)
    requires Lists(s, w) && AllTasksOk(s, w, on) && AllSane(s) && G0sAtHome(s) && Can(s, c, a)
    ensures G0sAtHome(Do(s, c, a))
  {
    SameG0s(s, c, a);
    forall d | 0 <= d < |s.cars|
      ensures s.cars[d].g0 < |w| && Do(s, c, a).tasks[s.cars[d].g0].home == d
    {
      G0Place(s, w, d);
      SettledStaysHome(s, w, on, c, a, s.cars[d].g0);
    }
    hide Lists, AllTasksOk, AllSane, Do, Can;
  }

  /** A settled task at home is used by no other carrier. */
  lemma SettledUsed(s: State, w: seq<Slot>, on: seq<Option<nat>>, c: nat, t: nat)
    requires AllTasksOk(s, w, on) && Stacks(s, on) && OwnG0(s, on) && G0sAtHome(s) && t < |w| && c < |s.cars|
    requires Fixed(s.tasks[t]) && Uses(s.cars[c], t)
    requires w[t].IsG0? ==> exists d :: 0 <= d < |s.cars| && s.cars[d].g0 == t
    ensures c == s.tasks[t].home
  {
    assert TaskOk(s.tasks[t], w[t], on[t]);
    hide LocksOk, FreedOk;
  }
}
