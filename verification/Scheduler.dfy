/**
 * The task scheduler: tasks that run on carriers, each carrier with a run queue, a slot for the
 * task it just woke, and a small task of its own (g0) where it spins and sleeps. One action is one
 * access to shared state: an exchange of a slot, or what is done under one carrier's lock.
 */
module Scheduler {
  import opened Wrappers
  import opened Queues

  /**
   * A task. A root has no stack of the runtime's. `locks` names, for each monitor the task holds
   * locked, the carrier that locked it; no action but an unlock reads it.
   */
  datatype Task = Task(root: bool, pinned: bool, home: nat, onstack: bool, done: bool, freed: bool, locks: seq<nat>)

  /** Where a carrier stands in the scheduler's code. */
  datatype Pc =
    | Run                                     // in the task's own code
    | Displaced(out: nat, parting: bool)      // a wake took it out of the slot: it goes to the queue
    | Parting                                 // the task has parked itself and has not called the scheduler
    | LookNext | LookQueue | LookOthers       // the scheduler's search
    | LastQueue | LastOthers | Dozing         // its last look before it sleeps
    | Stolen(chain: seq<nat>)
    | Picked(n: nat)
    | PutBack(out: nat)
    | Going(n: nat)
    | After                                   // has switched, has not finished the task it left
    | Asleep(signalled: bool)

  datatype Carrier = Carrier(g0: nat, cur: nat, left: Option<nat>, next: Option<nat>, rq: seq<nat>, pc: Pc)

  /** Parked tasks are in a monitor's queues or in the poller; unused ones have not been started. */
  datatype State = State(tasks: seq<Task>, cars: seq<Carrier>, monitors: set<nat>, poller: set<nat>, unused: set<nat>)

  datatype Action =
    // the running task
    | Wake(t: nat) | PushOld | Deal(t: nat, to: nat) | Start(t: nat) | Lock | Unlock
    | Park(poll: bool, release: bool) | Yield | End | Part
    // the search
    | TakeNext | TakeQueue | StealNext(v: nat) | StealQueue(v: nat, busy: set<nat>) | GiveUp | Tire
    | TakeLast | GiveUpLast | Sleep | Rise | PushRest
    // the switch
    | Decide | PushBack | Go | Finish
    // threads that carry no tasks, and the poller
    | ThreadWake(t: nat) | PollWake(t: nat) | ThreadStart(t: nat, to: nat)

  predicate Works(a: Action) {
    a.Wake? || a.PushOld? || a.Deal? || a.Start? || a.Lock? || a.Unlock? || a.Park? || a.Yield? || a.End? || a.Part?
  }

  predicate Looks(a: Action) {
    a.TakeNext? || a.TakeQueue? || a.StealNext? || a.StealQueue? || a.GiveUp? || a.Tire?
    || a.TakeLast? || a.GiveUpLast? || a.Sleep? || a.Rise? || a.PushRest?
  }

  predicate Switches(a: Action) {
    a.Decide? || a.PushBack? || a.Go? || a.Finish?
  }

  predicate Outside(a: Action) {
    a.ThreadWake? || a.PollWake? || a.ThreadStart?
  }

  function Some1(o: Option<nat>): seq<nat> {
    if o.Some? then [o.value] else []
  }

  /** The tasks a thief has taken and not yet shared out. */
  function Loot(c: Carrier): seq<nat> {
    if c.pc.Stolen? then c.pc.chain else []
  }

  /** Any other task a carrier holds that is in no queue. */
  function Hand(c: Carrier): seq<nat> {
    match c.pc
    case Displaced(out, _) => [out]
    case Picked(n) => [n]
    case PutBack(out) => [out]
    case Going(n) => if n == c.g0 then [] else [n]
    case _ => []
  }

  predicate CarrierFits(c: Carrier, n: nat) {
    && c.g0 < n && c.cur < n && (c.left.Some? ==> c.left.value < n) && (c.next.Some? ==> c.next.value < n)
    && Within(c.rq, n) && Within(Hand(c), n) && Within(Loot(c), n)
  }

  predicate Fits(s: State) {
    && (forall i :: 0 <= i < |s.tasks| ==> s.tasks[i].home < |s.cars|)
    && (forall c :: 0 <= c < |s.cars| ==> CarrierFits(s.cars[c], |s.tasks|))
    && (forall t :: t in s.monitors ==> t < |s.tasks|)
    && (forall t :: t in s.poller ==> t < |s.tasks|)
    && (forall t :: t in s.unused ==> t < |s.tasks|)
  }

  /**
   * What a thief takes of a queue: at most `want` tasks, in order, passing over a root, a pinned
   * task, and one it saw on its carrier's stack.
   */
  function Steal(tasks: seq<Task>, rq: seq<nat>, want: nat, busy: set<nat>): (r: (seq<nat>, seq<nat>))
    requires Within(rq, |tasks|)
    ensures |r.0| <= want && Within(r.0, |tasks|) && Within(r.1, |tasks|)
  {
    if rq == [] || want == 0 then ([], rq)
    else
      var stay := tasks[rq[0]].root || tasks[rq[0]].pinned || rq[0] in busy;
      var (taken, kept) := Steal(tasks, rq[1..], if stay then want else want - 1, busy);
      if stay then (taken, [rq[0]] + kept) else ([rq[0]] + taken, kept)
  }

  function Half(rq: seq<nat>): nat {
    if (|rq| + 1) / 2 > 32 then 32 else (|rq| + 1) / 2
  }

  function SetCar(s: State, c: nat, car: Carrier): State
    requires c < |s.cars|
  {
    s.(cars := s.cars[c := car])
  }

  function SetTask(s: State, t: nat, task: Task): State
    requires t < |s.tasks|
  {
    s.(tasks := s.tasks[t := task])
  }

  function To(s: State, c: nat, pc: Pc): State
    requires c < |s.cars|
  {
    SetCar(s, c, s.cars[c].(pc := pc))
  }

  function Homed(s: State, t: nat, c: nat): State
    requires t < |s.tasks|
  {
    SetTask(s, t, s.tasks[t].(home := c))
  }

  /** A carrier with tasks added to its queue; asleep, it is signalled. */
  function Queued(c: Carrier, ts: seq<nat>): Carrier {
    c.(rq := c.rq + ts, pc := if c.pc.Asleep? then Asleep(true) else c.pc)
  }

  function Push(s: State, c: nat, t: nat): State
    requires c < |s.cars| && t < |s.tasks|
  {
    Homed(SetCar(s, c, Queued(s.cars[c], [t])), t, c)
  }

  function AllHomed(tasks: seq<Task>, ts: seq<nat>, c: nat): (r: seq<Task>)
    requires Within(ts, |tasks|)
    ensures |r| == |tasks|
    ensures forall i :: 0 <= i < |tasks| ==> r[i] == if i in ts then tasks[i].(home := c) else tasks[i]
  {
    seq(|tasks|, i requires 0 <= i < |tasks| => if i in ts then tasks[i].(home := c) else tasks[i])
  }

  /** A woken or new task takes the carrier's slot; the one it finds there is displaced. */
  function TakeSlot(s: State, c: nat, t: nat): State
    requires c < |s.cars| && t < |s.tasks|
  {
    var car := s.cars[c];
    var pc := if car.next.Some? then Displaced(car.next.value, car.pc.Parting?) else car.pc;
    Homed(SetCar(s, c, car.(next := Some(t), pc := pc)), t, c)
  }

  predicate Can(s: State, c: nat, a: Action) {
    c < |s.cars| && Fits(s) &&
    var car := s.cars[c];
    var pc := car.pc;
    match a
    case Wake(t) => (pc.Run? || pc.Parting?) && t in s.monitors
    case PushOld => pc.Displaced?
    case Deal(t, to) => pc.Run? && t in s.monitors && !s.tasks[t].pinned && !s.tasks[t].root && to < |s.cars|
    case Start(t) => pc.Run? && t in s.unused
    case Lock => pc.Run?
    case Unlock => pc.Run? && s.tasks[car.cur].locks != []
    case Park(poll, release) => pc.Run? && (release ==> !poll && s.tasks[car.cur].locks != [])
    case Yield => pc.Run?
    case End => pc.Run? && !s.tasks[car.cur].root
    case Part => pc.Parting?
    case TakeNext => pc.LookNext?
    case TakeQueue => pc.LookQueue?
    case StealNext(v) => pc.LookOthers? && v < |s.cars| && v != c && s.cars[v].next.Some?
    case StealQueue(v, busy) =>
      && (pc.LookOthers? || pc.LastOthers?) && v < |s.cars| && v != c
      && CarrierFits(s.cars[v], |s.tasks|)
      && (forall i :: 0 <= i < |s.cars[v].rq| && s.tasks[s.cars[v].rq[i]].onstack ==> s.cars[v].rq[i] in busy)
      && Steal(s.tasks, s.cars[v].rq, Half(s.cars[v].rq), busy).0 != []
    case GiveUp => pc.LookOthers?
    case Tire => pc.LookOthers? && car.cur == car.g0
    case TakeLast => pc.LastQueue?
    case GiveUpLast => pc.LastOthers?
    case Sleep => pc.Dozing?
    case Rise => pc.Asleep?
    case PushRest => pc.Stolen? && pc.chain != []
    case Decide => pc.Picked?
    case PushBack => pc.PutBack?
    case Go => pc.Going? && pc.n < |s.tasks| && (pc.n == car.cur || !s.tasks[pc.n].onstack)
    case Finish => pc.After? && car.left.Some?
    case ThreadWake(t) => t in s.monitors
    case PollWake(t) => t in s.poller
    case ThreadStart(t, to) => t in s.unused && to < |s.cars|
  }

  /** What the task running on carrier c does. */
  function DoWork(s: State, c: nat, a: Action): (t: State)
    requires Can(s, c, a) && Works(a)
    ensures |t.tasks| == |s.tasks| && |t.cars| == |s.cars|
  {
    var car := s.cars[c];
    assert CarrierFits(car, |s.tasks|);
    var task := s.tasks[car.cur];
    match a
    case Wake(t) =>
      var s' := s.(monitors := s.monitors - {t});
      if s.tasks[t].pinned || s.tasks[t].root then Push(s', s.tasks[t].home, t) else TakeSlot(s', c, t)
    case PushOld =>
      assert car.pc.out == Hand(car)[0];
      Push(To(s, c, if car.pc.parting then Parting else Run), c, car.pc.out)
    case Deal(t, to) => Push(s.(monitors := s.monitors - {t}), to, t)
    case Start(t) => TakeSlot(s.(unused := s.unused - {t}), c, t)
    case Lock => SetTask(s, car.cur, task.(locks := task.locks + [c]))
    case Unlock => SetTask(s, car.cur, task.(locks := task.locks[..|task.locks| - 1]))
    case Park(poll, release) =>
      var locks := if release then task.locks[..|task.locks| - 1] else task.locks;
      var s' := SetTask(To(s, c, Parting), car.cur, task.(locks := locks, pinned := locks != []));
      if poll then s'.(poller := s.poller + {car.cur}) else s'.(monitors := s.monitors + {car.cur})
    case Yield => Push(SetTask(To(s, c, LookNext), car.cur, task.(pinned := task.locks != [])), c, car.cur)
    case End => SetTask(To(s, c, LookNext), car.cur, task.(done := true, locks := []))
    case Part => To(s, c, LookNext)
  }

  /** What the search of carrier c does. */
  function DoLook(s: State, c: nat, a: Action): (t: State)
    requires Can(s, c, a) && Looks(a)
    ensures |t.tasks| == |s.tasks| && |t.cars| == |s.cars|
  {
    var car := s.cars[c];
    assert CarrierFits(car, |s.tasks|);
    match a
    case TakeNext =>
      if car.next.Some? then SetCar(s, c, car.(next := None, pc := Picked(car.next.value))) else To(s, c, LookQueue)
    case TakeQueue =>
      if car.rq != [] then SetCar(s, c, car.(rq := car.rq[1..], pc := Picked(car.rq[0]))) else To(s, c, LookOthers)
    case StealNext(v) =>
      assert CarrierFits(s.cars[v], |s.tasks|);
      var n := s.cars[v].next.value;
      Homed(To(SetCar(s, v, s.cars[v].(next := None)), c, Picked(n)), n, c)
    case StealQueue(v, busy) =>
      var (taken, kept) := Steal(s.tasks, s.cars[v].rq, Half(s.cars[v].rq), busy);
      To(SetCar(s, v, s.cars[v].(rq := kept)), c, Stolen(taken))
    case GiveUp => To(s, c, if car.cur != car.g0 then Going(car.g0) else LookNext)
    case Tire => To(s, c, LastQueue)
    case TakeLast =>
      if car.rq != [] then SetCar(s, c, car.(rq := car.rq[1..], pc := Picked(car.rq[0]))) else To(s, c, LastOthers)
    case GiveUpLast => To(s, c, Dozing)
    case Sleep => To(s, c, if car.rq == [] then Asleep(false) else LookNext)
    case Rise => To(s, c, LookNext)
    case PushRest =>
      var chain := car.pc.chain;
      assert chain == Loot(car);
      SetCar(s, c, car.(rq := car.rq + chain[1..], pc := Picked(chain[0]))).(tasks := AllHomed(s.tasks, chain, c))
  }

  /** What the switch of carrier c does. */
  function DoSwitch(s: State, c: nat, a: Action): (t: State)
    requires Can(s, c, a) && Switches(a)
    ensures |t.tasks| == |s.tasks| && |t.cars| == |s.cars|
  {
    var car := s.cars[c];
    assert CarrierFits(car, |s.tasks|);
    match a
    case Decide =>
      var n := car.pc.n;
      assert n == Hand(car)[0];
      if n != car.cur && car.cur != car.g0 && s.tasks[n].onstack then
        SetCar(s, c, car.(next := Some(n), pc := if car.next.Some? then PutBack(car.next.value) else Going(car.g0)))
      else To(s, c, Going(n))
    case PushBack =>
      assert car.pc.out == Hand(car)[0];
      Push(To(s, c, Going(car.g0)), c, car.pc.out)
    case Go =>
      var n := car.pc.n;
      if n == car.cur then To(s, c, Run)
      else SetTask(SetCar(s, c, car.(cur := n, left := Some(car.cur), pc := After)), n,
                   s.tasks[n].(home := c, onstack := true))
    case Finish =>
      var l := car.left.value;
      SetTask(SetCar(s, c, car.(left := None, pc := if car.cur == car.g0 then LookNext else Run)), l,
              if s.tasks[l].done then s.tasks[l].(onstack := false, freed := true) else s.tasks[l].(onstack := false))
  }

  /** What the rest of the program does to the carriers. */
  function DoOutside(s: State, c: nat, a: Action): (t: State)
    requires Can(s, c, a) && Outside(a)
    ensures |t.tasks| == |s.tasks| && |t.cars| == |s.cars|
  {
    match a
    case ThreadWake(t) => Push(s.(monitors := s.monitors - {t}), s.tasks[t].home, t)
    case PollWake(t) => Push(s.(poller := s.poller - {t}), s.tasks[t].home, t)
    case ThreadStart(t, to) => Push(s.(unused := s.unused - {t}), to, t)
  }

  function Do(s: State, c: nat, a: Action): (t: State)
    requires Can(s, c, a)
    ensures |t.tasks| == |s.tasks| && |t.cars| == |s.cars|
  {
    if Works(a) then DoWork(s, c, a)
    else if Looks(a) then DoLook(s, c, a)
    else if Switches(a) then DoSwitch(s, c, a)
    else DoOutside(s, c, a)
  }
}
