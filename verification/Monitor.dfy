/**
 * A monitor shared by tasks and threads: a mutex, a queue of tasks waiting to enter (tq, under a
 * spin lock), a queue of processes in WAIT (wq, under the mutex) and the threads a SIGNAL woke
 * whose wake is put off to the next unlock (pend, under the mutex). Each action below is one
 * atomic access of the source; the fences make them sequentially consistent.
 */
module Monitor {
  import opened Queues
  import opened Wrappers

  datatype Kind = Task | Thread

  /** Where a process stands in the monitor's code. */
  datatype Pc =
    | Out
    | Entering                                                    // about to try the mutex
    | Blocked                                                     // a thread asleep in the mutex
    | Trying                                                      // a task in the retry loop
    | Joining                                                     // has the spin lock
    | Queued                                                      // is the tail of tq
    | Refused                                                     // its second try failed
    | Won                                                         // its second try got the mutex
    | Removed                                                     // has left tq again
    | Parked                                                      // has let the spin lock go, to be woken
    | In
    | Signalling(list: seq<nat>, movable: seq<nat>)
    | Leaving(list: seq<nat>, wait: bool)                         // has taken pend
    | Unlocked(list: seq<nat>, wait: bool)                        // has not looked at tq yet
    | ToPop(list: seq<nat>, wait: bool)                           // saw tq not empty
    | PopLocked(list: seq<nat>, wait: bool)
    | Popped(hand: Option<nat>, list: seq<nat>, wait: bool)       // still has the spin lock
    | Handing(hand: Option<nat>, list: seq<nat>, wait: bool)
    | Waking(list: seq<nat>, wait: bool)
    | Asleep                                                      // in WAIT, to be woken

  /**
   * `ready` holds the parked processes that have been woken and have not run yet. `parks` and
   * `wakes` count, for each process, how often it parked and how often it was woken; no action
   * reads them.
   */
  datatype State = State(
    kind: seq<Kind>, pc: seq<Pc>,
    mutex: Option<nat>, spin: Option<nat>,
    tq: seq<nat>, wq: seq<nat>, pend: seq<nat>, ready: set<nat>,
    parks: seq<nat>, wakes: seq<nat>)

  datatype Action =
    | Enter | Try | Lock | SpinTry | TakeSpin | Join | SecondTry | Park | Unlink | LetSpinGo | Resume
    | Leave | Wait | Unlock | Look | PopLock | Pop | PopUnlock | Hand | WakeOne | Done | WakeUp
    | Signal | SignalOne(pinned: bool) | ReadyOne | SignalDone

  /** The order of a doubly linked queue after `p` unlinks itself as the tail: what stood before it. */
  function Before(queue: seq<nat>, p: nat): seq<nat> {
    if queue == [] || queue[0] == p then [] else [queue[0]] + Before(queue[1..], p)
  }

  predicate Sizes(s: State) {
    && |s.kind| == |s.pc| == |s.parks| == |s.wakes|
    && (s.mutex.Some? ==> s.mutex.value < |s.pc|)
    && (s.spin.Some? ==> s.spin.value < |s.pc|)
  }

  predicate Ranges(s: State) {
    && Within(s.tq, |s.pc|) && Within(s.wq, |s.pc|) && Within(s.pend, |s.pc|)
    && (forall q :: q in s.ready ==> q < |s.pc|)
    && (forall r :: 0 <= r < |s.pc| ==> Within(Listed(s.pc[r]), |s.pc|) && Within(Handed(s.pc[r]), |s.pc|))
  }

  predicate Shape(s: State) {
    Sizes(s) && Ranges(s)
  }

  /** The waiters a process carries between queues. */
  function Listed(pc: Pc): seq<nat> {
    match pc
    case Signalling(list, movable) => list + movable
    case Leaving(list, _) => list
    case Unlocked(list, _) => list
    case ToPop(list, _) => list
    case PopLocked(list, _) => list
    case Popped(_, list, _) => list
    case Handing(_, list, _) => list
    case Waking(list, _) => list
    case _ => []
  }

  /** The entrant a leaver has popped and not yet woken. */
  function Handed(pc: Pc): seq<nat> {
    match pc
    case Popped(Some(t), _, _) => [t]
    case Handing(Some(t), _, _) => [t]
    case _ => []
  }

  predicate Can(s: State, p: nat, a: Action) {
    p < |s.pc| && Shape(s) &&
    var pc := s.pc[p];
    match a
    case Enter => pc.Out?
    case Try => pc.Entering?
    case Lock => pc.Blocked? && s.mutex.None?
    case SpinTry => pc.Trying? && s.mutex.None?
    case TakeSpin => pc.Trying? && s.spin.None?
    case Join => pc.Joining?
    case SecondTry => pc.Queued?
    case Park => pc.Refused?
    case Unlink => pc.Won?
    case LetSpinGo => pc.Removed?
    case Resume => pc.Parked? && p in s.ready
    case Leave => pc.In?
    case Wait => pc.In?
    case Unlock => pc.Leaving?
    case Look => pc.Unlocked?
    case PopLock => pc.ToPop? && s.spin.None?
    case Pop => pc.PopLocked?
    case PopUnlock => pc.Popped?
    case Hand => pc.Handing?
    case WakeOne => pc.Waking? && pc.list != []
    case Done => pc.Waking? && pc.list == []
    case WakeUp => pc.Asleep? && p in s.ready
    case Signal => pc.In? && s.wq != []
    case SignalOne(_) => pc.Signalling? && pc.list != []
    case ReadyOne => pc.Signalling? && pc.list == [] && pc.movable != []
    case SignalDone => pc.Signalling? && pc.list == [] && pc.movable == []
  }

  function To(s: State, p: nat, pc: Pc): State
    requires p < |s.pc|
  {
    s.(pc := s.pc[p := pc])
  }

  /** q is made runnable: queued on a carrier, or its wake word set. */
  function Woken(s: State, q: nat): State
    requires q < |s.wakes|
  {
    s.(ready := s.ready + {q}, wakes := s.wakes[q := s.wakes[q] + 1])
  }

  function Counted(s: State, p: nat): State
    requires p < |s.parks|
  {
    s.(parks := s.parks[p := s.parks[p] + 1])
  }

  predicate Entry(a: Action) {
    a.Enter? || a.Try? || a.Lock? || a.SpinTry? || a.TakeSpin? || a.Join? || a.SecondTry? || a.Park?
    || a.Unlink? || a.LetSpinGo? || a.Resume?
  }

  predicate Signals(a: Action) {
    a.Signal? || a.SignalOne? || a.ReadyOne? || a.SignalDone?
  }

  /** What an action of the entering process does. */
  function DoEntry(s: State, p: nat, a: Action): (t: State)
    requires Can(s, p, a) && Entry(a)
    ensures Sizes(t) && t.kind == s.kind && |t.pc| == |s.pc| && t.pc == s.pc[p := t.pc[p]]
    ensures forall q :: q in t.ready ==> q < |s.pc|
  {
    match a
    case Enter => To(s, p, Entering)
    case Try =>
      if s.mutex.None? then To(s, p, In).(mutex := Some(p))
      else To(s, p, if s.kind[p].Thread? then Blocked else Trying)
    case Lock => To(s, p, In).(mutex := Some(p))
    case SpinTry => To(s, p, In).(mutex := Some(p))
    case TakeSpin => To(s, p, Joining).(spin := Some(p))
    case Join => To(s, p, Queued).(tq := s.tq + [p])
    case SecondTry => if s.mutex.None? then To(s, p, Won).(mutex := Some(p)) else To(s, p, Refused)
    case Park => Counted(To(s, p, Parked), p).(spin := None)
    case Unlink => To(s, p, Removed).(tq := Before(s.tq, p))
    case LetSpinGo => To(s, p, In).(spin := None)
    case Resume => To(s, p, Trying).(ready := s.ready - {p})
  }

  /** What an action of a holder's SIGNAL does. */
  function DoSignal(s: State, p: nat, a: Action): (t: State)
    requires Can(s, p, a) && Signals(a)
    ensures Sizes(t) && t.kind == s.kind && |t.pc| == |s.pc| && t.pc == s.pc[p := t.pc[p]]
    ensures forall q :: q in t.ready ==> q < |s.pc|
  {
    var pc := s.pc[p];
    match a
    case Signal => To(s, p, Signalling(s.wq, [])).(wq := [])
    case SignalOne(pinned) =>
      var t, rest := pc.list[0], pc.list[1..];
      assert t == Listed(pc)[0];
      if s.kind[t].Thread? then To(s, p, Signalling(rest, pc.movable)).(pend := [t] + s.pend)
      else if pinned then Woken(To(s, p, Signalling(rest, pc.movable)), t)
      else To(s, p, Signalling(rest, [t] + pc.movable))
    case ReadyOne =>
      assert pc.movable[0] == Listed(pc)[0];
      Woken(To(s, p, Signalling([], pc.movable[1..])), pc.movable[0])
    case SignalDone => To(s, p, In)
  }

  /** What an action of a LEAVE or a WAIT does, up to the waiter's waking. */
  function DoLeave(s: State, p: nat, a: Action): (t: State)
    requires Can(s, p, a) && !Entry(a) && !Signals(a)
    ensures Sizes(t) && t.kind == s.kind && |t.pc| == |s.pc| && t.pc == s.pc[p := t.pc[p]]
    ensures forall q :: q in t.ready ==> q < |s.pc|
  {
    var pc := s.pc[p];
    match a
    case Leave => To(s, p, Leaving(s.pend, false)).(pend := [])
    case Wait => Counted(To(s, p, Leaving(s.pend, true)), p).(pend := [], wq := [p] + s.wq)
    case Unlock => To(s, p, Unlocked(pc.list, pc.wait)).(mutex := None)
    case Look => To(s, p, if s.tq != [] then ToPop(pc.list, pc.wait) else Waking(pc.list, pc.wait))
    case PopLock => To(s, p, PopLocked(pc.list, pc.wait)).(spin := Some(p))
    case Pop =>
      if s.tq == [] then To(s, p, Popped(None, pc.list, pc.wait))
      else To(s, p, Popped(Some(s.tq[0]), pc.list, pc.wait)).(tq := s.tq[1..])
    case PopUnlock => To(s, p, Handing(pc.hand, pc.list, pc.wait)).(spin := None)
    case Hand =>
      var t := To(s, p, Waking(pc.list, pc.wait));
      if pc.hand.None? then t else assert pc.hand.value == Handed(pc)[0]; Woken(t, pc.hand.value)
    case WakeOne =>
      assert pc.list[0] == Listed(pc)[0];
      Woken(To(s, p, Waking(pc.list[1..], pc.wait)), pc.list[0])
    case Done => To(s, p, if pc.wait then Asleep else Out)
    case WakeUp => To(s, p, if s.kind[p].Thread? then Blocked else Entering).(ready := s.ready - {p})
  }

  function Do(s: State, p: nat, a: Action): (t: State)
    requires Can(s, p, a)
    ensures Sizes(t) && t.kind == s.kind && |t.pc| == |s.pc| && t.pc == s.pc[p := t.pc[p]]
    ensures forall q :: q in t.ready ==> q < |s.pc|
  {
    if Entry(a) then DoEntry(s, p, a) else if Signals(a) then DoSignal(s, p, a) else DoLeave(s, p, a)
  }

  /** Whom an action wakes. */
  function Woke(s: State, p: nat, a: Action): Option<nat>
    requires Can(s, p, a)
  {
    var pc := s.pc[p];
    match a
    case Hand => pc.hand
    case WakeOne => Some(pc.list[0])
    case SignalOne(pinned) =>
      assert pc.list[0] == Listed(pc)[0];
      if s.kind[pc.list[0]].Task? && pinned then Some(pc.list[0]) else None
    case ReadyOne => Some(pc.movable[0])
    case _ => None
  }

  /** Nobody is at the monitor, and it is as carved: all zero. */
  predicate Fresh(s: State) {
    && Shape(s)
    && (forall p :: 0 <= p < |s.pc| ==> s.pc[p].Out?)
    && s.mutex.None? && s.spin.None? && s.tq == s.wq == s.pend == [] && s.ready == {}
    && (forall p :: 0 <= p < |s.pc| ==> s.parks[p] == 0 && s.wakes[p] == 0)
  }

  /** The state after a list of actions, if each could happen. */
  predicate Runs(s: State, events: seq<(nat, Action)>, t: State)
    decreases |events|
  {
    if events == [] then s == t
    else Can(s, events[0].0, events[0].1) && Runs(Do(s, events[0].0, events[0].1), events[1..], t)
  }
}
