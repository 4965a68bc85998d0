/** Each action of the scheduler keeps every task's place right. */
module SchedulerProof {
  import opened Wrappers
  import opened Queues
  import opened Scheduler
  import opened SchedulerPlaces

  /** The points between the carrier's emptying its slot and its next switch. */
  predicate SlotEmptied(pc: Pc) {
    pc.LookQueue? || pc.LookOthers? || pc.LastQueue? || pc.LastOthers? || pc.Dozing? || pc.Asleep? || pc.Picked?
        || pc.Stolen?
  }

  /** What is known of a carrier from its place in the code alone. */
  predicate Sane(car: Carrier) {
    && (car.pc.Run? || car.pc.Displaced? || car.pc.Parting? ==> car.cur != car.g0)
    && (car.pc.Going? && car.pc.n == car.g0 ==> car.cur != car.g0)
    && (car.pc.LastQueue? || car.pc.LastOthers? || car.pc.Dozing? || car.pc.Asleep? ==> car.cur == car.g0)
    && (car.pc.After? <==> car.left.Some?)
    && (SlotEmptied(car.pc) ==> car.next.None?)
    && !car.pc.PutBack?
    && (car.pc == Asleep(false) ==> car.rq == [])
    && (car.pc.Stolen? ==> car.pc.chain != [])
  }

  predicate AllSane(s: State) {
    forall c :: 0 <= c < |s.cars| ==> Sane(s.cars[c])
  }

  lemma KeepSaneWork(s: State, c: nat, a: Action)
    requires AllSane(s) && Can(s, c, a) && Works(a)
    ensures AllSane(DoWork(s, c, a))
  {
    hide CarrierFits;
  }

  lemma KeepSaneLook(s: State, c: nat, a: Action)
    requires AllSane(s) && Can(s, c, a) && Looks(a)
    ensures AllSane(DoLook(s, c, a))
  {
    hide CarrierFits;
  }

  lemma KeepSaneSwitch(s: State, c: nat, a: Action)
    requires AllSane(s) && Can(s, c, a) && Switches(a)
    requires s.cars[c].pc.Picked? ==> s.cars[c].pc.n != s.cars[c].g0
    ensures AllSane(DoSwitch(s, c, a))
  {
    hide CarrierFits, Hand;
    var t := DoSwitch(s, c, a);
    assert t.cars == s.cars[c := t.cars[c]];
    assert Sane(s.cars[c]);
    assert Sane(t.cars[c]);
  }

  lemma KeepSaneOutside(s: State, c: nat, a: Action)
    requires AllSane(s) && Can(s, c, a) && Outside(a)
    ensures AllSane(DoOutside(s, c, a))
  {
    hide CarrierFits;
  }

  /** The lists after an action that changes one carrier. */
  lemma Assembled(s: State, t: State, w: seq<Slot>, v: seq<Slot>, c: nat)
    requires |t.cars| == |s.cars| && c < |s.cars| && t.cars == s.cars[c := t.cars[c]]
    requires |v| == |w| == |t.tasks| && AtCar(t.cars[c], v, c)
    requires forall d :: 0 <= d < |s.cars| && d != c ==> AtCar(s.cars[d], v, d)
    requires forall q :: 0 <= q < |v| ==> Parked(t, v, q)
    requires forall d :: 0 <= d < |s.cars| ==> s.cars[d].g0 < |v| && v[s.cars[d].g0] == IsG0
    requires t.cars[c].g0 == s.cars[c].g0
    ensures Lists(t, v)
  {
    hide AtCar, Parked;
  }

  predicate NoCarriers(at: Slot) {
    !at.Running? && !at.Queue? && !at.Next? && !at.InHand? && !at.InLoot?
  }

  /** A task that is in no carrier's lists joins a queue. */
  lemma PushedFromOutside(s: State, r: State, w: seq<Slot>, d: nat, t: nat)
    requires Lists(s, w) && d < |s.cars| && t < |w| && NoCarriers(w[t]) && !w[t].IsG0? && !w[t].Ended?
    requires r.cars == s.cars && r.tasks == s.tasks
    requires r.monitors == s.monitors - {t} && r.poller == s.poller - {t} && r.unused == s.unused - {t}
    ensures Lists(Push(r, d, t), w[t := Queue(d)])
  {
    hide At, AtCar;
    var v := w[t := Queue(d)];
    CarsElsewhere(s.cars, w, t, Queue(d));
    QueueJoined(s.cars[d], w, d, t);
    forall q | 0 <= q < |v| ensures Parked(Push(r, d, t), v, q) {
      assert Parked(s, w, q);
    }
    Assembled(s, Push(r, d, t), w, v, d);
  }

  /** A task that is in no carrier's lists takes a carrier's slot. */
  lemma SlotTakenFromOutside(s: State, r: State, w: seq<Slot>, c: nat, t: nat)
    requires Lists(s, w) && c < |s.cars| && t < |w| && NoCarriers(w[t]) && !w[t].IsG0? && !w[t].Ended?
    requires s.cars[c].pc.Run? || s.cars[c].pc.Parting?
    requires r.cars == s.cars && r.tasks == s.tasks && CarrierFits(s.cars[c], |w|)
    requires r.monitors == s.monitors - {t} && r.poller == s.poller - {t} && r.unused == s.unused - {t}
    ensures Lists(TakeSlot(r, c, t), SlotTaken(s.cars[c], w, c, t))
  {
    hide At, AtCar, CarrierFits;
    var v := SlotTaken(s.cars[c], w, c, t);
    SlotsAfter(s, r, w, c, t);
    assert Parked(s, w, t);
    if s.cars[c].next.Some? {
      SlotLists(s, w, c, s.cars[c].next.value);
    }
    forall q | 0 <= q < |v| ensures Parked(TakeSlot(r, c, t), v, q) {
      assert Parked(s, w, q);
    }
    Assembled(s, TakeSlot(r, c, t), w, v, c);
  }

  /** What a carrier's slot holds is in no other kind of place. */
  lemma SlotLists(s: State, w: seq<Slot>, c: nat, q: nat)
    requires Lists(s, w) && c < |s.cars| && s.cars[c].next == Some(q)
    ensures q < |w| && w[q] == Next(c)
  {
    assert AtCar(s.cars[c], w, c);
    assert Some1(s.cars[c].next)[0] == q;
  }

  lemma SlotsAfter(s: State, r: State, w: seq<Slot>, c: nat, t: nat)
    requires Lists(s, w) && c < |s.cars| && t < |w| && NoCarriers(w[t])
    requires s.cars[c].pc.Run? || s.cars[c].pc.Parting?
    requires r.cars == s.cars && |r.tasks| == |w| && CarrierFits(s.cars[c], |w|)
    ensures forall d :: 0 <= d < |s.cars| && d != c ==> AtCar(s.cars[d], SlotTaken(s.cars[c], w, c, t), d)
    ensures AtCar(TakeSlot(r, c, t).cars[c], SlotTaken(s.cars[c], w, c, t), c)
  {
    hide At, Parked;
    var car := s.cars[c];
    assert AtCar(car, w, c);
    if car.next.Some? {
      var out := car.next.value;
      assert Some1(car.next)[0] == out && Some1(car.next)[1..] == [];
      HeadTaken(Some1(car.next), w, InHand(c), Next(c));
      Joined([], w, out, InHand(c));
      assert [] + [out] == [out];
      CarElsewhere(car, w, c, out, InHand(c));
      CarsElsewhere(s.cars, w, out, InHand(c));
      SlotFilled(s, r, w[out := InHand(c)], c, t, [out]);
    } else {
      SlotFilled(s, r, w, c, t, []);
    }
  }

  lemma SlotFilled(s: State, r: State, w: seq<Slot>, c: nat, t: nat, hand: seq<nat>)
    requires c < |s.cars| && t < |w| && NoCarriers(w[t])
    requires s.cars[c].pc.Run? || s.cars[c].pc.Parting?
    requires hand == Some1(s.cars[c].next)
    requires At(s.cars[c].rq, w, Queue(c)) && At([], w, Next(c)) && At(hand, w, InHand(c))
    requires At(RunList(s.cars[c]), w, Running(c)) && At([], w, InLoot(c))
    requires forall d :: 0 <= d < |s.cars| && d != c ==> AtCar(s.cars[d], w, d)
    requires r.cars == s.cars && |r.tasks| == |w|
    ensures forall d :: 0 <= d < |s.cars| && d != c ==> AtCar(s.cars[d], w[t := Next(c)], d)
    ensures AtCar(TakeSlot(r, c, t).cars[c], w[t := Next(c)], c)
  {
    hide At;
    var car := s.cars[c];
    Joined([], w, t, Next(c));
    assert [] + [t] == [t];
    Elsewhere(car.rq, w, t, Next(c), Queue(c));
    Elsewhere(hand, w, t, Next(c), InHand(c));
    Elsewhere(RunList(car), w, t, Next(c), Running(c));
    Elsewhere([], w, t, Next(c), InLoot(c));
    forall d | 0 <= d < |s.cars| && d != c ensures AtCar(s.cars[d], w[t := Next(c)], d) {
      CarElsewhere(s.cars[d], w, d, t, Next(c));
    }
    var now := TakeSlot(r, c, t).cars[c];
    assert Hand(now) == hand && RunList(now) == RunList(car) && Some1(now.next) == [t];
  }

  lemma NotMine(s: State, w: seq<Slot>, t: nat)
    requires Lists(s, w) && t < |w| && (t in s.monitors || t in s.poller || t in s.unused)
    ensures NoCarriers(w[t]) && !w[t].IsG0? && !w[t].Ended?
    ensures t in s.monitors ==> t !in s.poller && t !in s.unused
    ensures t in s.poller ==> t !in s.monitors && t !in s.unused
    ensures t in s.unused ==> t !in s.monitors && t !in s.poller
  {
    hide AtCar;
    assert Parked(s, w, t);
  }

  lemma KeepOutside(s: State, w: seq<Slot>, c: nat, a: Action)
    requires Lists(s, w) && |w| == |s.tasks| && Can(s, c, a) && Outside(a)
    ensures Lists(DoOutside(s, c, a), Moved(s, w, c, a))
  {
    hide Lists, CarrierFits, Push;
    match a
    case ThreadWake(t) =>
      NotMine(s, w, t);
      PushedFromOutside(s, s.(monitors := s.monitors - {t}), w, s.tasks[t].home, t);
    case PollWake(t) =>
      NotMine(s, w, t);
      PushedFromOutside(s, s.(poller := s.poller - {t}), w, s.tasks[t].home, t);
    case ThreadStart(t, to) =>
      NotMine(s, w, t);
      PushedFromOutside(s, s.(unused := s.unused - {t}), w, to, t);
  }

  lemma KeepWakes(s: State, w: seq<Slot>, c: nat, a: Action)
    requires Lists(s, w) && |w| == |s.tasks| && Can(s, c, a) && (a.Wake? || a.Deal? || a.Start?)
    ensures Lists(DoWork(s, c, a), Moved(s, w, c, a))
  {
    hide Lists, CarrierFits, Push, TakeSlot, SlotTaken;
    match a
    case Wake(t) =>
      NotMine(s, w, t);
      var r := s.(monitors := s.monitors - {t});
      if s.tasks[t].pinned || s.tasks[t].root {
        PushedFromOutside(s, r, w, s.tasks[t].home, t);
      } else {
        assert CarrierFits(s.cars[c], |w|);
        SlotTakenFromOutside(s, r, w, c, t);
      }
    case Deal(t, to) =>
      NotMine(s, w, t);
      PushedFromOutside(s, s.(monitors := s.monitors - {t}), w, to, t);
    case Start(t) =>
      NotMine(s, w, t);
      assert CarrierFits(s.cars[c], |w|);
      SlotTakenFromOutside(s, s.(unused := s.unused - {t}), w, c, t);
  }

  /** The other carriers' lists and the parked tasks after a task moves among the actor's own lists. */
  lemma OwnMove(s: State, t: State, w: seq<Slot>, c: nat, q: nat, to: Slot)
    requires Lists(s, w) && c < |s.cars| && q < |w| && Mine(w[q], c) && Mine(to, c)
    requires |t.cars| == |s.cars| && t.cars == s.cars[c := t.cars[c]] && t.cars[c].g0 == s.cars[c].g0
    requires t.monitors == s.monitors && t.poller == s.poller && t.unused == s.unused
    requires |t.tasks| == |s.tasks| && forall i :: 0 <= i < |s.tasks| ==> t.tasks[i].done == s.tasks[i].done
    requires AtCar(t.cars[c], w[q := to], c)
    ensures Lists(t, w[q := to])
  {
    hide AtCar;
    var v := w[q := to];
    CarsElsewhere(s.cars, w, q, to);
    forall i | 0 <= i < |v| ensures Parked(t, v, i) {
      assert Parked(s, w, i) && Parked(s, w, q);
    }
    Assembled(s, t, w, v, c);
  }

  lemma KeepPushOld(s: State, w: seq<Slot>, c: nat)
    requires Lists(s, w) && Can(s, c, PushOld)
    ensures Lists(DoWork(s, c, PushOld), Moved(s, w, c, PushOld))
  {
    hide At, CarrierFits;
    var car := s.cars[c];
    var t := DoWork(s, c, PushOld);
    assert AtCar(car, w, c);
    assert Hand(car)[0] == car.pc.out && Hand(car)[1..] == [];
    HeadTaken(Hand(car), w, Queue(c), InHand(c));
    Joined(car.rq, w, car.pc.out, Queue(c));
    CarElsewhere(car, w, c, car.pc.out, Queue(c));
    assert AtCar(t.cars[c], w[car.pc.out := Queue(c)], c);
    OwnMove(s, t, w, c, car.pc.out, Queue(c));
  }

  lemma KeepYield(s: State, w: seq<Slot>, c: nat)
    requires Lists(s, w) && Can(s, c, Yield)
    ensures Lists(DoWork(s, c, Yield), Moved(s, w, c, Yield))
  {
    hide At, CarrierFits;
    var car := s.cars[c];
    var t := DoWork(s, c, Yield);
    assert AtCar(car, w, c);
    assert RunList(car)[0] == car.cur && RunList(car)[1..] == [];
    HeadTaken(RunList(car), w, Queue(c), Running(c));
    Joined(car.rq, w, car.cur, Queue(c));
    CarElsewhere(car, w, c, car.cur, Queue(c));
    assert AtCar(t.cars[c], w[car.cur := Queue(c)], c);
    OwnMove(s, t, w, c, car.cur, Queue(c));
  }

  /** The running task goes where no carrier is. */
  lemma Gone(s: State, t: State, w: seq<Slot>, v: seq<Slot>, c: nat, to: Slot)
    requires Lists(s, w) && c < |s.cars| && s.cars[c].pc.Run? && NoCarriers(to) && !to.IsG0?
    requires |t.cars| == |s.cars| && t.cars == s.cars[c := t.cars[c]]
    requires t.cars[c] == s.cars[c].(pc := t.cars[c].pc) && (t.cars[c].pc.Parting? || t.cars[c].pc.LookNext?)
    requires |t.tasks| == |s.tasks| && s.cars[c].cur < |w| && v == w[s.cars[c].cur := to]
    requires forall q :: 0 <= q < |v| ==> Parked(t, v, q)
    ensures Lists(t, v)
  {
    hide At, Parked;
    var car := s.cars[c];
    assert AtCar(car, w, c);
    assert RunList(car)[0] == car.cur && RunList(car)[1..] == [];
    HeadTaken(RunList(car), w, to, Running(c));
    CarElsewhere(car, w, c, car.cur, to);
    CarsElsewhere(s.cars, w, car.cur, to);
    Assembled(s, t, w, v, c);
  }

  lemma RunnerPlace(s: State, w: seq<Slot>, c: nat)
    requires Lists(s, w) && c < |s.cars| && s.cars[c].pc.Run?
    ensures s.cars[c].cur < |w| && w[s.cars[c].cur] == Running(c)
  {
    assert AtCar(s.cars[c], w, c);
    assert RunList(s.cars[c])[0] == s.cars[c].cur;
  }

  lemma KeepPark(s: State, w: seq<Slot>, c: nat, a: Action)
    requires Lists(s, w) && Can(s, c, a) && (a.Park? || a.End?)
    ensures Lists(DoWork(s, c, a), Moved(s, w, c, a))
  {
    RunnerPlace(s, w, c);
    hide AtCar, CarrierFits;
    var t, v := DoWork(s, c, a), Moved(s, w, c, a);
    var cur := s.cars[c].cur;
    forall q | 0 <= q < |v| ensures Parked(t, v, q) {
      assert Parked(s, w, q) && Parked(s, w, cur);
    }
    Gone(s, t, w, v, c, v[cur]);
  }

  lemma KeepStillWork(s: State, w: seq<Slot>, c: nat, a: Action)
    requires Lists(s, w) && Can(s, c, a) && (a.Lock? || a.Unlock? || a.Part?)
    ensures Lists(DoWork(s, c, a), Moved(s, w, c, a))
  {
    hide At, CarrierFits;
    var t := DoWork(s, c, a);
    assert AtCar(s.cars[c], w, c);
    assert AtCar(t.cars[c], w, c);
    forall q | 0 <= q < |w| ensures Parked(t, w, q) {
      assert Parked(s, w, q);
    }
    Assembled(s, t, w, w, c);
  }

  lemma KeepWork(s: State, w: seq<Slot>, c: nat, a: Action)
    requires Lists(s, w) && |w| == |s.tasks| && Can(s, c, a) && Works(a)
    ensures Lists(DoWork(s, c, a), Moved(s, w, c, a))
  {
    hide Lists, DoWork, Moved, Can;
    if a.Wake? || a.Deal? || a.Start? {
      KeepWakes(s, w, c, a);
    } else if a.PushOld? {
      KeepPushOld(s, w, c);
    } else if a.Yield? {
      KeepYield(s, w, c);
    } else if a.Park? || a.End? {
      KeepPark(s, w, c, a);
    } else {
      KeepStillWork(s, w, c, a);
    }
  }

  lemma KeepTakeNext(s: State, w: seq<Slot>, c: nat)
    requires Lists(s, w) && Can(s, c, TakeNext)
    ensures Lists(DoLook(s, c, TakeNext), Moved(s, w, c, TakeNext))
  {
    hide At, CarrierFits;
    var car := s.cars[c];
    var t := DoLook(s, c, TakeNext);
    assert AtCar(car, w, c);
    if car.next.None? {
      StillThere(s, t, w, c);
    } else {
      var n := car.next.value;
      assert Some1(car.next)[0] == n && Some1(car.next)[1..] == [];
      HeadTaken(Some1(car.next), w, InHand(c), Next(c));
      Joined([], w, n, InHand(c));
      assert [] + [n] == [n];
      CarElsewhere(car, w, c, n, InHand(c));
      OwnMove(s, t, w, c, n, InHand(c));
    }
  }

  /** Nobody moves: the actor's lists are what they were. */
  lemma StillThere(s: State, t: State, w: seq<Slot>, c: nat)
    requires Lists(s, w) && |t.cars| == |s.cars| && c < |s.cars| && t == s.(cars := s.cars[c := t.cars[c]])
    requires t.cars[c] == s.cars[c].(pc := t.cars[c].pc)
    requires Hand(t.cars[c]) == Hand(s.cars[c]) && Loot(t.cars[c]) == Loot(s.cars[c])
             && RunList(t.cars[c]) == RunList(s.cars[c])
    ensures Lists(t, w)
  {
    hide At;
    assert AtCar(s.cars[c], w, c);
    forall q | 0 <= q < |w| ensures Parked(t, w, q) {
      assert Parked(s, w, q);
    }
    Assembled(s, t, w, w, c);
  }

  lemma KeepTakeQueue(s: State, w: seq<Slot>, c: nat, a: Action)
    requires Lists(s, w) && Can(s, c, a) && (a.TakeQueue? || a.TakeLast?)
    ensures Lists(DoLook(s, c, a), Moved(s, w, c, a))
  {
    hide At, CarrierFits;
    var car := s.cars[c];
    var t := DoLook(s, c, a);
    assert AtCar(car, w, c);
    if car.rq == [] {
      StillThere(s, t, w, c);
    } else {
      var n := car.rq[0];
      HeadTaken(car.rq, w, InHand(c), Queue(c));
      Joined([], w, n, InHand(c));
      assert [] + [n] == [n];
      CarElsewhere(car, w, c, n, InHand(c));
      OwnMove(s, t, w, c, n, InHand(c));
    }
  }

  lemma KeepStillLook(s: State, w: seq<Slot>, c: nat, a: Action)
    requires Lists(s, w) && Can(s, c, a)
    requires a.GiveUp? || a.Tire? || a.GiveUpLast? || a.Sleep? || a.Rise?
    ensures Lists(DoLook(s, c, a), Moved(s, w, c, a))
  {
    hide At, CarrierFits;
    StillThere(s, DoLook(s, c, a), w, c);
  }

  lemma Bounds(s: State, c: nat)
    requires Fits(s) && c < |s.cars|
    ensures Within(s.cars[c].rq, |s.tasks|) && (s.cars[c].next.Some? ==> s.cars[c].next.value < |s.tasks|)
    ensures s.cars[c].cur < |s.tasks| && Within(Hand(s.cars[c]), |s.tasks|)
    ensures s.cars[c].left.Some? ==> s.cars[c].left.value < |s.tasks|
  {
    assert CarrierFits(s.cars[c], |s.tasks|);
  }

  lemma SlotStolen(s: State, w: seq<Slot>, u: seq<Slot>, c: nat, v: nat, n: nat)
    requires Lists(s, w) && c < |s.cars| && v < |s.cars| && c != v && n < |w|
    requires s.cars[c].pc.LookOthers? && s.cars[v].next == Some(n) && u == w[n := InHand(c)]
    ensures w[n] == Next(v)
    ensures AtCar(s.cars[c].(pc := Picked(n)), u, c) && AtCar(s.cars[v].(next := None), u, v)
    ensures forall d :: 0 <= d < |s.cars| && d != c && d != v ==> AtCar(s.cars[d], u, d)
  {
    hide At, Parked;
    assert AtCar(s.cars[c], w, c) && AtCar(s.cars[v], w, v);
    assert Some1(s.cars[v].next)[0] == n && Some1(s.cars[v].next)[1..] == [];
    HeadTaken(Some1(s.cars[v].next), w, InHand(c), Next(v));
    Joined([], w, n, InHand(c));
    assert [] + [n] == [n];
    CarElsewhere(s.cars[c], w, c, n, InHand(c));
    CarElsewhere(s.cars[v], w, v, n, InHand(c));
    CarsElsewhere(s.cars, w, n, InHand(c));
  }

  lemma StealNextIs(s: State, w: seq<Slot>, c: nat, v: nat)
    requires |w| == |s.tasks| && Can(s, c, StealNext(v))
    ensures c < |s.cars| && v < |s.cars| && c != v && s.cars[c].pc.LookOthers? && s.cars[v].next.Some?
    ensures var n := s.cars[v].next.value;
            && n < |w| && Moved(s, w, c, StealNext(v)) == w[n := InHand(c)]
            && DoLook(s, c, StealNext(v)) ==
               Homed(To(SetCar(s, v, s.cars[v].(next := None)), c, Picked(n)), n, c)
  {
    Bounds(s, v);
    hide CarrierFits;
  }

  lemma KeepStealNext(s: State, w: seq<Slot>, c: nat, v: nat)
    requires Lists(s, w) && |w| == |s.tasks| && Can(s, c, StealNext(v))
    ensures Lists(DoLook(s, c, StealNext(v)), Moved(s, w, c, StealNext(v)))
  {
    StealNextIs(s, w, c, v);
    hide Lists, CarrierFits, AtCar, Can, DoLook, Moved;
    var n := s.cars[v].next.value;
    var u := w[n := InHand(c)];
    SlotStolen(s, w, u, c, v, n);
    TwoChanged(s, Homed(To(SetCar(s, v, s.cars[v].(next := None)), c, Picked(n)), n, c), w, u, c, v);
  }

  lemma TwoChanged(s: State, t: State, w: seq<Slot>, u: seq<Slot>, c: nat, v: nat)
    requires Lists(s, w) && |u| == |w| == |t.tasks| && |t.cars| == |s.cars| && c < |s.cars| && v < |s.cars| && c != v
    requires t.cars == s.cars[v := t.cars[v]][c := t.cars[c]]
    requires t.cars[c].g0 == s.cars[c].g0 && t.cars[v].g0 == s.cars[v].g0
    requires AtCar(t.cars[c], u, c) && AtCar(t.cars[v], u, v)
    requires forall d :: 0 <= d < |s.cars| && d != c && d != v ==> AtCar(s.cars[d], u, d)
    requires t.monitors == s.monitors && t.poller == s.poller && t.unused == s.unused
    requires forall i :: 0 <= i < |w| ==> t.tasks[i].done == s.tasks[i].done
    requires forall i :: 0 <= i < |w| && u[i] != w[i] ==> Mine(w[i], v) && Mine(u[i], c)
    ensures Lists(t, u)
  {
    hide AtCar;
    forall q | 0 <= q < |u| ensures Parked(t, u, q) {
      assert Parked(s, w, q);
    }
  }

  lemma LootNone(s: State, w: seq<Slot>, c: nat)
    requires Lists(s, w) && c < |s.cars| && Loot(s.cars[c]) == []
    ensures At([], w, InLoot(c))
  {
    assert AtCar(s.cars[c], w, c);
  }

  lemma KeepStealQueue(s: State, w: seq<Slot>, c: nat, v: nat, busy: set<nat>)
    requires Lists(s, w) && Can(s, c, StealQueue(v, busy))
    ensures Lists(DoLook(s, c, StealQueue(v, busy)), Moved(s, w, c, StealQueue(v, busy)))
  {
    hide At, CarrierFits, Steal, InAll;
    var t, u := DoLook(s, c, StealQueue(v, busy)), Moved(s, w, c, StealQueue(v, busy));
    var rq := s.cars[v].rq;
    Bounds(s, v);
    var (taken, kept) := Steal(s.tasks, rq, Half(rq), busy);
    assert AtCar(s.cars[c], w, c) && AtCar(s.cars[v], w, v);
    AtDistinct(rq, w, Queue(v));
    AtWithin(rq, w, Queue(v));
    StealParts(s.tasks, rq, Half(rq), busy);
    LootNone(s, w, c);
    Split(rq, taken, kept, w, Queue(v), InLoot(c));
    forall q | q in taken ensures q < |w| && w[q] == Queue(v) {
      AtMeans(rq, w, Queue(v), q);
    }
    CarAllElsewhere(s.cars[c], w, c, taken, Queue(v), InLoot(c));
    CarAllElsewhere(s.cars[v], w, v, taken, Queue(v), InLoot(c));
    forall d | 0 <= d < |s.cars| && d != c && d != v ensures AtCar(s.cars[d], u, d) {
      CarAllElsewhere(s.cars[d], w, d, taken, Queue(v), InLoot(c));
    }
    TwoChanged(s, t, w, u, c, v);
  }

  lemma Added(rq: seq<nat>, list: seq<nat>, w: seq<Slot>, from: Slot, to: Slot)
    requires At(rq, w, to) && At(list, w, from) && from != to && list != []
    ensures At(rq + list[1..], InAll(w, list[1..], to), to)
    ensures At([list[0]], InAll(w, list[1..], to), from)
  {
    var v := InAll(w, list[1..], to);
    assert list == [list[0]] + list[1..];
    assert forall i :: 0 <= i < |rq| ==> rq[i] in rq && w[rq[i]] == to;
    assert forall i :: 0 <= i < |list| ==> list[i] in list && w[list[i]] == from;
    forall q | 0 <= q < |w| ensures q in rq + list[1..] <==> v[q] == to {
      assert q in list[1..] ==> q in list;
    }
  }

  lemma KeepPushRest(s: State, w: seq<Slot>, c: nat)
    requires Lists(s, w) && Can(s, c, PushRest)
    ensures Lists(DoLook(s, c, PushRest), Moved(s, w, c, PushRest))
  {
    hide At, CarrierFits, InAll, AllHomed;
    var car := s.cars[c];
    var chain := car.pc.chain;
    var t, u, v := DoLook(s, c, PushRest), InAll(w, chain[1..], Queue(c)), Moved(s, w, c, PushRest);
    var now := t.cars[c];
    assert AtCar(car, w, c);
    assert Loot(car) == chain;
    AtWithin(chain, w, InLoot(c));
    assert chain != [];
    RestShared(car, w, u, v, c, chain);
    forall d | 0 <= d < |s.cars| && d != c ensures AtCar(s.cars[d], v, d) {
      RestElsewhere(s.cars[d], w, u, v, c, chain, d);
    }
    forall q | 0 <= q < |v| ensures Parked(t, v, q) {
      assert Parked(s, w, q);
      AtMeans(chain, w, InLoot(c), q);
      InChain(chain, q);
    }
    forall d | 0 <= d < |s.cars| ensures v[s.cars[d].g0] == IsG0 {
      AtMeans(chain, w, InLoot(c), s.cars[d].g0);
      InChain(chain, s.cars[d].g0);
    }
    Assembled(s, t, w, v, c);
  }

  lemma InChain(chain: seq<nat>, q: nat)
    requires chain != []
    ensures q in chain <==> q == chain[0] || q in chain[1..]
  {
    assert chain == [chain[0]] + chain[1..];
  }

  lemma RestShared(car: Carrier, w: seq<Slot>, u: seq<Slot>, v: seq<Slot>, c: nat, chain: seq<nat>)
    requires AtCar(car, w, c) && car.pc == Stolen(chain) && chain != [] && chain[0] < |w|
    requires u == InAll(w, chain[1..], Queue(c)) && v == u[chain[0] := InHand(c)]
    ensures AtCar(car.(rq := car.rq + chain[1..], pc := Picked(chain[0])), v, c)
  {
    hide At, InAll;
    var now := car.(rq := car.rq + chain[1..], pc := Picked(chain[0]));
    var mid := car.(rq := car.rq + chain[1..], pc := Stolen([chain[0]]));
    AtWithin(chain, w, InLoot(c));
    forall q | q in chain[1..] ensures q < |w| && w[q] == InLoot(c) {
      InChain(chain, q);
      AtMeans(chain, w, InLoot(c), q);
    }
    Added(car.rq, chain, w, InLoot(c), Queue(c));
    CarAllElsewhere(car, w, c, chain[1..], InLoot(c), Queue(c));
    assert AtCar(mid, u, c);
    assert [chain[0]][0] == chain[0] && [chain[0]][1..] == [];
    HeadTaken([chain[0]], u, InHand(c), InLoot(c));
    Joined([], u, chain[0], InHand(c));
    assert [] + [chain[0]] == [chain[0]];
    CarElsewhere(mid, u, c, chain[0], InHand(c));
  }

  lemma RestElsewhere(car: Carrier, w: seq<Slot>, u: seq<Slot>, v: seq<Slot>, c: nat, chain: seq<nat>, d: nat)
    requires AtCar(car, w, d) && d != c && At(chain, w, InLoot(c)) && chain != [] && chain[0] < |w|
    requires u == InAll(w, chain[1..], Queue(c)) && v == u[chain[0] := InHand(c)]
    ensures AtCar(car, v, d)
  {
    hide At, InAll;
    AtWithin(chain, w, InLoot(c));
    forall q | q in chain[1..] ensures q < |w| && w[q] == InLoot(c) {
      InChain(chain, q);
      AtMeans(chain, w, InLoot(c), q);
    }
    CarAllElsewhere(car, w, d, chain[1..], InLoot(c), Queue(c));
    InChain(chain, chain[0]);
    AtMeans(chain, w, InLoot(c), chain[0]);
    FirstStays(chain, w, u, c);
    CarElsewhere(car, u, d, chain[0], InHand(c));
  }

  lemma FirstStays(chain: seq<nat>, w: seq<Slot>, u: seq<Slot>, c: nat)
    requires At(chain, w, InLoot(c)) && chain != [] && chain[0] < |w| && u == InAll(w, chain[1..], Queue(c))
    ensures u[chain[0]] == InLoot(c)
  {
    assert forall i :: 0 <= i < |chain[1..]| ==> chain[1..][i] == chain[i + 1];
    assert chain[0] in chain;
  }

  lemma KeepLook(s: State, w: seq<Slot>, c: nat, a: Action)
    requires Lists(s, w) && |w| == |s.tasks| && Can(s, c, a) && Looks(a)
    ensures Lists(DoLook(s, c, a), Moved(s, w, c, a))
  {
    hide Lists, DoLook, Moved, Can;
    match a
    case TakeNext => KeepTakeNext(s, w, c);
    case StealNext(v) => KeepStealNext(s, w, c, v);
    case StealQueue(v, busy) => KeepStealQueue(s, w, c, v, busy);
    case PushRest => KeepPushRest(s, w, c);
    case _ =>
      if a.TakeQueue? || a.TakeLast? {
        KeepTakeQueue(s, w, c, a);
      } else {
        KeepStillLook(s, w, c, a);
      }
  }

  lemma GivenBack(s: State, w: seq<Slot>, c: nat)
    requires Lists(s, w) && c < |s.cars| && s.cars[c].pc.Picked? && s.cars[c].next.None? && s.cars[c].pc.n < |w|
    ensures Lists(SetCar(s, c, s.cars[c].(next := Some(s.cars[c].pc.n), pc := Going(s.cars[c].g0))),
            w[s.cars[c].pc.n := Next(c)])
  {
    hide At;
    var car := s.cars[c];
    var n := car.pc.n;
    var now := car.(next := Some(n), pc := Going(car.g0));
    assert AtCar(car, w, c);
    assert Hand(car)[0] == n && Hand(car)[1..] == [];
    HeadTaken(Hand(car), w, Next(c), InHand(c));
    Joined([], w, n, Next(c));
    assert [] + [n] == [n];
    CarElsewhere(car, w, c, n, Next(c));
    assert AtCar(now, w[n := Next(c)], c);
    OwnMove(s, SetCar(s, c, now), w, c, n, Next(c));
  }

  lemma PickedIsNoG0(s: State, w: seq<Slot>, c: nat)
    requires Lists(s, w) && c < |s.cars| && s.cars[c].pc.Picked?
    ensures s.cars[c].pc.n < |w| && w[s.cars[c].pc.n] == InHand(c) && s.cars[c].pc.n != s.cars[c].g0
  {
    assert AtCar(s.cars[c], w, c);
    assert Hand(s.cars[c])[0] == s.cars[c].pc.n;
  }

  lemma KeepDecide(s: State, w: seq<Slot>, c: nat)
    requires Lists(s, w) && Can(s, c, Decide) && Sane(s.cars[c])
    ensures Lists(DoSwitch(s, c, Decide), Moved(s, w, c, Decide))
  {
    PickedIsNoG0(s, w, c);
    hide Lists, CarrierFits;
    var car := s.cars[c];
    if car.pc.n != car.cur && car.cur != car.g0 && s.tasks[car.pc.n].onstack {
      GivenBack(s, w, c);
    } else {
      StillThere(s, DoSwitch(s, c, Decide), w, c);
    }
  }

  lemma KeepGo(s: State, w: seq<Slot>, c: nat)
    requires Lists(s, w) && Can(s, c, Go) && Sane(s.cars[c])
    ensures Lists(DoSwitch(s, c, Go), Moved(s, w, c, Go))
  {
    hide At, CarrierFits;
    var car := s.cars[c];
    var t := DoSwitch(s, c, Go);
    var n := car.pc.n;
    assert AtCar(car, w, c);
    if n == car.g0 {
      assert AtCar(t.cars[c], w, c);
      forall q | 0 <= q < |w| ensures Parked(t, w, q) {
        assert Parked(s, w, q);
      }
      Assembled(s, t, w, w, c);
    } else {
      assert Hand(car)[0] == n && Hand(car)[1..] == [];
      HeadTaken(Hand(car), w, Running(c), InHand(c));
      Joined([], w, n, Running(c));
      assert [] + [n] == [n];
      CarElsewhere(car, w, c, n, Running(c));
      assert AtCar(t.cars[c], w[n := Running(c)], c);
      OwnMove(s, t, w, c, n, Running(c));
    }
  }

  lemma KeepFinish(s: State, w: seq<Slot>, c: nat)
    requires Lists(s, w) && Can(s, c, Finish)
    ensures Lists(DoSwitch(s, c, Finish), Moved(s, w, c, Finish))
  {
    hide At, CarrierFits;
    var t := DoSwitch(s, c, Finish);
    assert AtCar(s.cars[c], w, c);
    assert AtCar(t.cars[c], w, c);
    forall q | 0 <= q < |w| ensures Parked(t, w, q) {
      assert Parked(s, w, q);
    }
    Assembled(s, t, w, w, c);
  }

  lemma KeepLists(s: State, w: seq<Slot>, c: nat, a: Action)
    requires Lists(s, w) && |w| == |s.tasks| && AllSane(s) && Can(s, c, a)
    ensures Lists(Do(s, c, a), Moved(s, w, c, a))
  {
    hide Lists, DoWork, DoLook, DoSwitch, DoOutside, Moved, Sane;
    if Works(a) {
      KeepWork(s, w, c, a);
    } else if Looks(a) {
      KeepLook(s, w, c, a);
    } else if a.Decide? {
      KeepDecide(s, w, c);
    } else if a.PushBack? {
      NeverPutBack(s, c);
    } else if a.Go? {
      KeepGo(s, w, c);
    } else if a.Finish? {
      KeepFinish(s, w, c);
    } else {
      KeepOutside(s, w, c, a);
    }
  }

  /** A carrier that gives a picked task back finds its slot empty: it displaces nobody. */
  lemma NeverPutBack(s: State, c: nat)
    requires AllSane(s) && c < |s.cars|
    ensures !s.cars[c].pc.PutBack?
  {}
}
