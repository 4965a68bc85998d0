/**
 * Where each task is. A live task is in exactly one place: it runs, or it is in one run queue, one
 * slot, one carrier's hands, a monitor's queues or the poller.
 */
module SchedulerPlaces {
  import opened Wrappers
  import opened Queues
  import opened Scheduler

  datatype Slot =
    | Unused | Running(c: nat) | Queue(c: nat) | Next(c: nat) | InHand(c: nat) | InLoot(c: nat)
    | InMonitor | InPoller | Ended | IsG0

  /** The task whose own code a carrier runs, or is about to run again. */
  function RunList(car: Carrier): seq<nat> {
    if car.pc.Run? || (car.pc.Displaced? && !car.pc.parting) || (car.pc.After? && car.cur != car.g0)
    then [car.cur] else []
  }

  predicate AtCar(car: Carrier, w: seq<Slot>, c: nat) {
    && At(car.rq, w, Queue(c)) && At(Some1(car.next), w, Next(c))
    && At(Hand(car), w, InHand(c)) && At(Loot(car), w, InLoot(c)) && At(RunList(car), w, Running(c))
  }

  predicate Parked(s: State, w: seq<Slot>, t: nat)
    requires t < |w| == |s.tasks|
  {
    && (t in s.monitors <==> w[t] == InMonitor) && (t in s.poller <==> w[t] == InPoller)
    && (t in s.unused <==> w[t] == Unused) && (s.tasks[t].done <==> w[t] == Ended)
  }

  /** Every queue, slot and hand, and every set of parked tasks, agrees with the places. */
  predicate Lists(s: State, w: seq<Slot>) {
    && |w| == |s.tasks|
    && (forall c :: 0 <= c < |s.cars| ==> AtCar(s.cars[c], w, c))
    && (forall t :: 0 <= t < |w| ==> Parked(s, w, t))
    && (forall c :: 0 <= c < |s.cars| ==> s.cars[c].g0 < |w| && w[s.cars[c].g0] == IsG0)
  }

  function InAll(w: seq<Slot>, ts: seq<nat>, to: Slot): (v: seq<Slot>)
    ensures |v| == |w| && forall i :: 0 <= i < |w| ==> v[i] == if i in ts then to else w[i]
  {
    seq(|w|, i requires 0 <= i < |w| => if i in ts then to else w[i])
  }

  // One task moves: a carrier it neither leaves nor joins keeps its lists.

  predicate Mine(at: Slot, c: nat) {
    at == Running(c) || at == Queue(c) || at == Next(c) || at == InHand(c) || at == InLoot(c)
  }

  lemma CarElsewhere(car: Carrier, w: seq<Slot>, c: nat, t: nat, to: Slot)
    requires AtCar(car, w, c) && t < |w|
    ensures w[t] != Queue(c) && to != Queue(c) ==> At(car.rq, w[t := to], Queue(c))
    ensures w[t] != Next(c) && to != Next(c) ==> At(Some1(car.next), w[t := to], Next(c))
    ensures w[t] != InHand(c) && to != InHand(c) ==> At(Hand(car), w[t := to], InHand(c))
    ensures w[t] != InLoot(c) && to != InLoot(c) ==> At(Loot(car), w[t := to], InLoot(c))
    ensures w[t] != Running(c) && to != Running(c) ==> At(RunList(car), w[t := to], Running(c))
  {
    hide At;
    if w[t] != Queue(c) && to != Queue(c) {
      Elsewhere(car.rq, w, t, to, Queue(c));
    }
    if w[t] != Next(c) && to != Next(c) {
      Elsewhere(Some1(car.next), w, t, to, Next(c));
    }
    if w[t] != InHand(c) && to != InHand(c) {
      Elsewhere(Hand(car), w, t, to, InHand(c));
    }
    if w[t] != InLoot(c) && to != InLoot(c) {
      Elsewhere(Loot(car), w, t, to, InLoot(c));
    }
    if w[t] != Running(c) && to != Running(c) {
      Elsewhere(RunList(car), w, t, to, Running(c));
    }
  }

  lemma CarsElsewhere(cars: seq<Carrier>, w: seq<Slot>, t: nat, to: Slot)
    requires t < |w| && forall c :: 0 <= c < |cars| ==> AtCar(cars[c], w, c)
    ensures forall c :: 0 <= c < |cars| && !Mine(w[t], c) && !Mine(to, c) ==> AtCar(cars[c], w[t := to], c)
  {
    hide At;
    forall c | 0 <= c < |cars| && !Mine(w[t], c) && !Mine(to, c) ensures AtCar(cars[c], w[t := to], c) {
      CarElsewhere(cars[c], w, c, t, to);
    }
  }

  /** A task joins a run queue from a place that is no list of that carrier. */
  lemma QueueJoined(car: Carrier, w: seq<Slot>, c: nat, t: nat)
    requires AtCar(car, w, c) && t < |w| && !Mine(w[t], c)
    ensures AtCar(Queued(car, [t]), w[t := Queue(c)], c)
  {
    hide At;
    Joined(car.rq, w, t, Queue(c));
    CarElsewhere(car, w, c, t, Queue(c));
    assert Hand(Queued(car, [t])) == Hand(car) && Loot(Queued(car, [t])) == Loot(car)
           && RunList(Queued(car, [t])) == RunList(car);
  }

  // What a thief takes and what it leaves are the queue it found.

  lemma {:induction false} StealParts(tasks: seq<Task>, rq: seq<nat>, want: nat, busy: set<nat>)
    requires Within(rq, |tasks|) && Distinct(rq)
    ensures var (taken, kept) := Steal(tasks, rq, want, busy);
            && Distinct(taken) && Distinct(kept)
            && (forall t :: t in rq <==> t in taken || t in kept)
            && (forall t :: t in taken ==> t !in kept)
            && (forall t :: t in taken ==> t < |tasks| && !tasks[t].root && !tasks[t].pinned && t !in busy)
    decreases rq
  {
    if rq != [] && want != 0 {
      var t := rq[0];
      assert rq == [t] + rq[1..];
      var stay := tasks[t].root || tasks[t].pinned || t in busy;
      StealParts(tasks, rq[1..], if stay then want else want - 1, busy);
      assert t !in rq[1..];
    }
  }

  lemma Split(rq: seq<nat>, taken: seq<nat>, kept: seq<nat>, w: seq<Slot>, from: Slot, to: Slot)
    requires At(rq, w, from) && At([], w, to) && from != to && Distinct(taken) && Distinct(kept)
    requires forall t :: t in rq <==> t in taken || t in kept
    requires forall t :: t in taken ==> t !in kept
    ensures At(kept, InAll(w, taken, to), from) && At(taken, InAll(w, taken, to), to)
  {
    forall i | 0 <= i < |kept| ensures kept[i] < |w| {
      assert kept[i] in kept && kept[i] in rq;
    }
    forall i | 0 <= i < |taken| ensures taken[i] < |w| {
      assert taken[i] in taken && taken[i] in rq;
    }
  }

  lemma AllElsewhere(list: seq<nat>, w: seq<Slot>, ts: seq<nat>, from: Slot, to: Slot, at: Slot)
    requires At(list, w, at) && at != from && at != to
    requires forall t :: t in ts ==> t < |w| && w[t] == from
    ensures At(list, InAll(w, ts, to), at)
  {}

  lemma CarAllElsewhere(car: Carrier, w: seq<Slot>, c: nat, ts: seq<nat>, from: Slot, to: Slot)
    requires AtCar(car, w, c) && from != to
    requires forall t :: t in ts ==> t < |w| && w[t] == from
    ensures from != Queue(c) && to != Queue(c) ==> At(car.rq, InAll(w, ts, to), Queue(c))
    ensures from != Next(c) && to != Next(c) ==> At(Some1(car.next), InAll(w, ts, to), Next(c))
    ensures from != InHand(c) && to != InHand(c) ==> At(Hand(car), InAll(w, ts, to), InHand(c))
    ensures from != InLoot(c) && to != InLoot(c) ==> At(Loot(car), InAll(w, ts, to), InLoot(c))
    ensures from != Running(c) && to != Running(c) ==> At(RunList(car), InAll(w, ts, to), Running(c))
  {
    hide At, InAll;
    if from != Queue(c) && to != Queue(c) {
      AllElsewhere(car.rq, w, ts, from, to, Queue(c));
    }
    if from != Next(c) && to != Next(c) {
      AllElsewhere(Some1(car.next), w, ts, from, to, Next(c));
    }
    if from != InHand(c) && to != InHand(c) {
      AllElsewhere(Hand(car), w, ts, from, to, InHand(c));
    }
    if from != InLoot(c) && to != InLoot(c) {
      AllElsewhere(Loot(car), w, ts, from, to, InLoot(c));
    }
    if from != Running(c) && to != Running(c) {
      AllElsewhere(RunList(car), w, ts, from, to, Running(c));
    }
  }

  /** The places after an action. */
  function Moved(s: State, w: seq<Slot>, c: nat, a: Action): (v: seq<Slot>)
    requires Can(s, c, a) && |w| == |s.tasks|
    ensures |v| == |w|
  {
    var car := s.cars[c];
    assert CarrierFits(car, |w|);
    match a
    case Wake(t) =>
      if s.tasks[t].pinned || s.tasks[t].root then w[t := Queue(s.tasks[t].home)] else SlotTaken(car, w, c, t)
    case PushOld => assert car.pc.out == Hand(car)[0]; w[car.pc.out := Queue(c)]
    case Deal(t, to) => w[t := Queue(to)]
    case Start(t) => SlotTaken(car, w, c, t)
    case Park(poll, release) => w[car.cur := if poll then InPoller else InMonitor]
    case Yield => w[car.cur := Queue(c)]
    case End => w[car.cur := Ended]
    case TakeNext => if car.next.Some? then w[car.next.value := InHand(c)] else w
    case TakeQueue => if car.rq != [] then w[car.rq[0] := InHand(c)] else w
    case TakeLast => if car.rq != [] then w[car.rq[0] := InHand(c)] else w
    case StealNext(v) => assert CarrierFits(s.cars[v], |w|); w[s.cars[v].next.value := InHand(c)]
    case StealQueue(v, busy) => InAll(w, Steal(s.tasks, s.cars[v].rq, Half(s.cars[v].rq), busy).0, InLoot(c))
    case PushRest => assert car.pc.chain[0] == Loot(car)[0];
        InAll(w, car.pc.chain[1..], Queue(c))[car.pc.chain[0] := InHand(c)]
    case Decide =>
      assert car.pc.n == Hand(car)[0];
      if car.pc.n != car.cur && car.cur != car.g0 && s.tasks[car.pc.n].onstack
      then SlotTaken(car, w, c, car.pc.n) else w
    case PushBack => assert car.pc.out == Hand(car)[0]; w[car.pc.out := Queue(c)]
    case Go => if car.pc.n == car.g0 then w else w[car.pc.n := Running(c)]
    case ThreadWake(t) => w[t := Queue(s.tasks[t].home)]
    case PollWake(t) => w[t := Queue(s.tasks[t].home)]
    case ThreadStart(t, to) => w[t := Queue(to)]
    case _ => w
  }

  /** t takes a carrier's slot; what was there is in the carrier's hands. */
  function SlotTaken(car: Carrier, w: seq<Slot>, c: nat, t: nat): (v: seq<Slot>)
    requires t < |w| && CarrierFits(car, |w|)
    ensures |v| == |w|
  {
    if car.next.Some? then w[car.next.value := InHand(c)][t := Next(c)] else w[t := Next(c)]
  }
}
