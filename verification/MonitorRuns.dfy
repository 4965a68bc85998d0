/** The monitor over whole runs: what its users may rely on in every state a run can reach. */
module MonitorRuns {
  import opened Wrappers
  import opened Monitor
  import opened MonitorPlaces
  import opened Queues
  import opened MonitorProof
  import opened MonitorSafety

  ghost predicate Invariant(s: State) {
    exists w :: Good(s, w)
  }

  lemma FreshIsGood(s: State)
    requires Fresh(s)
    ensures Good(s, seq(|s.pc|, _ => Free))
  {
    var w := seq(|s.pc|, _ => Free);
    forall r | 0 <= r < |s.pc| ensures AtHands(s.pc[r], w, r) {
      assert s.pc[r].Out?;
    }
    FreshAllows(s, w);
  }

  lemma FreshAllows(s: State, w: seq<Place>)
    requires Fresh(s) && |w| == |s.pc| && forall q :: 0 <= q < |w| ==> w[q].Free?
    ensures Allows(s, w) && Owner(s) && Tail(s) && Counts(s, w)
  {
    hide Ranges;
  }

  /** Every state a run reaches from a fresh monitor keeps the invariant. */
  lemma {:induction false} RunsKeep(s: State, events: seq<(nat, Action)>, t: State)
    requires Invariant(s) && Runs(s, events, t)
    ensures Invariant(t)
    decreases |events|
  {
    if events != [] {
      var (p, a) := events[0];
      var w: seq<Place> :| Good(s, w);
      KeepGood(s, w, p, a);
      RunsKeep(Do(s, p, a), events[1..], t);
    }
  }

  ghost predicate Reachable(t: State) {
    exists s, events :: Fresh(s) && Runs(s, events, t)
  }

  lemma ReachableIsGood(t: State)
    requires Reachable(t)
    ensures Invariant(t)
  {
    var s, events :| Fresh(s) && Runs(s, events, t);
    FreshIsGood(s);
    RunsKeep(s, events, t);
  }

  /** Never two processes inside, and the spin lock excludes too. */
  lemma Exclusion(s: State, p: nat, q: nat)
    requires Reachable(s) && p < |s.pc| && q < |s.pc|
    ensures HoldsMutex(s.pc[p]) && HoldsMutex(s.pc[q]) ==> p == q
    ensures HoldsSpin(s.pc[p]) && HoldsSpin(s.pc[q]) ==> p == q
  {
    ReachableIsGood(s);
  }

  /** No lost entrant. */
  lemma EntrantNotLost(s: State)
    requires Reachable(s) && s.tq != []
    ensures |s.kind| == |s.pc| && (s.mutex.Some? || exists r :: 0 <= r < |s.pc| && Attends(s, r))
  {
    ReachableIsGood(s);
  }

  /** The entrant whose second try wins is still the tail: it takes itself off and nobody else. */
  lemma WinnerIsTail(s: State, p: nat)
    requires Reachable(s) && p < |s.pc| && s.pc[p].Won?
    ensures s.tq != [] && s.tq[|s.tq| - 1] == p && Before(s.tq, p) == s.tq[..|s.tq| - 1]
  {
    ReachableIsGood(s);
    var w: seq<Place> :| Good(s, w);
    AtDistinct(s.tq, w, InTq);
    BeforeTail(s.tq);
  }

  /** What the invariant says of one process. */
  lemma PlaceOf(s: State, q: nat) returns (w: seq<Place>)
    requires Reachable(s) && q < |s.pc|
    ensures Good(s, w)
    ensures Sizes(s) && |w| == |s.pc| && Consistent(s, w)
    ensures Allowed(s.kind[q], s.pc[q], w[q], |w|) && (q in s.ready <==> w[q] == IsReady)
    ensures s.parks[q] == s.wakes[q] + Due(s.pc[q], w[q])
  {
    hide Lists, Owner, Tail, PendHeld, NoneLost, Reachable;
    ReachableIsGood(s);
    w :| Good(s, w);
    ReadyPlace(s, w, q);
  }

  /** All the places a process is found in. */
  function Whereabouts(s: State, q: nat): set<Place> {
    (if q in s.tq then {InTq} else {}) + (if q in s.wq then {InWq} else {}) +
    (if q in s.pend then {InPend} else {}) + (if q in s.ready then {IsReady} else {}) +
    (set r | 0 <= r < |s.pc| && q in Handed(s.pc[r]) :: InHand(r)) +
    (set r | 0 <= r < |s.pc| && q in Signalled(s.pc[r]) :: InSignal(r)) +
    (set r | 0 <= r < |s.pc| && q in Carried(s.pc[r]) :: InLeave(r))
  }

  /** A process in a queue, or parked: it has joined tq and not left it again, or waits to be woken. */
  predicate Waits(pc: Pc) {
    pc.Queued? || pc.Refused? || pc.Won? || pc.Parked? || InWait(pc)
  }

  /** A process that is in tq, or parked to enter or in WAIT, is in exactly one place; any other is in none. */
  lemma ExactlyOnePlace(s: State, q: nat)
    requires Reachable(s) && q < |s.pc|
    ensures Waits(s.pc[q]) ==> exists at :: Whereabouts(s, q) == {at}
    ensures !Waits(s.pc[q]) ==> Whereabouts(s, q) == {}
  {
    hide Reachable, Good, Consistent, Whereabouts;
    var w := PlaceOf(s, q);
    PlaceIsWhereabouts(s, w, q);
  }

  lemma PlaceIsWhereabouts(s: State, w: seq<Place>, q: nat)
    requires Consistent(s, w) && q < |w|
    ensures Whereabouts(s, q) == if w[q].Free? then {} else {w[q]}
  {
    hide Ranges, Handed, Signalled, Carried, AtHands;
    forall r | 0 <= r < |s.pc|
      ensures q in Handed(s.pc[r]) <==> w[q] == InHand(r)
      ensures q in Signalled(s.pc[r]) <==> w[q] == InSignal(r)
      ensures q in Carried(s.pc[r]) <==> w[q] == InLeave(r)
    {
      AtHandsOf(s.pc[r], w, r, q);
    }
    assert Allowed(s.kind[q], s.pc[q], w[q], |w|);
  }

  lemma AtHandsOf(pc: Pc, w: seq<Place>, r: nat, q: nat)
    requires AtHands(pc, w, r) && q < |w|
    ensures q in Handed(pc) <==> w[q] == InHand(r)
    ensures q in Signalled(pc) <==> w[q] == InSignal(r)
    ensures q in Carried(pc) <==> w[q] == InLeave(r)
  {}

  /** Every parking is followed by one wake, never two: the counts differ by one while it is due. */
  lemma WokenOnce(s: State, q: nat)
    requires Reachable(s) && q < |s.pc|
    ensures |s.parks| == |s.wakes| == |s.pc|
    ensures s.parks[q] == s.wakes[q] +
            (if (s.pc[q].Parked? || InWait(s.pc[q])) && q !in s.ready then 1 else 0)
  {
    hide Reachable, Good, Consistent;
    var w := PlaceOf(s, q);
  }

  /** Nobody runs at the monitor and nobody will: each process is out, or parked and not woken. */
  predicate Still(s: State) {
    s.mutex.None? &&
    forall r :: 0 <= r < |s.pc| ==> s.pc[r].Out? || ((s.pc[r].Parked? || s.pc[r].Asleep?) && r !in s.ready)
  }

  /** When all is still, no entrant is left behind, and every sleeper waits for a SIGNAL. */
  lemma StillMeansOnlyWaiters(s: State, q: nat)
    requires Reachable(s) && Still(s) && q < |s.pc|
    ensures s.tq == [] && s.pend == [] && !s.pc[q].Parked?
    ensures s.pc[q].Asleep? <==> q in s.wq
  {
    hide Reachable, Good, Consistent, Attends;
    var w := PlaceOf(s, q);
    assert s.tq == [] && s.pend == [] by { StillIsEmpty(s, w); }
    QueuePlaces(s, w, q);
    if w[q].InHand? || w[q].InSignal? || w[q].InLeave? {
      HandsEmpty(s, w, q);
    }
  }

  lemma StillIsEmpty(s: State, w: seq<Place>)
    requires Good(s, w) && Still(s)
    ensures s.tq == [] && s.pend == []
  {
    hide Lists, Allows, Owner, Tail, Counts;
  }

  lemma QueuePlaces(s: State, w: seq<Place>, q: nat)
    requires Consistent(s, w) && q < |w|
    ensures (q in s.tq <==> w[q] == InTq) && (q in s.wq <==> w[q] == InWq) && (q in s.pend <==> w[q] == InPend)
  {}

  lemma HandsEmpty(s: State, w: seq<Place>, q: nat)
    requires Consistent(s, w) && q < |w| && Still(s)
    ensures !w[q].InHand? && !w[q].InSignal? && !w[q].InLeave?
  {
    if w[q].InHand? || w[q].InSignal? || w[q].InLeave? {
      AtHandsOf(s.pc[w[q].r], w, w[q].r, q);
    }
  }

  // A SIGNAL reaches every waiter.

  /** q's wake is in p's hands, or has come: it has been woken at least k times. */
  predicate Owed(s: State, w: seq<Place>, p: nat, q: nat, k: nat)
    requires Sizes(s) && |w| == |s.pc| && p < |w| && q < |w|
  {
    || s.wakes[q] >= k
    || (s.wakes[q] + 1 >= k &&
        (w[q] == InSignal(p) || w[q] == InLeave(p) || (w[q] == InPend && s.mutex == Some(p))))
  }

  lemma PendPlace(s: State, w: seq<Place>, q: nat)
    requires Consistent(s, w) && q < |w|
    ensures q in s.pend <==> w[q] == InPend
  {}

  /** Who leaves the mutex: only the holder, and only by an unlock. */
  lemma MutexLet(s: State, p: nat, a: Action)
    requires Owner(s) && Can(s, p, a)
    ensures s.mutex.Some? && Do(s, p, a).mutex != s.mutex ==> s.mutex == Some(p) && s.pc[p].Leaving?
    ensures a.Leave? || a.Wait? || a.SignalOne? ==> s.mutex == Some(p) && Do(s, p, a).mutex == s.mutex
  {
    hide Ranges, Listed;
  }

  lemma PendMeans(s: State, w: seq<Place>)
    requires Good(s, w) && s.mutex.Some? && s.pc[s.mutex.value].Leaving?
    ensures s.pend == []
  {}

  lemma KeepOwed(s: State, w: seq<Place>, p: nat, q: nat, k: nat, r: nat, a: Action)
    requires Good(s, w) && Can(s, r, a) && p < |w| == |s.pc| && q < |w|
    requires Owed(s, w, p, q, k)
    ensures Owed(Do(s, r, a), Moved(s, w, r, a), p, q, k)
  {
    hide Lists, Allows, Tail, NoneLost, Counts, Owner, Do, Moved, Can, Woke;
    Traveller(s, w, r, a, q);
    WokenPlace(s, w, r, a, q);
    Tally(s, r, a, q);
    PendPlace(s, w, q);
    if s.mutex.Some? && s.pc[s.mutex.value].Leaving? {
      PendMeans(s, w);
    }
    MutexLet(s, r, a);
  }

  lemma {:induction false} RunsOwe(s: State, w: seq<Place>, p: nat, q: nat, k: nat,
                                   events: seq<(nat, Action)>, t: State) returns (v: seq<Place>)
    requires Good(s, w) && p < |w| == |s.pc| && q < |w| && Owed(s, w, p, q, k) && Runs(s, events, t)
    ensures Good(t, v) && |v| == |w| == |t.pc| && Owed(t, v, p, q, k)
    decreases |events|
  {
    hide Owed, Good, Can, Do, Moved;
    if events == [] {
      v := w;
    } else {
      var (r, a) := events[0];
      KeepGood(s, w, r, a);
      KeepOwed(s, w, p, q, k, r, a);
      v := RunsOwe(Do(s, r, a), Moved(s, w, r, a), p, q, k, events[1..], t);
    }
  }

  /**
   * Every waiter present at a SIGNAL is woken by the time the signaller has left the monitor, by
   * its LEAVE or its WAIT: whenever the signaller is out, asleep, or trying to come in again, the
   * waiter has been woken for that WAIT.
   */
  lemma SignalWakesAll(s: State, p: nat, q: nat, events: seq<(nat, Action)>, t: State)
    requires Reachable(s) && Can(s, p, Signal) && q in s.wq && q < |s.pc|
    requires Runs(Do(s, p, Signal), events, t)
    ensures Do(s, p, Signal).wq == [] && |t.pc| == |t.wakes| == |s.pc| == |s.parks|
    ensures t.pc[p].Out? || t.pc[p].Asleep? || t.pc[p].Entering? ==> t.wakes[q] >= s.parks[q]
  {
    hide Good, Consistent, Reachable, Runs, Do, Moved, Can, Allowed;
    var w := PlaceOf(s, q);
    WaiterCounts(s, w, q);
    KeepGood(s, w, p, Signal);
    SignalTakes(s, w, p, q);
    var v := RunsOwe(Do(s, p, Signal), Moved(s, w, p, Signal), p, q, s.parks[q], events, t);
    GoodSizes(t, v);
    if t.pc[p].Out? || t.pc[p].Asleep? || t.pc[p].Entering? {
      GoneHasNothing(t, v, p, q);
    }
  }

  lemma GoodSizes(t: State, v: seq<Place>)
    requires Good(t, v)
    ensures Sizes(t) && |v| == |t.pc|
  {}

  lemma WaiterCounts(s: State, w: seq<Place>, q: nat)
    requires Good(s, w) && q < |w| && q in s.wq
    ensures w[q] == InWq && s.parks[q] == s.wakes[q] + 1
  {}

  lemma SignalTakes(s: State, w: seq<Place>, p: nat, q: nat)
    requires Good(s, w) && Can(s, p, Signal) && q < |w| && w[q] == InWq
    ensures |w| == |s.pc| && p < |w|
    ensures Moved(s, w, p, Signal)[q] == InSignal(p) && Do(s, p, Signal).wakes == s.wakes
    ensures Do(s, p, Signal).wq == []
  {}

  lemma GoneHasNothing(t: State, v: seq<Place>, p: nat, q: nat)
    requires Good(t, v) && p < |v| && q < |v|
    requires t.pc[p].Out? || t.pc[p].Asleep? || t.pc[p].Entering?
    ensures t.mutex != Some(p) && v[q] != InSignal(p) && v[q] != InLeave(p)
  {
    assert AtHands(t.pc[p], v, p);
  }
}
