/** What every step of the monitor keeps, and what that means for its users. */
module MonitorSafety {
  import opened Wrappers
  import opened Monitor
  import opened MonitorPlaces
  import opened Queues
  import opened MonitorProof

  predicate HoldsMutex(pc: Pc) {
    pc.Won? || pc.Removed? || pc.In? || pc.Signalling? || pc.Leaving?
  }

  predicate HoldsSpin(pc: Pc) {
    pc.Joining? || pc.Queued? || pc.Refused? || pc.Won? || pc.Removed? || pc.PopLocked? || pc.Popped?
  }

  /** Each lock is held by the one process whose code says so. */
  predicate Owner(s: State) {
    forall p :: 0 <= p < |s.pc| ==>
      && (HoldsMutex(s.pc[p]) <==> s.mutex == Some(p))
      && (HoldsSpin(s.pc[p]) <==> s.spin == Some(p))
  }

  /** Threads whose wake is put off wait for a holder who has yet to leave. */
  predicate PendHeld(s: State) {
    s.pend != [] ==>
      && s.mutex.Some? && s.mutex.value < |s.pc|
      && (s.pc[s.mutex.value].In? || s.pc[s.mutex.value].Signalling?)
  }

  /**
   * A process that will look at tq, or at the mutex, before it sleeps: it has unlocked and not yet
   * popped, or it has popped an entrant and will wake it, or it is an entrant still to retry.
   */
  predicate Attends(s: State, r: nat)
    requires r < |s.pc| == |s.kind|
  {
    var pc := s.pc[r];
    || pc.Unlocked? || pc.ToPop? || pc.PopLocked? || Handed(pc) != []
    || pc.Trying? || pc.Joining? || pc.Queued? || (pc.Entering? && s.kind[r].Task?)
    || (pc.Parked? && r in s.ready)
  }

  /** No entrant is lost: while one is queued, the mutex is held or somebody attends. */
  predicate NoneLost(s: State)
    requires Sizes(s)
  {
    s.tq != [] ==> s.mutex.Some? || exists r :: 0 <= r < |s.pc| && Attends(s, r)
  }

  /** Whether a process has parked and has its wake still coming. */
  function Due(pc: Pc, at: Place): nat {
    if at.Free? || at.IsReady? || pc.Queued? || pc.Refused? || pc.Won? then 0 else 1
  }

  predicate Counts(s: State, w: seq<Place>) {
    && Sizes(s) && |w| == |s.pc|
    && forall q :: 0 <= q < |s.pc| ==> s.parks[q] == s.wakes[q] + Due(s.pc[q], w[q])
  }

  predicate Good(s: State, w: seq<Place>) {
    Sizes(s) && |w| == |s.pc| && Consistent(s, w) && Owner(s) && Tail(s) && PendHeld(s) && NoneLost(s) && Counts(s, w)
  }

  lemma KeepOwnerEntry(s: State, p: nat, a: Action)
    requires Owner(s) && Can(s, p, a) && Entry(a)
    ensures Owner(DoEntry(s, p, a))
  {
    hide Ranges, Listed;
  }

  lemma KeepOwnerSignal(s: State, p: nat, a: Action)
    requires Owner(s) && Can(s, p, a) && Signals(a)
    ensures Owner(DoSignal(s, p, a))
  {
    hide Ranges, Listed;
  }

  lemma KeepOwnerLeave(s: State, p: nat, a: Action)
    requires Owner(s) && Can(s, p, a) && !Entry(a) && !Signals(a)
    ensures Owner(DoLeave(s, p, a))
  {
    hide Ranges, Listed;
  }

  lemma KeepOwner(s: State, p: nat, a: Action)
    requires Owner(s) && Can(s, p, a)
    ensures Owner(Do(s, p, a))
  {
    hide DoEntry, DoSignal, DoLeave;
    if Entry(a) {
      KeepOwnerEntry(s, p, a);
    } else if Signals(a) {
      KeepOwnerSignal(s, p, a);
    } else {
      KeepOwnerLeave(s, p, a);
    }
  }

  lemma KeepTailEntry(s: State, p: nat, a: Action)
    requires Owner(s) && Tail(s) && Can(s, p, a) && Entry(a)
    ensures Tail(DoEntry(s, p, a))
  {
    hide Ranges, Listed;
  }

  lemma KeepTailSignal(s: State, p: nat, a: Action)
    requires Owner(s) && Tail(s) && Can(s, p, a) && Signals(a)
    ensures Tail(DoSignal(s, p, a))
  {
    hide Ranges, Listed;
  }

  lemma KeepTailLeave(s: State, p: nat, a: Action)
    requires Owner(s) && Tail(s) && Can(s, p, a) && !Entry(a) && !Signals(a)
    ensures Tail(DoLeave(s, p, a))
  {
    hide Ranges, Listed;
  }

  lemma KeepTail(s: State, p: nat, a: Action)
    requires Owner(s) && Tail(s) && Can(s, p, a)
    ensures Tail(Do(s, p, a))
  {
    hide DoEntry, DoSignal, DoLeave;
    if Entry(a) {
      KeepTailEntry(s, p, a);
    } else if Signals(a) {
      KeepTailSignal(s, p, a);
    } else {
      KeepTailLeave(s, p, a);
    }
  }

  lemma KeepPendHeldEntry(s: State, p: nat, a: Action)
    requires Owner(s) && PendHeld(s) && Can(s, p, a) && Entry(a)
    ensures PendHeld(DoEntry(s, p, a))
  {
    hide Ranges, Listed;
  }

  lemma KeepPendHeldSignal(s: State, p: nat, a: Action)
    requires Owner(s) && PendHeld(s) && Can(s, p, a) && Signals(a)
    ensures PendHeld(DoSignal(s, p, a))
  {
    hide Ranges, Listed;
  }

  lemma KeepPendHeldLeave(s: State, p: nat, a: Action)
    requires Owner(s) && PendHeld(s) && Can(s, p, a) && !Entry(a) && !Signals(a)
    ensures PendHeld(DoLeave(s, p, a))
  {
    hide Ranges, Listed;
  }

  lemma KeepPendHeld(s: State, p: nat, a: Action)
    requires Owner(s) && PendHeld(s) && Can(s, p, a)
    ensures PendHeld(Do(s, p, a))
  {
    hide DoEntry, DoSignal, DoLeave;
    if Entry(a) {
      KeepPendHeldEntry(s, p, a);
    } else if Signals(a) {
      KeepPendHeldSignal(s, p, a);
    } else {
      KeepPendHeldLeave(s, p, a);
    }
  }

  /** A popped entrant is parked: nothing else can have moved it. */
  lemma HandedIsParked(s: State, w: seq<Place>, p: nat)
    requires Consistent(s, w) && p < |s.pc| && Handed(s.pc[p]) != []
    ensures var q := Handed(s.pc[p])[0]; q < |s.pc| && s.pc[q].Parked?
  {
    assert AtHands(s.pc[p], w, p);
  }

  lemma KeepNoneLost(s: State, w: seq<Place>, p: nat, a: Action)
    requires Consistent(s, w) && Owner(s) && NoneLost(s) && Can(s, p, a)
    ensures NoneLost(Do(s, p, a))
  {
    var t := Do(s, p, a);
    if a.Hand? && Handed(s.pc[p]) != [] {
      HandedIsParked(s, w, p);
      assert Attends(t, Handed(s.pc[p])[0]);
    } else {
      KeepNoneLostElse(s, p, a);
    }
  }

  lemma KeepNoneLostElseEntry(s: State, p: nat, a: Action)
    requires Sizes(s) && Owner(s) && NoneLost(s) && Can(s, p, a) && Entry(a) && !(a.Hand? && Handed(s.pc[p]) != [])
    ensures NoneLost(DoEntry(s, p, a))
  {
    hide Ranges, Listed;
    var t := DoEntry(s, p, a);
    if s.tq != [] && s.mutex.None? {
      var r :| 0 <= r < |s.pc| && Attends(s, r);
      if r != p {
        assert Attends(t, r);
      } else if t.mutex.None? && t.tq != [] {
        assert Attends(t, p);
      }
    } else if a.Unlock? || a.Join? {
      assert Attends(t, p);
    }
  }

  lemma KeepNoneLostElseSignal(s: State, p: nat, a: Action)
    requires Sizes(s) && Owner(s) && NoneLost(s) && Can(s, p, a) && Signals(a) && !(a.Hand? && Handed(s.pc[p]) != [])
    ensures NoneLost(DoSignal(s, p, a))
  {
    hide Ranges, Listed;
  }

  lemma KeepNoneLostElseLeave(s: State, p: nat, a: Action)
    requires Sizes(s) && Owner(s) && NoneLost(s) && Can(s, p, a) && !Entry(a) && !Signals(a)
             && !(a.Hand? && Handed(s.pc[p]) != [])
    ensures NoneLost(DoLeave(s, p, a))
  {
    hide Ranges, Listed;
    var t := DoLeave(s, p, a);
    if s.tq != [] && s.mutex.None? {
      var r :| 0 <= r < |s.pc| && Attends(s, r);
      if r != p {
        assert Attends(t, r);
      } else if t.mutex.None? && t.tq != [] {
        assert Attends(t, p);
      }
    } else if a.Unlock? || a.Join? {
      assert Attends(t, p);
    }
  }

  lemma KeepNoneLostElse(s: State, p: nat, a: Action)
    requires Sizes(s) && Owner(s) && NoneLost(s) && Can(s, p, a) && !(a.Hand? && Handed(s.pc[p]) != [])
    ensures NoneLost(Do(s, p, a))
  {
    hide DoEntry, DoSignal, DoLeave;
    if Entry(a) {
      KeepNoneLostElseEntry(s, p, a);
    } else if Signals(a) {
      KeepNoneLostElseSignal(s, p, a);
    } else {
      KeepNoneLostElseLeave(s, p, a);
    }
  }

  /** The ways an action changes the place of a process. */
  predicate Travels(kind: Kind, from: Place, to: Place, self: bool, p: nat, a: Action) {
    || from == to
    || (self && a.Join? && from.Free? && to.InTq?)
    || (self && a.Unlink? && from.InTq? && to.Free?)
    || (self && (a.Resume? || a.WakeUp?) && from.IsReady? && to.Free?)
    || (self && a.Wait? && from.Free? && to.InWq?)
    || (from == InTq && to == InHand(p) && a.Pop?)
    || (from == InHand(p) && to == IsReady && a.Hand?)
    || (from == InWq && to == InSignal(p) && a.Signal?)
    || (from == InSignal(p) && to == InPend && a.SignalOne? && kind.Thread?)
    || (from == InSignal(p) && to == IsReady && (a.SignalOne? || a.ReadyOne?))
    || (from == InPend && to == InLeave(p) && (a.Leave? || a.Wait?))
    || (from == InLeave(p) && to == IsReady && a.WakeOne?)
  }

  lemma SelfPlace(s: State, w: seq<Place>, p: nat, a: Action)
    requires Consistent(s, w) && Can(s, p, a)
    ensures a.Join? || a.Wait? ==> w[p].Free?
    ensures a.Unlink? ==> w[p].InTq?
    ensures a.Resume? || a.WakeUp? ==> w[p].IsReady?
  {
    hide Ranges, Listed;
    assert Allowed(s.kind[p], s.pc[p], w[p], |w|);
  }

  /** Where the process an action takes off a list was. */
  lemma TakenFrom(s: State, w: seq<Place>, p: nat, a: Action)
    requires Consistent(s, w) && Can(s, p, a)
    ensures a.Pop? && s.tq != [] ==> s.tq[0] < |w| && w[s.tq[0]] == InTq
    ensures a.Hand? && s.pc[p].hand.Some? ==> s.pc[p].hand.value < |w| && w[s.pc[p].hand.value] == InHand(p)
    ensures a.WakeOne? ==> s.pc[p].list[0] < |w| && w[s.pc[p].list[0]] == InLeave(p)
    ensures a.SignalOne? ==> s.pc[p].list[0] < |w| && w[s.pc[p].list[0]] == InSignal(p)
  {
    hide Allowed, Ranges;
    assert AtHands(s.pc[p], w, p);
    if a.Hand? && s.pc[p].hand.Some? {
      assert Handed(s.pc[p])[0] == s.pc[p].hand.value;
    }
    if a.WakeOne? {
      assert Carried(s.pc[p])[0] == s.pc[p].list[0];
    }
    if a.SignalOne? {
      assert Signalled(s.pc[p])[0] == s.pc[p].list[0];
    }

  }

  lemma TakenMovable(s: State, w: seq<Place>, p: nat)
    requires Consistent(s, w) && Can(s, p, ReadyOne)
    ensures s.pc[p].movable[0] < |w| && w[s.pc[p].movable[0]] == InSignal(p)
  {
    hide Allowed, Ranges, Listed, Handed, Signalled, Carried;
    assert AtHands(s.pc[p], w, p);
    HandsOfSignaller(s.pc[p].movable, w, p);
  }

  lemma Traveller(s: State, w: seq<Place>, p: nat, a: Action, q: nat)
    requires Consistent(s, w) && Can(s, p, a) && q < |w|
    ensures Travels(s.kind[q], w[q], Moved(s, w, p, a)[q], q == p, p, a)
  {
    hide Ranges, Allowed, Lists, Listed, Handed;
    SelfPlace(s, w, p, a);
    TakenFrom(s, w, p, a);
    if a.ReadyOne? {
      TakenMovable(s, w, p);
    }
  }

  lemma KeepAllowed(s: State, w: seq<Place>, p: nat, a: Action, q: nat)
    requires Consistent(s, w) && Owner(s) && Can(s, p, a) && q < |w| && q != p
    ensures |Moved(s, w, p, a)| == |w|
    ensures Allowed(s.kind[q], s.pc[q], Moved(s, w, p, a)[q], |w|)
  {
    hide Ranges, Moved, Lists, Do;
    Traveller(s, w, p, a, q);
  }

  lemma KeepAllowedSelfEntry(s: State, w: seq<Place>, p: nat, a: Action)
    requires Consistent(s, w) && Owner(s) && Can(s, p, a) && Entry(a)
    ensures Allowed(s.kind[p], DoEntry(s, p, a).pc[p], Moved(s, w, p, a)[p], |w|)
    ensures OnlyTasks(s.kind[p], DoEntry(s, p, a).pc[p])
  {
    hide Ranges, Lists, Listed;
    ReadyPlace(s, w, p);
    Traveller(s, w, p, a, p);
  }

  lemma KeepAllowedSelfSignal(s: State, w: seq<Place>, p: nat, a: Action)
    requires Consistent(s, w) && Owner(s) && Can(s, p, a) && Signals(a)
    ensures Allowed(s.kind[p], DoSignal(s, p, a).pc[p], Moved(s, w, p, a)[p], |w|)
    ensures OnlyTasks(s.kind[p], DoSignal(s, p, a).pc[p])
  {
    hide Ranges, Lists, Listed, Moved;
    Traveller(s, w, p, a, p);
  }

  lemma KeepAllowedSelfWait(s: State, w: seq<Place>, p: nat, a: Action)
    requires Consistent(s, w) && Owner(s) && Can(s, p, a) && (a.Wait? || a.WakeUp?)
    ensures Allowed(s.kind[p], DoLeave(s, p, a).pc[p], Moved(s, w, p, a)[p], |w|)
    ensures OnlyTasks(s.kind[p], DoLeave(s, p, a).pc[p])
  {
    hide Ranges, Lists, Listed;
    ReadyPlace(s, w, p);
    Traveller(s, w, p, a, p);
  }

  lemma KeepAllowedSelfLeave(s: State, w: seq<Place>, p: nat, a: Action)
    requires Consistent(s, w) && Owner(s) && Can(s, p, a) && !Entry(a) && !Signals(a) && !a.Wait? && !a.WakeUp?
    ensures Allowed(s.kind[p], DoLeave(s, p, a).pc[p], Moved(s, w, p, a)[p], |w|)
    ensures OnlyTasks(s.kind[p], DoLeave(s, p, a).pc[p])
  {
    hide Ranges, Lists, Listed, Moved;
    Traveller(s, w, p, a, p);
  }

  lemma KeepAllowedSelf(s: State, w: seq<Place>, p: nat, a: Action)
    requires Consistent(s, w) && Owner(s) && Can(s, p, a)
    ensures Allowed(s.kind[p], Do(s, p, a).pc[p], Moved(s, w, p, a)[p], |w|)
    ensures OnlyTasks(s.kind[p], Do(s, p, a).pc[p])
  {
    hide DoEntry, DoSignal, DoLeave;
    if Entry(a) {
      KeepAllowedSelfEntry(s, w, p, a);
    } else if Signals(a) {
      KeepAllowedSelfSignal(s, w, p, a);
    } else if a.Wait? || a.WakeUp? {
      KeepAllowedSelfWait(s, w, p, a);
    } else {
      KeepAllowedSelfLeave(s, w, p, a);
    }
  }

  lemma ReadyPlace(s: State, w: seq<Place>, q: nat)
    requires Consistent(s, w) && q < |w|
    ensures q in s.ready <==> w[q] == IsReady
  {}

  lemma KeepAllows(s: State, w: seq<Place>, p: nat, a: Action)
    requires Consistent(s, w) && Tail(s) && Owner(s) && Can(s, p, a)
    ensures Allows(Do(s, p, a), Moved(s, w, p, a))
  {
    hide Moved, DoEntry, DoSignal, DoLeave, Allowed, OnlyTasks, Lists, Can;
    var t, v := Do(s, p, a), Moved(s, w, p, a);
    KeepLists(s, w, p, a);
    ListsInRange(t, v, p, a, s);
    forall q | 0 <= q < |w| ensures Allowed(t.kind[q], t.pc[q], v[q], |v|) && OnlyTasks(t.kind[q], t.pc[q]) {
      if q == p {
        KeepAllowedSelf(s, w, p, a);
      } else {
        KeepAllowed(s, w, p, a, q);
      }
    }
  }

  lemma ListsInRange(t: State, v: seq<Place>, p: nat, a: Action, s: State)
    requires Can(s, p, a) && t == Do(s, p, a) && Lists(t, v)
    ensures Ranges(t)
  {
    hide Do, DoEntry, DoSignal, DoLeave, Can, Moved;
    forall r | 0 <= r < |t.pc| ensures Within(Listed(t.pc[r]), |t.pc|) && Within(Handed(t.pc[r]), |t.pc|) {
      assert AtHands(t.pc[r], v, r);
    }
  }

  predicate Parks(p: nat, a: Action, q: nat) {
    q == p && (a.Park? || a.Wait?)
  }

  function One(b: bool): nat {
    if b then 1 else 0
  }

  lemma Tally(s: State, p: nat, a: Action, q: nat)
    requires Can(s, p, a) && q < |s.pc|
    ensures Do(s, p, a).parks[q] == s.parks[q] + One(Parks(p, a, q))
    ensures Do(s, p, a).wakes[q] == s.wakes[q] + One(Woke(s, p, a) == Some(q))
  {
    hide Ranges, Listed;
  }

  lemma WokenPlace(s: State, w: seq<Place>, p: nat, a: Action, q: nat)
    requires Consistent(s, w) && Can(s, p, a) && q < |w|
    ensures Woke(s, p, a) == Some(q) <==> w[q] != IsReady && Moved(s, w, p, a)[q] == IsReady
    ensures Woke(s, p, a) == Some(q) ==> w[q].InHand? || w[q].InLeave? || w[q].InSignal?
  {
    hide Ranges, Allowed, Lists, Listed, Handed;
    SelfPlace(s, w, p, a);
    TakenFrom(s, w, p, a);
    if a.ReadyOne? {
      TakenMovable(s, w, p);
    }
  }

  lemma DueElsewhere(s: State, w: seq<Place>, p: nat, a: Action, q: nat)
    requires Consistent(s, w) && Owner(s) && Can(s, p, a) && q < |w| && q != p
    ensures Due(s.pc[q], Moved(s, w, p, a)[q]) + One(Woke(s, p, a) == Some(q)) ==
            Due(s.pc[q], w[q]) + One(Parks(p, a, q))
  {
    hide Ranges, Lists, Moved, Do, Woke;
    Traveller(s, w, p, a, q);
    WokenPlace(s, w, p, a, q);
    KeepAllowed(s, w, p, a, q);
  }

  lemma DueChangesEntry(s: State, w: seq<Place>, p: nat, a: Action)
    requires Consistent(s, w) && Owner(s) && Can(s, p, a) && Entry(a)
    ensures Due(DoEntry(s, p, a).pc[p], Moved(s, w, p, a)[p]) + One(Woke(s, p, a) == Some(p)) ==
            Due(s.pc[p], w[p]) + One(Parks(p, a, p))
  {
    hide Ranges, Lists, Listed;
    ReadyPlace(s, w, p);
    Traveller(s, w, p, a, p);
    WokenPlace(s, w, p, a, p);
  }

  lemma DueChangesSignal(s: State, w: seq<Place>, p: nat, a: Action)
    requires Consistent(s, w) && Owner(s) && Can(s, p, a) && Signals(a)
    ensures Due(DoSignal(s, p, a).pc[p], Moved(s, w, p, a)[p]) + One(Woke(s, p, a) == Some(p)) ==
            Due(s.pc[p], w[p]) + One(Parks(p, a, p))
  {
    hide Ranges, Lists, Listed, Moved, Woke;
    ReadyPlace(s, w, p);
    Traveller(s, w, p, a, p);
    WokenPlace(s, w, p, a, p);
  }

  lemma DueChangesLeave(s: State, w: seq<Place>, p: nat, a: Action)
    requires Consistent(s, w) && Owner(s) && Can(s, p, a) && !Entry(a) && !Signals(a)
    ensures Due(DoLeave(s, p, a).pc[p], Moved(s, w, p, a)[p]) + One(Woke(s, p, a) == Some(p)) ==
            Due(s.pc[p], w[p]) + One(Parks(p, a, p))
  {
    hide Ranges, Lists, Listed, Woke;
    ReadyPlace(s, w, p);
    Traveller(s, w, p, a, p);
    WokenPlace(s, w, p, a, p);
  }

  lemma DueChanges(s: State, w: seq<Place>, p: nat, a: Action, q: nat)
    requires Consistent(s, w) && Owner(s) && Can(s, p, a) && q < |w| == |s.pc|
    ensures Due(Do(s, p, a).pc[q], Moved(s, w, p, a)[q]) + One(Woke(s, p, a) == Some(q)) ==
            Due(s.pc[q], w[q]) + One(Parks(p, a, q))
  {
    hide DoEntry, DoSignal, DoLeave, Can, Consistent, Owner, Due, Woke, Moved;
    if q != p {
      DueElsewhere(s, w, p, a, q);
    } else if Entry(a) {
      DueChangesEntry(s, w, p, a);
    } else if Signals(a) {
      DueChangesSignal(s, w, p, a);
    } else {
      DueChangesLeave(s, w, p, a);
    }
  }

  lemma KeepCounts(s: State, w: seq<Place>, p: nat, a: Action)
    requires Consistent(s, w) && Owner(s) && Counts(s, w) && Can(s, p, a)
    ensures Counts(Do(s, p, a), Moved(s, w, p, a))
  {
    hide Lists, Allows, Owner, Can, Do, Moved, Woke, Due, Parks;
    forall q | 0 <= q < |s.pc|
      ensures Do(s, p, a).parks[q] == Do(s, p, a).wakes[q] + Due(Do(s, p, a).pc[q], Moved(s, w, p, a)[q])
    {
      Tally(s, p, a, q);
      DueChanges(s, w, p, a, q);
    }
  }

  lemma KeepGood(s: State, w: seq<Place>, p: nat, a: Action)
    requires Good(s, w) && Can(s, p, a)
    ensures Good(Do(s, p, a), Moved(s, w, p, a))
  {
    hide Lists, Allows, Owner, Tail, PendHeld, NoneLost, Counts, Can, Do, Moved;
    KeepAllows(s, w, p, a);
    KeepLists(s, w, p, a);
    KeepOwner(s, p, a);
    KeepTail(s, p, a);
    KeepPendHeld(s, p, a);
    KeepNoneLost(s, w, p, a);
    KeepCounts(s, w, p, a);
  }
}
