/** Each action keeps the places right. */
module MonitorProof {
  import opened Wrappers
  import opened Monitor
  import opened MonitorPlaces
  import opened Queues

  /** A task between joining tq and letting the spin lock go is its tail. */
  predicate Tail(s: State) {
    forall p :: 0 <= p < |s.pc| && (s.pc[p].Queued? || s.pc[p].Refused? || s.pc[p].Won?) ==>
      s.tq != [] && s.tq[|s.tq| - 1] == p
  }

  /** An action that moves nobody: only the actor's place in the code changes. */
  predicate Still(a: Action) {
    a.Enter? || a.Try? || a.Lock? || a.SpinTry? || a.TakeSpin? || a.SecondTry? || a.Park? || a.LetSpinGo?
    || a.Unlock? || a.Look? || a.PopLock? || a.PopUnlock? || a.Done? || a.SignalDone?
  }

  lemma KeepStillEntry(s: State, w: seq<Place>, p: nat, a: Action)
    requires Consistent(s, w) && Can(s, p, a) && Still(a) && Entry(a)
    ensures Lists(DoEntry(s, p, a), Moved(s, w, p, a))
  {
    hide At, Ranges, Allowed;
    var s' := DoEntry(s, p, a);
    assert Moved(s, w, p, a) == w;
    assert AtHands(s.pc[p], w, p);
    assert AtHands(s'.pc[p], w, p);
  }

  lemma KeepStillSignal(s: State, w: seq<Place>, p: nat, a: Action)
    requires Consistent(s, w) && Can(s, p, a) && Still(a) && Signals(a)
    ensures Lists(DoSignal(s, p, a), Moved(s, w, p, a))
  {
    hide At, Ranges, Allowed;
    var s' := DoSignal(s, p, a);
    assert Moved(s, w, p, a) == w;
    assert AtHands(s.pc[p], w, p);
    assert AtHands(s'.pc[p], w, p);
  }

  lemma KeepStillLeave(s: State, w: seq<Place>, p: nat, a: Action)
    requires Consistent(s, w) && Can(s, p, a) && Still(a) && !Entry(a) && !Signals(a)
    ensures Lists(DoLeave(s, p, a), Moved(s, w, p, a))
  {
    hide At, Ranges, Allowed;
    var s' := DoLeave(s, p, a);
    assert Moved(s, w, p, a) == w;
    assert AtHands(s.pc[p], w, p);
    assert AtHands(s'.pc[p], w, p);
  }

  /** The lists of the state after an action, from those before it and the actor's own. */
  lemma Assembled(s: State, t: State, w: seq<Place>, p: nat)
    requires |w| == |s.pc| == |t.pc| && p < |w| && t.pc == s.pc[p := t.pc[p]]
    requires At(t.tq, w, InTq) && At(t.wq, w, InWq) && At(t.pend, w, InPend) && AtHands(t.pc[p], w, p)
    requires forall r :: 0 <= r < |s.pc| && r != p ==> AtHands(s.pc[r], w, r)
    requires forall q :: 0 <= q < |w| ==> (q in t.ready <==> w[q] == IsReady)
    ensures Lists(t, w)
  {
    hide At, AtHands;
  }

  lemma KeepJoin(s: State, w: seq<Place>, p: nat)
    requires Consistent(s, w) && Can(s, p, Join)
    ensures Lists(DoEntry(s, p, Join), Moved(s, w, p, Join))
  {
    hide At, Ranges;
    assert AtHands(s.pc[p], w, p);
    Joined(s.tq, w, p, InTq);
    OneMoved(s, w, p, p, InTq);
  }

  /** All the lists but those of the old and the new place, and the actor's own. */
  lemma OneMoved(s: State, w: seq<Place>, p: nat, q: nat, to: Place)
    requires Lists(s, w) && p < |w| && q < |w| && About(w[q], p) && About(to, p)
    ensures w[q] != InTq && to != InTq ==> At(s.tq, w[q := to], InTq)
    ensures w[q] != InWq && to != InWq ==> At(s.wq, w[q := to], InWq)
    ensures w[q] != InPend && to != InPend ==> At(s.pend, w[q := to], InPend)
    ensures forall r :: 0 <= r < |s.pc| && r != p ==> AtHands(s.pc[r], w[q := to], r)
    ensures !w[q].InSignal? && !to.InSignal? ==> At(Signalled(s.pc[p]), w[q := to], InSignal(p))
    ensures !w[q].InLeave? && !to.InLeave? ==> At(Carried(s.pc[p]), w[q := to], InLeave(p))
    ensures !w[q].InHand? && !to.InHand? ==> At(Handed(s.pc[p]), w[q := to], InHand(p))
  {
    hide At;
    OthersElsewhere(s.pc, w, p, q, to);
    assert AtHands(s.pc[p], w, p);
    if w[q] != InTq && to != InTq {
      Elsewhere(s.tq, w, q, to, InTq);
    }
    if w[q] != InWq && to != InWq {
      Elsewhere(s.wq, w, q, to, InWq);
    }
    if w[q] != InPend && to != InPend {
      Elsewhere(s.pend, w, q, to, InPend);
    }
    if !w[q].InSignal? && !to.InSignal? {
      Elsewhere(Signalled(s.pc[p]), w, q, to, InSignal(p));
    }
    if !w[q].InLeave? && !to.InLeave? {
      Elsewhere(Carried(s.pc[p]), w, q, to, InLeave(p));
    }
    if !w[q].InHand? && !to.InHand? {
      Elsewhere(Handed(s.pc[p]), w, q, to, InHand(p));
    }
  }

  lemma KeepUnlink(s: State, w: seq<Place>, p: nat)
    requires Consistent(s, w) && Can(s, p, Unlink) && Tail(s)
    ensures Lists(DoEntry(s, p, Unlink), Moved(s, w, p, Unlink))
  {
    hide At, Ranges;
    assert Allowed(s.kind[p], s.pc[p], w[p], |w|);
    assert Distinct(s.tq) by { AtDistinct(s.tq, w, InTq); }
    BeforeTail(s.tq);
    TailTaken(s.tq, w, Free, InTq);
    OneMoved(s, w, p, p, Free);
  }

  lemma KeepResume(s: State, w: seq<Place>, p: nat)
    requires Consistent(s, w) && Can(s, p, Resume)
    ensures Lists(DoEntry(s, p, Resume), Moved(s, w, p, Resume))
  {
    hide At, Ranges;
    OneMoved(s, w, p, p, Free);
  }

  lemma KeepWakeUp(s: State, w: seq<Place>, p: nat)
    requires Consistent(s, w) && Can(s, p, WakeUp)
    ensures Lists(DoLeave(s, p, WakeUp), Moved(s, w, p, WakeUp))
  {
    hide At, Ranges;
    OneMoved(s, w, p, p, Free);
  }

  lemma KeepPop(s: State, w: seq<Place>, p: nat)
    requires Consistent(s, w) && Can(s, p, Pop)
    ensures Lists(DoLeave(s, p, Pop), Moved(s, w, p, Pop))
  {
    hide At, Ranges;
    assert AtHands(s.pc[p], w, p);
    if s.tq != [] {
      HeadTaken(s.tq, w, InHand(p), InTq);
      var q := s.tq[0];
      Joined([], w, q, InHand(p));
      assert [] + [q] == [q];
      OneMoved(s, w, p, q, InHand(p));
    }
    Assembled(s, DoLeave(s, p, Pop), Moved(s, w, p, Pop), p);
  }

  lemma KeepHand(s: State, w: seq<Place>, p: nat)
    requires Consistent(s, w) && Can(s, p, Hand)
    ensures Lists(DoLeave(s, p, Hand), Moved(s, w, p, Hand))
  {
    hide At, Ranges;
    assert AtHands(s.pc[p], w, p);
    if s.pc[p].hand.Some? {
      assert Handed(s.pc[p]) == [s.pc[p].hand.value];
      assert Handed(s.pc[p])[1..] == [];
      HeadTaken(Handed(s.pc[p]), w, IsReady, InHand(p));
      OneMoved(s, w, p, s.pc[p].hand.value, IsReady);
    }
    Assembled(s, DoLeave(s, p, Hand), Moved(s, w, p, Hand), p);
  }

  lemma KeepWakeOne(s: State, w: seq<Place>, p: nat)
    requires Consistent(s, w) && Can(s, p, WakeOne)
    ensures Lists(DoLeave(s, p, WakeOne), Moved(s, w, p, WakeOne))
  {
    hide At, Ranges;
    assert AtHands(s.pc[p], w, p);
    HeadTaken(s.pc[p].list, w, IsReady, InLeave(p));
    OneMoved(s, w, p, s.pc[p].list[0], IsReady);
    Assembled(s, DoLeave(s, p, WakeOne), Moved(s, w, p, WakeOne), p);
  }

  lemma KeepReadyOneIs(s: State, w: seq<Place>, p: nat)
    requires Consistent(s, w) && Can(s, p, ReadyOne)
    ensures p < |s.pc| == |w| && s.pc[p].Signalling? && s.pc[p].list == [] && s.pc[p].movable != []
    ensures s.pc[p].movable[0] < |w| == |s.wakes|
    ensures DoSignal(s, p, ReadyOne) == Woken(To(s, p, Signalling([], s.pc[p].movable[1..])), s.pc[p].movable[0])
    ensures Moved(s, w, p, ReadyOne) == w[s.pc[p].movable[0] := IsReady]
  {
    hide Lists;
    assert Listed(s.pc[p])[0] == s.pc[p].movable[0];
  }

  lemma HandsOfSignaller(movable: seq<nat>, w: seq<Place>, p: nat)
    ensures AtHands(Signalling([], movable), w, p) <==>
            At(movable, w, InSignal(p)) && At([], w, InLeave(p)) && At([], w, InHand(p))
  {
    hide At;
    assert [] + movable == movable;
  }

  lemma OneReadied(s: State, w: seq<Place>, p: nat, m: seq<nat>, t: State, v: seq<Place>)
    requires Lists(s, w) && p < |w| && s.pc[p] == Signalling([], m) && m != [] && m[0] < |w| == |s.wakes|
    requires t == Woken(To(s, p, Signalling([], m[1..])), m[0]) && v == w[m[0] := IsReady]
    ensures Lists(t, v)
  {
    hide At, Listed, Signalled, Carried, Handed, AtHands;
    assert AtHands(s.pc[p], w, p);
    HandsOfSignaller(m, w, p);
    HandsOfSignaller(m[1..], v, p);
    HeadTaken(m, w, IsReady, InSignal(p));
    OneMoved(s, w, p, m[0], IsReady);
    Elsewhere([], w, m[0], IsReady, InLeave(p));
    Elsewhere([], w, m[0], IsReady, InHand(p));
    Assembled(s, t, v, p);
  }

  lemma KeepReadyOne(s: State, w: seq<Place>, p: nat)
    requires Consistent(s, w) && Can(s, p, ReadyOne)
    ensures Lists(DoSignal(s, p, ReadyOne), Moved(s, w, p, ReadyOne))
  {
    KeepReadyOneIs(s, w, p);
    hide Lists, Can, DoSignal, Moved, Woken, To;
    OneReadied(s, w, p, s.pc[p].movable, DoSignal(s, p, ReadyOne), Moved(s, w, p, ReadyOne));
  }

  lemma Reordered(list: seq<nat>, list': seq<nat>, w: seq<Place>, at: Place)
    requires At(list + list', w, at) && list != []
    ensures At(list[1..] + ([list[0]] + list'), w, at)
  {
    var a, b := list + list', list[1..] + ([list[0]] + list');
    assert forall i :: 0 <= i < |b| ==>
      b[i] == a[if i < |list| - 1 then i + 1 else if i == |list| - 1 then 0 else i];
    assert forall i :: 0 <= i < |a| ==>
      a[i] == b[if i == 0 then |list| - 1 else if i < |list| then i - 1 else i];
  }

  lemma KeepSignalOne(s: State, w: seq<Place>, p: nat, pinned: bool)
    requires Consistent(s, w) && Can(s, p, SignalOne(pinned))
    ensures Lists(DoSignal(s, p, SignalOne(pinned)), Moved(s, w, p, SignalOne(pinned)))
  {
    hide At, Ranges;
    assert AtHands(s.pc[p], w, p);
    var list, movable := s.pc[p].list, s.pc[p].movable;
    var q := list[0];
    assert s.pc[p].Signalling? && Signalled(s.pc[p]) == list + movable;
    assert (list + movable)[0] == q && (list + movable)[1..] == list[1..] + movable;
    AtWithin(list + movable, w, InSignal(p));
    HeadTaken(list + movable, w, if s.kind[q].Thread? then InPend else IsReady, InSignal(p));
    if s.kind[q].Thread? {
      Joined(s.pend, w, q, InPend);
      OneMoved(s, w, p, q, InPend);
    } else if pinned {
      OneMoved(s, w, p, q, IsReady);
    } else {
      Reordered(list, movable, w, InSignal(p));
    }
    Assembled(s, DoSignal(s, p, SignalOne(pinned)), Moved(s, w, p, SignalOne(pinned)), p);
  }

  // Whole queues move: pend into a leaver's hands, wq into a signaller's.

  lemma QueueMoved(s: State, w: seq<Place>, p: nat, from: Place, to: Place)
    requires Lists(s, w) && p < |w| && from != to && At([], w, to)
    requires (from == InPend && to == InLeave(p)) || (from == InWq && to == InSignal(p))
    ensures var v := Renamed(w, from, to);
            && At(s.tq, v, InTq) && (from == InPend ==> At(s.wq, v, InWq)) && (from == InWq ==> At(s.pend, v, InPend))
            && At([], v, from)
            && At(if from == InPend then s.pend else s.wq, v, to)
            && (forall r :: 0 <= r < |s.pc| && r != p ==> AtHands(s.pc[r], v, r))
            && (to != InSignal(p) ==> At(Signalled(s.pc[p]), v, InSignal(p)))
            && (to != InLeave(p) ==> At(Carried(s.pc[p]), v, InLeave(p)))
            && At(Handed(s.pc[p]), v, InHand(p))
  {
    hide At, Renamed;
    RenamedAt(s.tq, w, from, to, InTq);
    RenamedAt(s.wq, w, from, to, InWq);
    RenamedAt(s.pend, w, from, to, InPend);
    forall r | 0 <= r < |s.pc|
      ensures r != p ==> AtHands(s.pc[r], Renamed(w, from, to), r)
      ensures to != InSignal(r) ==> At(Signalled(s.pc[r]), Renamed(w, from, to), InSignal(r))
      ensures to != InLeave(r) ==> At(Carried(s.pc[r]), Renamed(w, from, to), InLeave(r))
      ensures At(Handed(s.pc[r]), Renamed(w, from, to), InHand(r))
    {
      assert AtHands(s.pc[r], w, r);
      RenamedAt(Signalled(s.pc[r]), w, from, to, InSignal(r));
      RenamedAt(Carried(s.pc[r]), w, from, to, InLeave(r));
      RenamedAt(Handed(s.pc[r]), w, from, to, InHand(r));
    }
  }

  lemma KeepSignal(s: State, w: seq<Place>, p: nat)
    requires Consistent(s, w) && Can(s, p, Signal)
    ensures Lists(DoSignal(s, p, Signal), Moved(s, w, p, Signal))
  {
    hide At, Ranges;
    assert AtHands(s.pc[p], w, p);
    QueueMoved(s, w, p, InWq, InSignal(p));
    assert s.wq + [] == s.wq;
  }

  lemma KeepLeave(s: State, w: seq<Place>, p: nat)
    requires Consistent(s, w) && Can(s, p, Leave)
    ensures Lists(DoLeave(s, p, Leave), Moved(s, w, p, Leave))
  {
    hide At, Ranges;
    assert AtHands(s.pc[p], w, p);
    QueueMoved(s, w, p, InPend, InLeave(p));
  }

  lemma KeepWait(s: State, w: seq<Place>, p: nat)
    requires Consistent(s, w) && Can(s, p, Wait)
    ensures Lists(DoLeave(s, p, Wait), Moved(s, w, p, Wait))
  {
    hide At, Ranges;
    KeepLeave(s, w, p);
    var left, v := DoLeave(s, p, Leave), Moved(s, w, p, Leave);
    assert Allowed(s.kind[p], s.pc[p], w[p], |w|);
    assert v[p] == Free;
    Joined(s.wq, v, p, InWq);
    OneMoved(left, v, p, p, InWq);
    assert Carried(Leaving(s.pend, true)) == Carried(left.pc[p]);
    Assembled(left, DoLeave(s, p, Wait), Moved(s, w, p, Wait), p);
  }

  /** Every action leaves every list right. */
  lemma KeepLists(s: State, w: seq<Place>, p: nat, a: Action)
    requires Consistent(s, w) && Tail(s) && Can(s, p, a)
    ensures Lists(Do(s, p, a), Moved(s, w, p, a))
  {
    hide Lists, Moved, DoEntry, DoSignal, DoLeave, Can, Consistent, Tail;
    match a
    case Join => KeepJoin(s, w, p);
    case Unlink => KeepUnlink(s, w, p);
    case Resume => KeepResume(s, w, p);
    case WakeUp => KeepWakeUp(s, w, p);
    case Leave => KeepLeave(s, w, p);
    case Wait => KeepWait(s, w, p);
    case Pop => KeepPop(s, w, p);
    case Hand => KeepHand(s, w, p);
    case WakeOne => KeepWakeOne(s, w, p);
    case Signal => KeepSignal(s, w, p);
    case SignalOne(pinned) => KeepSignalOne(s, w, p, pinned);
    case ReadyOne => KeepReadyOne(s, w, p);
    case _ =>
      if Entry(a) {
        KeepStillEntry(s, w, p, a);
      } else if Signals(a) {
        KeepStillSignal(s, w, p, a);
      } else {
        KeepStillLeave(s, w, p, a);
      }
  }
}
