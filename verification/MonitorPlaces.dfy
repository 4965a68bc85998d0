/**
 * Where each parked process is. A process that waits, or queues to enter, is in exactly one queue
 * or one process's hands until it is woken; the places below name which.
 */
module MonitorPlaces {
  import opened Wrappers
  import opened Monitor
  import opened Queues

  datatype Place = Free | InTq | InHand(r: nat) | InWq | InSignal(r: nat) | InPend | InLeave(r: nat) | IsReady

  function Signalled(pc: Pc): seq<nat> {
    if pc.Signalling? then Listed(pc) else []
  }

  function Carried(pc: Pc): seq<nat> {
    if pc.Signalling? then [] else Listed(pc)
  }

  predicate AtHands(pc: Pc, w: seq<Place>, r: nat) {
    At(Signalled(pc), w, InSignal(r)) && At(Carried(pc), w, InLeave(r)) && At(Handed(pc), w, InHand(r))
  }

  /** Every queue, every carried list and the woken ones agree with the places. */
  predicate Lists(s: State, w: seq<Place>) {
    && |w| == |s.pc|
    && At(s.tq, w, InTq) && At(s.wq, w, InWq) && At(s.pend, w, InPend)
    && (forall r :: 0 <= r < |s.pc| ==> AtHands(s.pc[r], w, r))
    && (forall q :: 0 <= q < |w| ==> (q in s.ready <==> w[q] == IsReady))
  }

  predicate InWait(pc: Pc) {
    || pc.Asleep?
    || ((pc.Leaving? || pc.Unlocked? || pc.ToPop? || pc.PopLocked? || pc.Popped? || pc.Handing? || pc.Waking?)
        && pc.wait)
  }

  /** Which places a process may have at a point of the code. */
  predicate Allowed(kind: Kind, pc: Pc, at: Place, n: nat) {
    && (at.InTq? || at.InHand? ==> kind.Task?)
    && (at.InPend? || at.InLeave? ==> kind.Thread?)
    && (at.InHand? || at.InSignal? || at.InLeave? ==> at.r < n)
    && if pc.Queued? || pc.Refused? || pc.Won? then at.InTq?
       else if pc.Parked? then at.InTq? || at.InHand? || at.IsReady?
       else if InWait(pc) then at.InWq? || at.InSignal? || at.InPend? || at.InLeave? || at.IsReady?
       else at.Free?
  }

  predicate OnlyTasks(kind: Kind, pc: Pc) {
    pc.Trying? || pc.Joining? || pc.Queued? || pc.Refused? || pc.Won? || pc.Removed? || pc.Parked? ==> kind.Task?
  }

  predicate Allows(s: State, w: seq<Place>) {
    && Shape(s) && |w| == |s.pc|
    && forall q :: 0 <= q < |w| ==> Allowed(s.kind[q], s.pc[q], w[q], |w|) && OnlyTasks(s.kind[q], s.pc[q])
  }

  predicate Consistent(s: State, w: seq<Place>) {
    Allows(s, w) && Lists(s, w)
  }

  /** The places after an action. */
  function Moved(s: State, w: seq<Place>, p: nat, a: Action): (v: seq<Place>)
    requires Can(s, p, a) && |w| == |s.pc|
    ensures |v| == |w|
  {
    var pc := s.pc[p];
    match a
    case Join => w[p := InTq]
    case Unlink => w[p := Free]
    case Resume => w[p := Free]
    case WakeUp => w[p := Free]
    case Leave => Renamed(w, InPend, InLeave(p))
    case Wait => Renamed(w, InPend, InLeave(p))[p := InWq]
    case Pop => if s.tq == [] then w else w[s.tq[0] := InHand(p)]
    case Hand => if pc.hand.None? then w else assert pc.hand.value == Handed(pc)[0]; w[pc.hand.value := IsReady]
    case WakeOne => assert pc.list[0] == Listed(pc)[0]; w[pc.list[0] := IsReady]
    case Signal => Renamed(w, InWq, InSignal(p))
    case SignalOne(pinned) =>
      assert pc.list[0] == Listed(pc)[0];
      if s.kind[pc.list[0]].Thread? then w[pc.list[0] := InPend]
      else if pinned then w[pc.list[0] := IsReady] else w
    case ReadyOne => assert pc.movable[0] == Listed(pc)[0]; w[pc.movable[0] := IsReady]
    case _ => w
  }

  // One process moves; the lists it neither leaves nor joins stay right.

  predicate About(at: Place, p: nat) {
    at.InHand? || at.InSignal? || at.InLeave? ==> at.r == p
  }

  lemma OthersElsewhere(pcs: seq<Pc>, w: seq<Place>, p: nat, q: nat, to: Place)
    requires |pcs| == |w| && forall r :: 0 <= r < |pcs| ==> AtHands(pcs[r], w, r)
    requires p < |w| && q < |w| && About(w[q], p) && About(to, p)
    ensures forall r :: 0 <= r < |pcs| && r != p ==> AtHands(pcs[r], w[q := to], r)
  {
    hide At;
    forall r | 0 <= r < |pcs| && r != p ensures AtHands(pcs[r], w[q := to], r) {
      Elsewhere(Signalled(pcs[r]), w, q, to, InSignal(r));
      Elsewhere(Carried(pcs[r]), w, q, to, InLeave(r));
      Elsewhere(Handed(pcs[r]), w, q, to, InHand(r));
    }
  }

  /** The tail's own removal takes off the tail and nothing else. */
  lemma {:induction false} BeforeTail(list: seq<nat>)
    requires Distinct(list) && list != []
    ensures Before(list, list[|list| - 1]) == list[..|list| - 1]
  {
    if |list| > 1 {
      assert list[1..][|list| - 2] == list[|list| - 1];
      BeforeTail(list[1..]);
    }
  }
}
