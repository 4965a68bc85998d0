/**
 * The poller: tasks parked on a deadline, a descriptor or both. Its timers are an array heap with
 * the earliest deadline first, in which each task knows its place. One thread decides every wake.
 */
module TaskPoller {
  import opened Wrappers

  /** A task as the poller sees it. */
  class Task {
    var hidx: int     // its place in the timer heap, or -1
    var pfd: int      // the descriptor it waits for, or -1
    var pwhy: int     // 1: the descriptor woke it, 0: the deadline

    constructor ()
      ensures hidx == -1 && pfd == -1
    {
      hidx, pfd, pwhy := -1, -1, 0;
    }
  }

  datatype Timer = Timer(at: int, t: Task)

  function Deadlines(ts: seq<Timer>): (k: seq<int>)
    ensures |k| == |ts| && forall i :: 0 <= i < |ts| ==> k[i] == ts[i].at
  {
    seq(|ts|, i requires 0 <= i < |ts| => ts[i].at)
  }

  function Parent(j: int): int {
    (j - 1) / 2
  }

  /** A deadline is not before its parent's. */
  predicate Pair(keys: seq<int>, j: int)
    requires 0 < j < |keys|
  {
    keys[Parent(j)] <= keys[j]
  }

  predicate Ordered(keys: seq<int>) {
    forall j :: 0 < j < |keys| ==> Pair(keys, j)
  }

  /** In order but for i against its parent and its children. */
  predicate OrderedBut(keys: seq<int>, i: int) {
    && (forall j :: 0 < j < |keys| && j != i && Parent(j) != i ==> Pair(keys, j))
    && (forall j :: 0 < i < j < |keys| && Parent(j) == i ==> keys[Parent(i)] <= keys[j])
  }

  /** In order but for i against its children. */
  predicate OrderedAbove(keys: seq<int>, i: int) {
    && (forall j :: 0 < j < |keys| && Parent(j) != i ==> Pair(keys, j))
    && (forall j :: 0 < i < j < |keys| && Parent(j) == i ==> keys[Parent(i)] <= keys[j])
  }

  /** On the way up from i0, with the rising deadline at i. */
  predicate Rising(keys: seq<int>, i0: int, i: int) {
    if i == i0 then OrderedBut(keys, i)
    else
      && (forall j :: 0 < j < |keys| && j != i ==> Pair(keys, j))
      && (forall j :: 0 < i < j < |keys| && Parent(j) == i ==> keys[Parent(i)] <= keys[j])
  }

  lemma RisingStep(keys: seq<int>, i0: int, i: int)
    requires 0 < i < |keys| && Rising(keys, i0, i) && keys[Parent(i)] > keys[i]
    ensures i0 != Parent(i) ==> Rising(keys[i := keys[Parent(i)]][Parent(i) := keys[i]], i0, Parent(i))
  {
    var p := Parent(i);
    var next := keys[i := keys[p]][p := keys[i]];
    forall j | 0 < j < |next| && j != p ensures Pair(next, j) {
      if j != i && Parent(j) != i {
        assert Pair(keys, j);
      }
      if Parent(j) == i && i != i0 {
        assert Pair(keys, j);
      }
    }
    forall j | 0 < p < j < |next| && Parent(j) == p ensures next[Parent(p)] <= next[j] {
      assert Pair(keys, p);
      if j != i {
        assert Pair(keys, j);
      }
    }
  }

  lemma RisenIsOrderedAbove(keys: seq<int>, i0: int, i: int)
    requires 0 <= i <= i0 < |keys| && Rising(keys, i0, i) && (i > 0 ==> keys[Parent(i)] <= keys[i])
    ensures OrderedAbove(keys, i0)
  {
    if i != i0 {
      forall j | 0 < j < |keys| ensures Pair(keys, j) {}
      forall j | 0 < i0 < j < |keys| && Parent(j) == i0 ensures keys[Parent(i0)] <= keys[j] {
        assert Pair(keys, j) && Pair(keys, i0);
      }
    }
  }

  /** On the way down, with the sinking deadline at i and k its earlier child. */
  lemma SinkingStep(keys: seq<int>, i: int, k: int)
    requires 0 <= i < k < |keys| && Parent(k) == i && OrderedAbove(keys, i) && keys[k] < keys[i]
    requires forall j :: i < j < |keys| && Parent(j) == i ==> keys[k] <= keys[j]
    ensures OrderedAbove(keys[i := keys[k]][k := keys[i]], k)
  {
    var next := keys[i := keys[k]][k := keys[i]];
    forall j | 0 < j < |next| && Parent(j) != k ensures Pair(next, j) {
      if j != i && j != k && Parent(j) != i {
        assert Pair(keys, j);
      }
      if j == i {
        assert keys[Parent(i)] <= keys[k];
      }
    }
    forall j | 0 < k < j < |next| && Parent(j) == k ensures next[Parent(k)] <= next[j] {
      assert Pair(keys, j);
    }
  }

  /** The first deadline is the earliest. */
  lemma {:induction false} FirstIsEarliest(keys: seq<int>, j: int)
    requires Ordered(keys) && 0 <= j < |keys|
    ensures keys[0] <= keys[j]
    decreases j
  {
    if j > 0 {
      assert Pair(keys, j);
      FirstIsEarliest(keys, Parent(j));
    }
  }

  class Poller {
    var timers: array<Timer>
    var n: nat
    ghost var known: set<Task>        // every task there is
    ghost var due: map<Task, int>     // the tasks with a timer, and their deadlines
    var pending: int                  // how many tasks are parked here
    var ready: seq<Task>              // the tasks woken, in the order they were queued to run
    ghost var parked: set<Task>

    ghost predicate Fits()
      reads this`timers, this`n, this`due, this`known
    {
      n <= timers.Length && due.Keys <= known
    }

    /** The array and the tasks' places are each other's inverse, but for what belongs at `hole`. */
    ghost predicate Inverse(hole: int, e: Timer)
      reads this`timers, this`n, this`due, this`known, timers, known`hidx
      requires Fits()
    {
      && e.t in due && due[e.t] == e.at
      && (forall j :: 0 <= j < n && j != hole ==>
            var x := timers[j]; x.t in due && due[x.t] == x.at && x.t.hidx == j && x.t != e.t)
      && (forall t :: t in due && t != e.t ==> 0 <= t.hidx < n && t.hidx != hole && timers[t.hidx].t == t)
      && (forall t :: t in known && t !in due ==> t.hidx == -1)
    }

    /** Exactly the tasks with a deadline are in the array, each once, where its hidx says. */
    ghost predicate Exact()
      reads this`timers, this`n, this`due, this`known, timers, known`hidx
      requires Fits()
    {
      && (forall j :: 0 <= j < n ==>
            var x := timers[j]; x.t in due && due[x.t] == x.at && x.t.hidx == j)
      && (forall t :: t in due ==> 0 <= t.hidx < n && timers[t.hidx].t == t)
      && (forall t :: t in known && t !in due ==> t.hidx == -1)
    }

    function Keys(): (k: seq<int>)
      reads this`timers, this`n, timers
      requires n <= timers.Length
      ensures |k| == n
    {
      Deadlines(timers[..n])
    }

    ghost predicate HeapValid()
      reads this`timers, this`n, this`due, this`known, timers, known`hidx
    {
      Fits() && Exact() && Ordered(Keys())
    }

    /** The heap is right, and what is parked is what the poller still has a timer or a descriptor for. */
    ghost predicate Valid()
      reads this, timers, known
    {
      && HeapValid() && due.Keys <= parked <= known && pending == |parked|
      && forall t :: t in known ==> t.pfd >= -1 && (t.pfd >= 0 ==> t in parked)
    }

    /** The poller starts with nobody parked and no array. */
    constructor (ghost tasks: set<Task>)
      requires forall t :: t in tasks ==> t.hidx == -1 && t.pfd == -1
      ensures Valid() && known == tasks && parked == {} && due == map[] && ready == [] && fresh(timers)
    {
      timers := new Timer[0];
      n, pending, ready := 0, 0, [];
      known, due, parked := tasks, map[], {};
    }

    method HeapSet(i: nat, e: Timer)
      requires i < timers.Length
      modifies timers, e.t`hidx
      ensures timers[..] == old(timers[..])[i := e] && e.t.hidx == i
    {
      timers[i] := e;
      e.t.hidx := i;
    }

    /** The deadline at p moves into the hole; the hole is now at p. */
    method Shift(i: nat, p: nat, ghost e: Timer)
      requires Fits() && i < n && p < n && i != p && Inverse(i, e)
      modifies timers, known`hidx
      ensures Fits() && Inverse(p, e) && timers[..] == old(timers[..])[i := old(timers[p])]
    {
      HeapSet(i, timers[p]);
    }

    /** What belongs in the hole is put there. */
    method Settle(i: nat, e: Timer)
      requires Fits() && i < n && Inverse(i, e)
      modifies timers, known`hidx
      ensures Fits() && Exact() && timers[..] == old(timers[..])[i := e]
    {
      HeapSet(i, e);
    }

    /** The deadlines with e in the hole. */
    ghost predicate Shows(keys: seq<int>, i: int, e: Timer)
      reads this`timers, this`n, timers
    {
      && |keys| == n <= timers.Length && 0 <= i < n && keys[i] == e.at
      && forall j :: 0 <= j < n && j != i ==> timers[j].at == keys[j]
    }

    method HeapUp(i0: nat)
      requires Fits() && i0 < n && Inverse(i0, timers[i0]) && OrderedBut(Keys(), i0)
      modifies timers, known`hidx
      ensures Fits() && Exact() && OrderedAbove(Keys(), i0)
    {
      hide OrderedBut, OrderedAbove, Rising, Inverse, Exact;
      var e := timers[i0];
      var i := i0;
      ghost var keys := Keys();
      assert Rising(keys, i0, i) by { RisingStarts(keys, i0); }
      while i > 0 && timers[Parent(i)].at > e.at
        invariant 0 <= i <= i0 && Fits() && Inverse(i, e) && Shows(keys, i, e)
        invariant Rising(keys, i0, i)
      {
        var p := Parent(i);
        RisingStep(keys, i0, i);
        keys := keys[i := keys[p]][p := keys[i]];
        Shift(i, p, e);
        i := p;
      }
      RisenIsOrderedAbove(keys, i0, i);
      Settle(i, e);
      assert Keys() == keys;
    }

    method HeapDown(i0: nat)
      requires Fits() && i0 < n && Inverse(i0, timers[i0]) && OrderedAbove(Keys(), i0)
      modifies timers, known`hidx
      ensures HeapValid()
    {
      hide OrderedAbove, Inverse, Exact;
      var e := timers[i0];
      var i := i0;
      ghost var keys := Keys();
      while true
        invariant i0 <= i < n && Fits() && Inverse(i, e) && Shows(keys, i, e)
        invariant OrderedAbove(keys, i)
        decreases n - i
      {
        var k := 2 * i + 1;
        if k >= n {
          break;
        }
        if k + 1 < n && timers[k + 1].at < timers[k].at {
          k := k + 1;
        }
        if timers[k].at >= e.at {
          break;
        }
        SinkingStep(keys, i, k);
        keys := keys[i := keys[k]][k := keys[i]];
        Shift(i, k, e);
        i := k;
      }
      SunkIsOrdered(keys, i);
      Settle(i, e);
      assert Keys() == keys;
    }

    /** The array grows: 64 places at first, then twice as many. */
    method Grow(filler: Timer)
      requires HeapValid()
      modifies this`timers
      ensures fresh(timers) && timers.Length == if old(timers.Length) < 64 then 64 else 2 * old(timers.Length)
      ensures HeapValid() && Keys() == old(Keys())
    {
      hide Ordered;
      ghost var keys := Keys();
      var was, len := timers, timers.Length;
      timers := new Timer[if len < 64 then 64 else 2 * len](i requires 0 <= i reads was =>
        if i < len == was.Length then was[i] else filler);
      assert Keys() == keys;
    }

    /** The new timer is put at the end. */
    method PutLast(t: Task, at: int)
      requires HeapValid() && t in known && t !in due && n < timers.Length
      modifies this`n, this`due, timers, t`hidx
      ensures Fits() && n == old(n) + 1 && due == old(due)[t := at] && t.hidx == old(n)
      ensures Inverse(old(n), timers[old(n)]) && Keys() == old(Keys()) + [at]
    {
      hide Ordered;
      ghost var keys := Keys();
      timers[n] := Timer(at, t);
      t.hidx := n;
      n := n + 1;
      due := due[t := at];
      assert Keys() == keys + [at];
    }

    /** A timer joins the heap; it fails, and changes nothing, when the array cannot grow. */
    method HeapAdd(t: Task, at: int, memory: bool) returns (ok: bool)
      requires HeapValid() && t in known && t !in due
      modifies this`timers, this`n, this`due, timers, known`hidx
      ensures ok <==> memory || old(n) < old(timers.Length)
      ensures timers == old(timers) || fresh(timers)
      ensures HeapValid() && due == if ok then old(due)[t := at] else old(due)
      ensures !ok ==> n == old(n) && timers == old(timers) && t.hidx == old(t.hidx)
      ensures ok ==> n > 0
    {
      hide OrderedBut, OrderedAbove, Exact, Inverse, Keys;
      if n == timers.Length {
        if !memory {
          return false;
        }
        Grow(Timer(at, t));
      }
      LastJoined(Keys(), at);
      PutLast(t, at);
      HeapUp(t.hidx);
      NoChildren(Keys());
      ok := true;
    }

    /** The last timer takes the place of t's. */
    method TakeOut(t: Task)
      requires HeapValid() && t in due && t.hidx < n - 1
      modifies this`n, this`due, timers, known`hidx
      ensures n == old(n) - 1 && Fits() && due == old(due) - {t} && t.hidx == -1
      ensures old(t.hidx) < n && Inverse(old(t.hidx), timers[old(t.hidx)])
      ensures OrderedBut(Keys(), old(t.hidx))
    {
      hide Ordered, OrderedBut;
      var i := t.hidx;
      ghost var keys := Keys();
      t.hidx := -1;
      n := n - 1;
      due := due - {t};
      HeapSet(i, timers[n]);
      assert Keys() == keys[..n][i := keys[n]];
      Replaced(keys, i);
    }

    method DropLast(t: Task)
      requires HeapValid() && t in due && t.hidx == n - 1
      modifies this`n, this`due, t`hidx
      ensures n == old(n) - 1 && Fits() && Exact() && due == old(due) - {t} && t.hidx == -1
      ensures Keys() == old(Keys())[..n]
    {
      hide Ordered;
      ghost var keys := Keys();
      t.hidx := -1;
      n := n - 1;
      due := due - {t};
      assert Keys() == keys[..n];
    }

    method HeapDelInner(t: Task)
      requires HeapValid() && t in due && t.hidx < n - 1
      modifies this`n, this`due, timers, known`hidx
      ensures HeapValid() && due == old(due) - {t} && n == old(n) - 1
    {
      Placed(t);
      hide OrderedBut, OrderedAbove, Exact, Inverse, Keys, Ordered;
      var i := t.hidx;
      TakeOut(t);
      HeapUp(i);
      StillPlaced(i);
      HeapDown(timers[i].t.hidx);
    }

    /** A task's timer, if it has one, leaves the heap from wherever it is. */
    method HeapDel(t: Task)
      requires HeapValid() && t in known
      modifies this`n, this`due, timers, known`hidx
      ensures HeapValid() && due == old(due) - {t} && t.hidx == -1
      ensures n == if t in old(due) then old(n) - 1 else old(n)
    {
      Placed(t);
      if t.hidx < 0 {
        assert due - {t} == due;
        return;
      }
      if t.hidx == n - 1 {
        Shorter(Keys());
        DropLast(t);
      } else {
        HeapDelInner(t);
        Placed(t);
      }
    }

    lemma Placed(t: Task)
      requires Fits() && Exact() && t in known
      ensures t.hidx == -1 <==> t !in due
      ensures t in due ==> 0 <= t.hidx < n
    {}

    /** The element now at i is the one to sink: its own place says i. */
    lemma StillPlaced(i: nat)
      requires Fits() && Exact() && i < n
      ensures timers[i].t.hidx == i && Inverse(i, timers[i])
    {}

    /**
     * The running task parks on a deadline (none if at < 0), a descriptor (none if fd < 0), or
     * both. It fails, and leaves nothing behind, when the heap cannot grow or the system cannot
     * watch the descriptor. The sleeping poller is kicked when the earliest deadline moved.
     */
    method ParkPoll(t: Task, fd: int, at: int, memory: bool, watched: bool) returns (ok: bool, kicked: bool)
      requires Valid() && t in known && t !in parked
      modifies this, timers, t`pfd, known`hidx
      ensures timers == old(timers) || fresh(timers)
      ensures Valid() && known == old(known) && ready == old(ready)
      ensures ok ==> parked == old(parked) + {t} && t.pfd == if fd >= 0 then fd else -1
      ensures ok ==> due == if at >= 0 then old(due)[t := at] else old(due)
      ensures !ok ==> parked == old(parked) && due == old(due) && t.pfd == -1 && t.hidx == -1 && !kicked
      ensures ok <== memory && watched
      ensures kicked ==> ok && at >= 0 && forall u :: u in due ==> at <= due[u]
      ensures ok && at >= 0 && !kicked ==> exists u :: u in due && u != t && due[u] <= at
    {
      hide HeapValid, Fits, Exact;
      ok := TryPark(t, fd, at, memory, watched);
      if !ok {
        return false, false;
      }
      parked := parked + {t};
      First(t);
      kicked := t.hidx == 0;
    }

    /** All of parking but counting t among the parked. */
    method TryPark(t: Task, fd: int, at: int, memory: bool, watched: bool) returns (ok: bool)
      requires HeapValid() && t in known && t !in due
      modifies this`timers, this`n, this`due, this`pending, timers, t`pfd, known`hidx
      ensures timers == old(timers) || fresh(timers)
      ensures HeapValid() && pending == old(pending) + if ok then 1 else 0
      ensures ok ==> t.pfd == if fd >= 0 then fd else -1
      ensures ok ==> due == if at >= 0 then old(due)[t := at] else old(due)
      ensures !ok ==> due == old(due) && t.pfd == -1 && t.hidx == -1
      ensures ok <== memory && watched
    {
      Placed(t);
      hide HeapValid, Fits, Exact;
      t.pfd := -1;
      t.hidx := -1;
      pending := pending + 1;
      ok := Arm(t, at, memory);
      if ok {
        ok := Watch(t, fd, watched);
      }
      if !ok {
        pending := pending - 1;
        Undone(old(due), t, at);
      }
    }

    /** The deadline, if there is one, is set. */
    method Arm(t: Task, at: int, memory: bool) returns (ok: bool)
      requires HeapValid() && t in known && t !in due && t.hidx == -1
      modifies this`timers, this`n, this`due, timers, known`hidx
      ensures timers == old(timers) || fresh(timers)
      ensures HeapValid() && due == if ok && at >= 0 then old(due)[t := at] else old(due)
      ensures (!ok ==> t.hidx == -1) && (memory ==> ok)
    {
      ok := true;
      if at >= 0 {
        ok := HeapAdd(t, at, memory);
      }
    }

    /** The descriptor, if there is one, is watched; if it cannot be, the deadline is taken back. */
    method Watch(t: Task, fd: int, watched: bool) returns (ok: bool)
      requires HeapValid() && t in known && t.pfd == -1
      modifies this`n, this`due, timers, known`hidx, t`pfd
      ensures ok <==> fd < 0 || watched
      ensures HeapValid() && due == if ok then old(due) else old(due) - {t}
      ensures t.pfd == if ok && fd >= 0 then fd else -1
      ensures !ok ==> t.hidx == -1
    {
      ok := true;
      if fd >= 0 {
        if watched {
          t.pfd := fd;
        } else {
          HeapDel(t);
          ok := false;
        }
      }
    }

    /** What the first place of the heap says of all deadlines. */
    lemma First(t: Task)
      requires HeapValid() && t in known
      ensures t.hidx == 0 ==> t in due && forall u :: u in due ==> due[t] <= due[u]
      ensures t in due && t.hidx != 0 ==> exists u :: u in due && u != t && due[u] <= due[t]
    {
      if t in due {
        var keys := Keys();
        forall u | u in due ensures keys[0] <= due[u] {
          FirstIsEarliest(keys, u.hidx);
        }
        assert timers[0].t in due;
      }
    }

    /** A parked task is woken: its descriptor is forgotten, it is queued, and then it is not pending. */
    method PollWake(t: Task, why: int)
      requires Valid() && t in parked && t !in due
      modifies this`ready, this`pending, this`parked, t`pfd, t`pwhy
      ensures Valid() && parked == old(parked) - {t} && ready == old(ready) + [t]
      ensures t.pfd == -1 && t.pwhy == why
    {
      if t.pfd >= 0 && why == 1 {
        t.pfd := -1;
      }
      if t.pfd >= 0 {
        t.pfd := -1;
      }
      t.pwhy := why;
      ready := ready + [t];
      pending := pending - 1;
      parked := parked - {t};
    }

    /** A task's timer leaves the heap, and the task wakes. */
    method Wake(t: Task, why: int)
      requires Valid() && t in parked
      modifies this`n, this`due, this`ready, this`pending, this`parked, timers, known`hidx, t`pfd, t`pwhy
      ensures Valid() && parked == old(parked) - {t} && due == old(due) - {t} && ready == old(ready) + [t]
      ensures t.pfd == -1 && t.pwhy == why
      ensures n == if t in old(due) then old(n) - 1 else old(n)
    {
      hide HeapValid;
      HeapDel(t);
      PollWake(t, why);
    }

    ghost function Now(): (v: View)
      reads this`parked, this`due, this`ready, this`known, known`pfd, known`pwhy
      ensures v.pfd.Keys == v.why.Keys == known
      ensures v.parked == parked && v.due == due && v.ready == ready
      ensures forall t :: t in known ==> v.pfd[t] == t.pfd && v.why[t] == t.pwhy
    {
      View(parked, due, ready, map t | t in known :: t.pfd, map t | t in known :: t.pwhy)
    }

    /** One more task wakes. */
    method WakeMore(t: Task, why: int, ghost v: View, ghost woken: seq<Task>)
      requires Valid() && t in parked && t in known && Woke(v, Now(), woken, why)
      modifies this`n, this`due, this`ready, this`pending, this`parked, timers, known`hidx, t`pfd, t`pwhy
      ensures Valid() && Woke(v, Now(), woken + [t], why) && due == old(due) - {t}
      ensures n == if t in old(due) then old(n) - 1 else old(n)
    {
      hide HeapValid, All, Once, Now, Woke;
      ghost var v1 := Now();
      Wake(t, why);
      WokeMore(v, v1, Now(), woken, t, why);
    }

    /** A descriptor's events wake those still waiting for one; a kick is no task's. */
    method Descriptors(events: seq<Option<Task>>) returns (ghost woken: seq<Task>)
      requires Valid() && forall i :: 0 <= i < |events| && events[i].Some? ==> events[i].value in known
      modifies this`n, this`due, this`ready, this`pending, this`parked, timers, known`hidx, known`pfd, known`pwhy
      ensures Valid() && Woke(old(Now()), Now(), woken, 1) && Hits(old(Now()).pfd, woken, events)
    {
      hide HeapValid, All, Once, Now, Woke, Hits;
      woken := [];
      ghost var v := Now();
      NobodyYet(v);
      for i := 0 to |events|
        invariant Valid() && Woke(v, Now(), woken, 1) && v.pfd.Keys == known
        invariant Hits(v.pfd, woken, events[..i])
      {
        ghost var v1 := Now();
        WokeMeans(v, v1, woken, 1);
        HitsMore(v.pfd, v1.pfd, woken, events, i);
        if events[i] == None {
          continue;
        }
        var t := events[i].value;
        if t.pfd < 0 {
          continue;
        }
        WakeMore(t, 1, v, woken);
        woken := woken + [t];
      }
      assert events[..|events|] == events;
    }

    /** What is at the head of the heap has the earliest deadline. */
    lemma Head()
      requires HeapValid() && n > 0
      ensures timers[0].t in due && timers[0].t in known && due[timers[0].t] == timers[0].at
      ensures forall u :: u in due ==> timers[0].at <= due[u]
    {
      First(timers[0].t);
    }

    lemma EmptyHeap()
      requires HeapValid() && n == 0
      ensures due == map[]
    {}

    lemma InArray()
      requires HeapValid()
      ensures n <= timers.Length
    {}

    /** The deadlines that have come wake their tasks, the earliest first. */
    method Timers(now: int) returns (ghost woken: seq<Task>)
      requires Valid()
      modifies this`n, this`due, this`ready, this`pending, this`parked, timers, known`hidx, known`pfd, known`pwhy
      ensures Valid() && Woke(old(Now()), Now(), woken, 0)
      ensures forall t :: t in All(woken) ==> t in old(due) && old(due)[t] <= now
      ensures forall t :: t in due ==> due[t] > now
      ensures Earliest(woken, old(due))
    {
      hide HeapValid, All, Once, Now, Woke, InOrder;
      woken := [];
      ghost var v := Now();
      NobodyYet(v);
      assert InOrder([], due, due) by { NobodyFirst(due); }
      InArray();
      while n > 0 && timers[0].at <= now
        invariant Valid() && Woke(v, Now(), woken, 0) && n <= timers.Length
        invariant forall t :: t in All(woken) ==> t in v.due && v.due[t] <= now
        invariant InOrder(woken, v.due, due)
        decreases n
      {
        Head();
        var t := timers[0].t;
        WokeMeans(v, Now(), woken, 0);
        NextInOrder(woken, v.due, due, t);
        WakeMore(t, 0, v, woken);
        OneMore(woken, t);
        woken := woken + [t];
        InArray();
      }
      assert Earliest(woken, old(due)) by { OrderMeans(woken, v.due, due); }
      if n > 0 {
        Head();
      } else {
        EmptyHeap();
      }
    }

    /**
     * One batch under the heap's lock: descriptors first, then deadlines. Each task parked on both
     * is woken once, by whichever came first, and whatever is woken has left nothing behind.
     */
    method Batch(events: seq<Option<Task>>, now: int) returns (ghost byFd: seq<Task>, ghost byTime: seq<Task>)
      requires Valid() && forall i :: 0 <= i < |events| && events[i].Some? ==> events[i].value in known
      modifies this`n, this`due, this`ready, this`pending, this`parked, timers, known`hidx, known`pfd, known`pwhy
      ensures Valid() && ready == old(ready) + byFd + byTime && Once(byFd + byTime)
      ensures parked == old(parked) - All(byFd) - All(byTime) && due == old(due) - All(byFd) - All(byTime)
      ensures forall t :: t in known ==> (t in All(byFd) <==> old(t.pfd) >= 0 && Some(t) in events)
      ensures forall t :: t in known ==> (t in All(byTime) <==> t !in All(byFd) && t in old(due) && old(due)[t] <= now)
      ensures forall t :: t in known && t in All(byFd) ==> t.pwhy == 1 && t.pfd == -1 && t.hidx == -1
      ensures forall t :: t in known && t in All(byTime) ==> t.pwhy == 0 && t.pfd == -1 && t.hidx == -1
      ensures forall t :: t in known && t !in All(byFd) && t !in All(byTime) ==>
                t.pwhy == old(t.pwhy) && t.pfd == old(t.pfd)
    {
      hide HeapValid, All, Once, Now, Woke;
      ghost var v0 := Now();
      byFd := Descriptors(events);
      ghost var v1 := Now();
      byTime := Timers(now);
      Both(v0, v1, Now(), byFd, byTime);
      TimeOut(v0, v1, Now(), byFd, byTime, now);
      NothingLeft(All(byFd) + All(byTime));
    }

    lemma NothingLeft(ts: set<Task>)
      requires Valid() && ts !! due.Keys
      ensures forall t :: t in ts && t in known ==> t.hidx == -1
    {}
  }

  /** What the poller and its tasks show at one moment. */
  datatype View = View(parked: set<Task>, due: map<Task, int>, ready: seq<Task>, pfd: map<Task, int>,
                       why: map<Task, int>)

  ghost predicate InOrder(woken: seq<Task>, due0: map<Task, int>, due: map<Task, int>) {
    Earliest(woken, due0) && forall i, t :: 0 <= i < |woken| && t in due ==> due0[woken[i]] <= due[t]
  }

  lemma NobodyFirst(due: map<Task, int>)
    ensures InOrder([], due, due)
  {}

  lemma OrderMeans(woken: seq<Task>, due0: map<Task, int>, due: map<Task, int>)
    requires InOrder(woken, due0, due)
    ensures Earliest(woken, due0)
  {}

  lemma NextInOrder(woken: seq<Task>, due0: map<Task, int>, due: map<Task, int>, t: Task)
    requires InOrder(woken, due0, due) && t in due && t in due0 && due0[t] == due[t]
    requires forall u :: u in due ==> due[t] <= due[u]
    ensures InOrder(woken + [t], due0, due - {t})
  {}

  ghost predicate Earliest(woken: seq<Task>, due: map<Task, int>) {
    && (forall i :: 0 <= i < |woken| ==> woken[i] in due)
    && forall i, j :: 0 <= i < j < |woken| ==> due[woken[i]] <= due[woken[j]]
  }

  /** What the deadlines of a batch wake: every timer that has come and whose task no descriptor woke. */
  lemma TimeOut(v: View, v1: View, v2: View, a: seq<Task>, b: seq<Task>, now: int)
    requires v1.due == v.due - All(a) && v2.due == v1.due - All(b)
    requires forall t :: t in All(b) ==> t in v1.due && v1.due[t] <= now
    requires forall t :: t in v2.due ==> v2.due[t] > now
    ensures forall t :: t in All(b) <==> t !in All(a) && t in v.due && v.due[t] <= now
  {
    hide All;
    forall t | t in v1.due && t !in All(b) ensures v1.due[t] > now {
      assert t in v2.due;
    }
  }

  lemma Undone(due: map<Task, int>, t: Task, at: int)
    requires t !in due
    ensures due[t := at] - {t} == due && due - {t} == due
  {}

  ghost function All(ts: seq<Task>): set<Task> {
    set t | t in ts
  }

  predicate Once(ts: seq<Task>) {
    forall i, j :: 0 <= i < j < |ts| ==> ts[i] != ts[j]
  }

  /**
   * Between v and v', these tasks have been woken: each was parked and is queued once, in this
   * order, knowing why; its descriptor is forgotten, and nobody else was touched.
   */
  ghost predicate Woke(v: View, v': View, woken: seq<Task>, why: int) {
    && v.pfd.Keys == v.why.Keys == v'.pfd.Keys == v'.why.Keys
    && v'.ready == v.ready + woken && Once(woken) && All(woken) <= v.parked
    && v'.parked == v.parked - All(woken) && v'.due == v.due - All(woken)
    && forall t :: t in v.pfd ==>
         if t in All(woken) then v'.why[t] == why && v'.pfd[t] == -1 else v'.why[t] == v.why[t] && v'.pfd[t] == v.pfd[t]
  }

  /** The tasks woken are those that waited for a descriptor and have an event. */
  ghost predicate Hits(pfd: map<Task, int>, woken: seq<Task>, events: seq<Option<Task>>) {
    forall t :: t in pfd ==> (t in All(woken) <==> pfd[t] >= 0 && Some(t) in events)
  }

  lemma HitsMore(pfd: map<Task, int>, now: map<Task, int>, woken: seq<Task>, events: seq<Option<Task>>, i: nat)
    requires i < |events| && Hits(pfd, woken, events[..i]) && pfd.Keys == now.Keys
    requires events[i].Some? ==> events[i].value in pfd
    requires forall t :: t in pfd ==> now[t] == if t in All(woken) then -1 else pfd[t]
    ensures events[i] == None || now[events[i].value] < 0 ==> Hits(pfd, woken, events[..i + 1])
    ensures events[i].Some? && now[events[i].value] >= 0 ==> Hits(pfd, woken + [events[i].value], events[..i + 1])
  {
    assert events[..i + 1] == events[..i] + [events[i]];
    if events[i].Some? {
      OneMore(woken, events[i].value);
    }
  }

  lemma NobodyYet(v: View)
    requires v.pfd.Keys == v.why.Keys
    ensures Woke(v, v, [], 0) && Woke(v, v, [], 1) && All([]) == {} && Hits(v.pfd, [], [])
  {
    assert v.due - {} == v.due;
  }

  lemma OneMore(ts: seq<Task>, t: Task)
    ensures All(ts + [t]) == All(ts) + {t}
  {}

  lemma WokeMeans(v: View, v': View, woken: seq<Task>, why: int)
    requires Woke(v, v', woken, why)
    ensures v'.parked == v.parked - All(woken) && v'.due == v.due - All(woken)
    ensures v'.pfd.Keys == v.pfd.Keys && forall t :: t in v.pfd && t !in All(woken) ==> v'.pfd[t] == v.pfd[t]
    ensures forall t :: t in v.pfd && t in All(woken) ==> v'.pfd[t] == -1
  {}

  lemma WokeMore(v: View, v1: View, v2: View, woken: seq<Task>, t: Task, why: int)
    requires Woke(v, v1, woken, why) && t in v1.parked
    requires v2.parked == v1.parked - {t} && v2.due == v1.due - {t} && v2.ready == v1.ready + [t]
    requires v2.pfd.Keys == v1.pfd.Keys && v2.why.Keys == v1.why.Keys
    requires forall u :: u in v1.pfd ==>
               if u == t then v2.why[u] == why && v2.pfd[u] == -1 else v2.why[u] == v1.why[u] && v2.pfd[u] == v1.pfd[u]
    ensures Woke(v, v2, woken + [t], why)
  {
    OneMore(woken, t);
    assert t !in All(woken);
  }

  /** First some, then others: together they are still each woken once. */
  lemma Both(v: View, v1: View, v2: View, a: seq<Task>, b: seq<Task>)
    requires Woke(v, v1, a, 1) && Woke(v1, v2, b, 0)
    ensures v2.ready == v.ready + a + b && Once(a + b) && All(a) !! All(b)
    ensures v2.parked == v.parked - All(a) - All(b) && v2.due == v.due - All(a) - All(b)
    ensures v1.due == v.due - All(a) && v2.due == v1.due - All(b)
    ensures forall t :: t in v.pfd ==>
              if t in All(a) then v2.why[t] == 1 && v2.pfd[t] == -1
              else if t in All(b) then v2.why[t] == 0 && v2.pfd[t] == -1
              else v2.why[t] == v.why[t] && v2.pfd[t] == v.pfd[t]
  {
    forall i, j | 0 <= i < |a| && 0 <= j < |b| ensures a[i] != b[j] {
      assert a[i] in All(a) && b[j] in All(b);
    }
  }

  lemma RisingStarts(keys: seq<int>, i: int)
    requires OrderedBut(keys, i)
    ensures Rising(keys, i, i)
  {}

  lemma SunkIsOrdered(keys: seq<int>, i: int)
    requires 0 <= i < |keys| && OrderedAbove(keys, i)
    requires forall j :: i < j < |keys| && Parent(j) == i ==> keys[i] <= keys[j]
    ensures Ordered(keys)
  {}

  lemma LastJoined(keys: seq<int>, at: int)
    requires Ordered(keys)
    ensures OrderedBut(keys + [at], |keys|)
  {
    forall j | 0 < j < |keys| + 1 && j != |keys| && Parent(j) != |keys| ensures Pair(keys + [at], j) {
      assert Pair(keys, j);
    }
  }

  lemma NoChildren(keys: seq<int>)
    requires |keys| > 0 && OrderedAbove(keys, |keys| - 1)
    ensures Ordered(keys)
  {}

  lemma Shorter(keys: seq<int>)
    requires Ordered(keys) && |keys| > 0
    ensures Ordered(keys[..|keys| - 1])
  {
    var next := keys[..|keys| - 1];
    forall j | 0 < j < |next| ensures Pair(next, j) {
      assert Pair(keys, j);
    }
  }

  lemma Replaced(keys: seq<int>, i: int)
    requires Ordered(keys) && 0 <= i < |keys| - 1
    ensures OrderedBut(keys[..|keys| - 1][i := keys[|keys| - 1]], i)
  {
    var next := keys[..|keys| - 1][i := keys[|keys| - 1]];
    forall j | 0 < j < |next| && j != i && Parent(j) != i ensures Pair(next, j) {
      assert Pair(keys, j);
    }
    forall j | 0 < i < j < |next| && Parent(j) == i ensures next[Parent(i)] <= next[j] {
      assert Pair(keys, j) && Pair(keys, i);
    }
  }
}
