/** The two methods of the queue, cut where another thread can run, proved against the step system. */
module ThreadsafeQueues {
  import opened Prelude
  import opened QueueProtocol
  import opened QueueProofs

  class ThreadsafeQueue<T(==, !new)> {
    const capacity: int
    var queue: seq<T>
    var mtx: Option<Tid>
    var pc: map<Tid, Pc<T>>
    ghost var trace: seq<Act<T>>

    ghost function View(): State<T>
      reads this
    {
      State(capacity, queue, mtx, pc, trace)
    }

    /** The state is one a run of the protocol reaches, so what `QueueProofs` says holds of it. */
    ghost predicate Valid()
      reads this
    {
      Reachable(View())
    }

    constructor (capacity: int, threads: set<Tid>)
      ensures Valid() && View() == Initial(capacity, threads)
    {
      this.capacity := capacity;
      queue, mtx, trace := [], None, [];
      pc := map t | t in threads :: Idle;
      InitialReachable<T>(capacity, threads);
    }

    /** A thread enters `try_enqueue` or `wait_dequeue_timed`. */
    method Begin(t: Tid, op: Op<T>)
      requires Valid() && t in pc && pc[t].Idle?
      modifies this
      ensures Valid() && View() == Step(old(View()), Call(t, op))
    {
      StepReachable(View(), Call(t, op));
      pc := pc[t := WantsLock(op)];
      trace := trace + [Invoke(t, op)];
    }

    /** `std::unique_lock` takes the free mutex; a woken waiter takes it again inside `wait_for`. */
    method Lock(t: Tid)
      requires Valid() && t in pc && (pc[t].WantsLock? || pc[t].Woken?) && mtx.None?
      modifies this
      ensures Valid() && View() == Step(old(View()), Advance(t))
      ensures mtx == Some(t) && queue == old(queue)
      ensures old(pc[t]).Woken? ==> pc[t] == Testing(old(pc[t]).timedOut)
      ensures old(pc[t]).WantsLock? ==> pc[t].Looking? || pc[t] == Locked(old(pc[t]).op.element)
      ensures pc[t].Looking? <==> old(pc[t]) == WantsLock(WaitDequeue)
    {
      StepReachable(View(), Advance(t));
      mtx := Some(t);
      match pc[t] {
        case WantsLock(TryEnqueue(x)) => pc := pc[t := Locked(x)];
        case WantsLock(WaitDequeue) => pc := pc[t := Looking];
        case Woken(timedOut) => pc := pc[t := Testing(timedOut)];
      }
    }

    /** Lines 22 to 25. */
    method EnqueueLocked(t: Tid) returns (ok: bool)
      requires Valid() && t in pc && pc[t].Locked?
      modifies this
      ensures Valid() && View() == Step(old(View()), Advance(t))
      ensures ok == !Full(|old(queue)|, capacity)
      ensures queue == if ok then old(queue) + [old(pc[t].element)] else old(queue)
    {
      StepReachable(View(), Advance(t));
      var element := pc[t].element;
      if Full(|queue|, capacity) {
        ok := false;
        pc := pc[t := Leaving(TryEnqueue(element), Accepted(false), true)];
      } else {
        ok := true;
        queue := queue + [element];
        pc := pc[t := Pushed(element)];
      }
      trace := trace + [Effect(t, TryEnqueue(element), Accepted(ok))];
    }

    /** Line 26. */
    method Unlock(t: Tid)
      requires Valid() && t in pc && pc[t].Pushed?
      modifies this
      ensures Valid() && View() == Step(old(View()), Advance(t))
      ensures mtx.None? && queue == old(queue)
    {
      StepReachable(View(), Advance(t));
      mtx := None;
      pc := pc[t := Unlocked(pc[t].element)];
    }

    /** Line 27: one waiter is woken, whichever the system likes, if there is one. */
    method NotifyOne(t: Tid, late: bool) returns (woken: Option<Tid>)
      requires Valid() && t in pc && pc[t].Unlocked?
      modifies this
      ensures Valid()
      ensures Enabled(old(View()), Notify(t, woken, late)) && View() == Step(old(View()), Notify(t, woken, late))
      ensures woken.None? <==> old(Waiters(pc)) == {}
      ensures woken.Some? ==> woken.value in old(Waiters(pc)) && pc[woken.value] == Woken(late)
      ensures Waiters(pc) == old(Waiters(pc)) - (if woken.Some? then {woken.value} else {})
    {
      var waiting := Waiters(pc);
      var element := pc[t].element;
      woken := None;
      if waiting != {} {
        var w :| w in waiting;
        woken := Some(w);
      }
      StepReachable(View(), Notify(t, woken, late));
      if woken.Some? {
        pc := pc[woken.value := Woken(late)];
      }
      pc := pc[t := Leaving(TryEnqueue(element), Accepted(true), false)];
    }

    /** Line 34. */
    method FirstLook(t: Tid)
      requires Valid() && t in pc && pc[t].Looking?
      modifies this
      ensures Valid() && View() == Step(old(View()), Advance(t))
      ensures queue == old(queue)
      ensures pc == old(pc)[t := if queue != [] then Taking else Testing(false)]
    {
      StepReachable(View(), Advance(t));
      pc := pc[t := if queue != [] then Taking else Testing(false)];
    }

    /** Lines 39 to 45: the predicate, tested with the mutex held before every wait and after every wake. */
    method TestPredicate(t: Tid)
      requires Valid() && t in pc && pc[t].Testing?
      modifies this
      ensures Valid() && View() == Step(old(View()), Advance(t))
      ensures queue == old(queue)
      ensures pc[t].Taking? <==> queue != []
      ensures pc[t].Blocked? <==> queue == [] && !old(pc[t].timedOut)
      ensures pc[t] == Leaving(WaitDequeue, Delivered(None), true) <==> queue == [] && old(pc[t].timedOut)
    {
      StepReachable(View(), Advance(t));
      if queue != [] {
        pc := pc[t := Taking];
      } else if pc[t].timedOut {
        pc := pc[t := Leaving(WaitDequeue, Delivered(None), true)];
        trace := trace + [Effect(t, WaitDequeue, Delivered(None))];
      } else {
        mtx := None;
        pc := pc[t := Blocked];
      }
    }

    /** A timeout, or a wake-up nobody asked for. */
    method WakeUnasked(t: Tid, timedOut: bool)
      requires Valid() && t in pc && pc[t].Blocked?
      modifies this
      ensures Valid() && View() == Step(old(View()), Wake(t, timedOut))
    {
      StepReachable(View(), Wake(t, timedOut));
      pc := pc[t := Woken(timedOut)];
    }

    /** Lines 35 to 37 and 46 to 49; the assertion on line 46 is proved, not assumed. */
    method TakeFront(t: Tid) returns (tmp: T)
      requires Valid() && t in pc && pc[t].Taking?
      modifies this
      ensures Enabled(old(View()), Advance(t))
      ensures Valid() && View() == Step(old(View()), Advance(t))
      ensures old(queue) == [tmp] + queue
    {
      TakersNeverFindItEmpty(View());
      ghost var next := Step(View(), Advance(t));
      StepReachable(View(), Advance(t));
      tmp := queue[0];
      queue := queue[1..];
      pc := pc[t := Leaving(WaitDequeue, Delivered(Some(tmp)), true)];
      trace := trace + [Effect(t, WaitDequeue, Delivered(Some(tmp)))];
      assert View() == next;
    }

    /** `return`, which releases the mutex if the lock object still owns it. */
    method Leave(t: Tid) returns (reply: Reply<T>)
      requires Valid() && t in pc && pc[t].Leaving?
      modifies this
      ensures Valid() && View() == Step(old(View()), Advance(t))
      ensures reply == old(pc[t].reply) && pc[t].Idle? && mtx != Some(t) && queue == old(queue)
    {
      ReachableInv(View());
      StepReachable(View(), Advance(t));
      reply := pc[t].reply;
      if pc[t].locked {
        mtx := None;
      }
      pc := pc[t := Idle];
      trace := trace + [Return(t, reply)];
    }
  }
}
