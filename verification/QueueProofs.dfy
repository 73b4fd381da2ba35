/** What every reachable state of the queue protocol satisfies. */
module QueueProofs {
  import opened Prelude
  import opened QueueProtocol

  /** A thread whose next steps will hand an element on, or will look at the queue again. */
  predicate Outstanding<T>(p: Pc<T>) {
    p.Pushed? || p.Unlocked? || p.Woken? || p.Testing? || p.Taking?
  }

  function Helpers<T>(pc: map<Tid, Pc<T>>): set<Tid> {
    set t | t in pc && Outstanding(pc[t])
  }

  /** Producers between `unlock` and `notify_one`, and consumers woken but not yet holding the mutex. */
  function InFlight<T>(pc: map<Tid, Pc<T>>): set<Tid> {
    set t | t in pc && (pc[t].Unlocked? || pc[t].Woken?)
  }

  ghost predicate MutualExclusion<T>(s: State<T>) {
    && (s.mutex.Some? ==> s.mutex.value in s.pc)
    && forall t <- s.pc :: Holds(s.pc[t]) <==> s.mutex == Some(t)
  }

  ghost predicate TakersHaveElements<T>(s: State<T>) {
    forall t <- s.pc :: s.pc[t].Taking? ==> s.queue != []
  }

  ghost predicate NoLostWakeup<T>(s: State<T>) {
    Waiters(s.pc) != {} ==> |s.queue| <= |Helpers(s.pc)|
  }

  ghost predicate CallsInOrder<T>(s: State<T>) {
    forall t <- s.pc :: PendingOf(s.trace, t) == Some(PendingAt(s.pc[t]))
  }

  ghost predicate ActorsKnown<T>(s: State<T>) {
    forall a <- s.trace :: a.t in s.pc
  }

  ghost predicate Inv<T>(s: State<T>) {
    && MutualExclusion(s)
    && ActorsKnown(s)
    && TakersHaveElements(s)
    && NoLostWakeup(s)
    && CallsInOrder(s)
    && Serial(s.capacity, s.trace) == Some(s.queue)
    && |s.queue| <= s.capacity % SIZE_MODULUS
  }

  // ------------------------------------------------------------------ one step

  lemma SetsAfter<T>(pc: map<Tid, Pc<T>>, t: Tid, p: Pc<T>)
    requires t in pc
    ensures Helpers(pc[t := p]) == if Outstanding(p) then Helpers(pc) + {t} else Helpers(pc) - {t}
    ensures Waiters(pc[t := p]) == if p.Blocked? then Waiters(pc) + {t} else Waiters(pc) - {t}
  {
  }

  lemma HelpersAfter<T>(pc: map<Tid, Pc<T>>, t: Tid, p: Pc<T>)
    requires t in pc
    ensures Waiters(pc[t := p]) == if p.Blocked? then Waiters(pc) + {t} else Waiters(pc) - {t}
    ensures |Helpers(pc[t := p])| ==
            |Helpers(pc)| + (if Outstanding(p) then 1 else 0) - (if Outstanding(pc[t]) then 1 else 0)
  {
    SetsAfter(pc, t, p);
    var before, after := Helpers(pc), Helpers(pc[t := p]);
    assert t in before <==> Outstanding(pc[t]);
    if Outstanding(p) {
      assert |before + {t}| == |before| + (if t in before then 0 else 1);
    } else {
      assert |before - {t}| == |before| - (if t in before then 1 else 0);
    }
  }

  lemma Appended<T>(capacity: int, h: seq<Act<T>>, a: Act<T>)
    ensures Serial(capacity, h + [a]) ==
            (if a.Effect? && Serial(capacity, h).Some?
             then SerialStep(capacity, Serial(capacity, h).value, a.op, a.reply) else Serial(capacity, h))
    ensures forall u: Tid :: u != a.t ==> PendingOf(h + [a], u) == PendingOf(h, u)
  {
    assert (h + [a])[..|h|] == h;
  }

  lemma PendingAppended<T>(h: seq<Act<T>>, a: Act<T>)
    requires PendingOf(h, a.t).Some?
    ensures PendingOf(h + [a], a.t) == NextPending(PendingOf(h, a.t).value, a)
  {
    assert (h + [a])[..|h|] == h;
  }

  lemma StepMutex<T>(s: State<T>, l: Label<T>)
    requires MutualExclusion(s) && TakersHaveElements(s) && Enabled(s, l)
    ensures MutualExclusion(Step(s, l)) && TakersHaveElements(Step(s, l))
  {
  }

  /** Only `Notify` touches a second thread. */
  lemma OwnPcOnly<T>(s: State<T>, t: Tid)
    requires Enabled(s, Advance(t))
    ensures Advanced(s, t).pc == s.pc[t := Advanced(s, t).pc[t]]
    ensures Advanced(s, t).capacity == s.capacity
  {
  }

  /** An element enters the queue only with a thread that will wake somebody for it. */
  lemma AdvanceBalance<T>(s: State<T>, t: Tid)
    requires Enabled(s, Advance(t))
    ensures var s' := Advanced(s, t);
            && t in s'.pc
            && (s'.pc[t].Blocked? ==> s'.queue == [])
            && (s'.queue == [] ||
                |s'.queue| - |s.queue| <=
                (if Outstanding(s'.pc[t]) then 1 else 0) - (if Outstanding(s.pc[t]) then 1 else 0))
  {
  }

  lemma AdvanceWakeup<T>(s: State<T>, t: Tid)
    requires NoLostWakeup(s) && Enabled(s, Advance(t))
    ensures NoLostWakeup(Advanced(s, t))
  {
    OwnPcOnly(s, t);
    AdvanceBalance(s, t);
    HelpersAfter(s.pc, t, Advanced(s, t).pc[t]);
  }

  lemma StepWakeup<T>(s: State<T>, l: Label<T>)
    requires NoLostWakeup(s) && Enabled(s, l)
    ensures NoLostWakeup(Step(s, l))
  {
    match l
    case Call(t, op) => HelpersAfter(s.pc, t, WantsLock(op));
    case Wake(t, timedOut) => HelpersAfter(s.pc, t, Woken(timedOut));
    case Advance(t) => AdvanceWakeup(s, t);
    case Notify(t, woken, late) =>
      var done := Leaving(TryEnqueue(s.pc[t].element), Accepted(true), false);
      if woken.Some? {
        HelpersAfter(s.pc, woken.value, Woken(late));
        HelpersAfter(s.pc[woken.value := Woken(late)], t, done);
      } else {
        HelpersAfter(s.pc, t, done);
      }
  }

  /** A step that leaves the history alone leaves every call where it was, and the queue as it was. */
  lemma SilentStep<T>(s: State<T>, l: Label<T>)
    requires Enabled(s, l) && Step(s, l).trace == s.trace
    ensures Step(s, l).queue == s.queue && Step(s, l).capacity == s.capacity
    ensures Step(s, l).pc.Keys == s.pc.Keys
    ensures forall t <- s.pc :: PendingAt(Step(s, l).pc[t]) == PendingAt(s.pc[t])
  {
    var n := |s.trace|;
    assert forall a: Act<T> :: |s.trace + [a]| == n + 1;
  }

  /** A step that acts appends one act of its own thread: the next of its call, and the FIFO's. */
  lemma ActOf<T>(s: State<T>, l: Label<T>) returns (a: Act<T>)
    requires Enabled(s, l) && Step(s, l).trace != s.trace
    ensures var s' := Step(s, l);
      && s'.trace == s.trace + [a] && a.t == l.t
      && s'.pc == s.pc[l.t := s'.pc[l.t]] && s'.capacity == s.capacity
      && NextPending(PendingAt(s.pc[l.t]), a) == Some(PendingAt(s'.pc[l.t]))
      && (if a.Effect? then SerialStep(s.capacity, s.queue, a.op, a.reply) == Some(s'.queue) else s'.queue == s.queue)
  {
    a := Step(s, l).trace[|s.trace|];
  }

  lemma ActingStep<T>(s: State<T>, l: Label<T>) returns (a: Act<T>)
    requires Serial(s.capacity, s.trace) == Some(s.queue)
    requires Enabled(s, l) && Step(s, l).trace != s.trace
    requires PendingOf(s.trace, l.t) == Some(PendingAt(s.pc[l.t]))
    ensures Step(s, l).trace == s.trace + [a] && a.t == l.t
    ensures Step(s, l).pc == s.pc[l.t := Step(s, l).pc[l.t]] && Step(s, l).capacity == s.capacity
    ensures PendingOf(s.trace + [a], l.t) == Some(PendingAt(Step(s, l).pc[l.t]))
    ensures Serial(s.capacity, s.trace + [a]) == Some(Step(s, l).queue)
  {
    a := ActOf(s, l);
    Appended(s.capacity, s.trace, a);
    PendingAppended(s.trace, a);
  }

  lemma StepHistory<T>(s: State<T>, l: Label<T>)
    requires TakersHaveElements(s) && Serial(s.capacity, s.trace) == Some(s.queue) && CallsInOrder(s)
    requires Enabled(s, l)
    ensures CallsInOrder(Step(s, l))
    ensures Serial(Step(s, l).capacity, Step(s, l).trace) == Some(Step(s, l).queue)
  {
    if Step(s, l).trace == s.trace {
      SilentStep(s, l);
    } else {
      var a := ActingStep(s, l);
      Appended(s.capacity, s.trace, a);
    }
  }

  lemma StepActors<T>(s: State<T>, l: Label<T>)
    requires ActorsKnown(s) && Enabled(s, l)
    ensures ActorsKnown(Step(s, l))
  {
    if Step(s, l).trace == s.trace {
      SilentStep(s, l);
    } else {
      var a := ActOf(s, l);
    }
  }

  lemma StepBound<T>(s: State<T>, l: Label<T>)
    requires |s.queue| <= s.capacity % SIZE_MODULUS && Enabled(s, l)
    ensures |Step(s, l).queue| <= Step(s, l).capacity % SIZE_MODULUS
  {
  }

  lemma StepKeepsInv<T>(s: State<T>, l: Label<T>)
    requires Inv(s) && Enabled(s, l)
    ensures Inv(Step(s, l))
  {
    StepMutex(s, l);
    StepWakeup(s, l);
    StepHistory(s, l);
    StepActors(s, l);
    StepBound(s, l);
  }

  lemma {:induction false} RunKeepsInv<T>(s: State<T>, labels: seq<Label<T>>)
    requires Inv(s) && IsRun(s, labels)
    ensures Inv(After(s, labels))
    decreases labels
  {
    if labels != [] {
      StepKeepsInv(s, labels[0]);
      RunKeepsInv(Step(s, labels[0]), labels[1..]);
    }
  }

  lemma InitialInv<T>(capacity: int, threads: set<Tid>)
    ensures Inv(Initial<T>(capacity, threads))
  {
    var s := Initial<T>(capacity, threads);
    assert Waiters(s.pc) == {};
  }

  // ------------------------------------------------------------------ whole runs

  ghost predicate Reachable<T(!new)>(s: State<T>) {
    exists capacity: int, threads: set<Tid>, labels: seq<Label<T>> ::
      IsRun(Initial(capacity, threads), labels) && s == After(Initial(capacity, threads), labels)
  }

  lemma {:induction false} OneMoreStep<T>(s: State<T>, labels: seq<Label<T>>, l: Label<T>)
    requires IsRun(s, labels) && Enabled(After(s, labels), l)
    ensures IsRun(s, labels + [l]) && After(s, labels + [l]) == Step(After(s, labels), l)
    decreases labels
  {
    if labels != [] {
      OneMoreStep(Step(s, labels[0]), labels[1..], l);
      assert (labels + [l])[1..] == labels[1..] + [l];
    } else {
      assert [l][1..] == [];
    }
  }

  lemma StepReachable<T(!new)>(s: State<T>, l: Label<T>)
    requires Reachable(s) && Enabled(s, l)
    ensures Reachable(Step(s, l))
  {
    var capacity: int, threads: set<Tid>, labels: seq<Label<T>> :|
      IsRun(Initial(capacity, threads), labels) && s == After(Initial(capacity, threads), labels);
    OneMoreStep(Initial(capacity, threads), labels, l);
  }

  lemma InitialReachable<T(!new)>(capacity: int, threads: set<Tid>)
    ensures Reachable(Initial<T>(capacity, threads))
  {
    var none: seq<Label<T>> := [];
    assert IsRun(Initial<T>(capacity, threads), none);
    assert After(Initial<T>(capacity, threads), none) == Initial<T>(capacity, threads);
  }

  lemma ReachableInv<T(!new)>(s: State<T>)
    requires Reachable(s)
    ensures Inv(s)
  {
    var capacity: int, threads: set<Tid>, labels: seq<Label<T>> :|
      IsRun(Initial(capacity, threads), labels) && s == After(Initial(capacity, threads), labels);
    InitialInv<T>(capacity, threads);
    RunKeepsInv(Initial(capacity, threads), labels);
  }

  /**
    Whatever the interleaving, the replies are those of a sequential bounded FIFO.  A negative capacity
    refuses nothing until the queue is as long as the 64-bit value it is converted to.
   */
  lemma RepliesAreTheFifos<T(!new)>(s: State<T>)
    requires Reachable(s)
    ensures Serial(s.capacity, s.trace) == Some(s.queue)
    ensures forall a <- s.trace :: a.t in s.pc
    ensures forall t <- s.pc :: PendingOf(s.trace, t).Some?
    ensures 0 <= s.capacity < SIZE_MODULUS ==> |s.queue| <= s.capacity
    ensures 0 <= SIZE_MODULUS + s.capacity < SIZE_MODULUS ==> |s.queue| <= SIZE_MODULUS + s.capacity
  {
    ReachableInv(s);
    if 0 <= SIZE_MODULUS + s.capacity && s.capacity < SIZE_MODULUS {
      ConvertedCapacity(|s.queue|, s.capacity);
    }
  }

  /** How many elements a capacity lets in. */
  lemma ConvertedCapacity(size: nat, capacity: int)
    requires 0 <= SIZE_MODULUS + capacity && capacity < SIZE_MODULUS
    ensures Full(size, capacity) <==> size >= if capacity < 0 then SIZE_MODULUS + capacity else capacity
    ensures capacity % SIZE_MODULUS == if capacity < 0 then SIZE_MODULUS + capacity else capacity
  {
    if capacity < 0 {
      assert (SIZE_MODULUS + capacity) % SIZE_MODULUS == capacity % SIZE_MODULUS;
    }
  }

  /** The assertion of line 46, and no front() of an empty queue, in every state whatever. */
  lemma TakersNeverFindItEmpty<T(!new)>(s: State<T>)
    requires Reachable(s)
    ensures forall t <- s.pc :: s.pc[t].Taking? ==> s.queue != []
  {
    ReachableInv(s);
  }

  lemma PrefixPending<T>(h: seq<Act<T>>, t: Tid, n: nat)
    requires n <= |h| && PendingOf(h, t).Some?
    ensures PendingOf(h[..n], t).Some?
  {
    if n < |h| {
      assert h[..|h| - 1][..n] == h[..n];
      PrefixPending(h[..|h| - 1], t, n);
    } else {
      assert h[..n] == h;
    }
  }

  ghost predicate SilentBetween<T>(h: seq<Act<T>>, t: Tid, from: int, to: int) {
    forall n | from < n < to && 0 <= n < |h| :: h[n].t != t
  }

  /** Where the call in progress was made, and where it took effect. */
  lemma {:induction false} PendingSince<T>(h: seq<Act<T>>, t: Tid) returns (called: int, decided: int)
    requires PendingOf(h, t).Some? && PendingOf(h, t) != Some(Quiet)
    ensures PendingOf(h, t).value.Called? ==>
              0 <= called < |h| && h[called] == Invoke(t, PendingOf(h, t).value.op) && SilentBetween(h, t, called, |h|)
    ensures PendingOf(h, t).value.Answered? ==>
              var p := PendingOf(h, t).value;
              && 0 <= called < decided < |h|
              && h[called] == Invoke(t, p.op) && h[decided] == Effect(t, p.op, p.reply)
              && SilentBetween(h, t, called, decided) && SilentBetween(h, t, decided, |h|)
  {
    var rest, a := h[..|h| - 1], h[|h| - 1];
    if a.t != t {
      called, decided := PendingSince(rest, t);
    } else if a.Invoke? {
      called, decided := |h| - 1, |h|;
    } else {
      called, decided := PendingSince(rest, t);
      decided := |h| - 1;
    }
  }

  /** Act `called` of the history calls `op`, act `decided` is its effect; its thread does nothing in between. */
  ghost predicate TakesEffect<T(!new)>(h: seq<Act<T>>, called: int, decided: int) {
    && 0 <= called < decided < |h| && h[decided].Effect?
    && h[called] == Invoke(h[decided].t, h[decided].op)
    && SilentBetween(h, h[decided].t, called, decided)
  }

  /** Act `decided` is the effect of the call that returns with act `returned`. */
  ghost predicate Returns<T(!new)>(h: seq<Act<T>>, decided: int, returned: int) {
    && 0 <= decided < returned < |h| && h[decided].Effect?
    && h[returned] == Return(h[decided].t, h[decided].reply)
    && SilentBetween(h, h[decided].t, decided, returned)
  }

  /** Every effect is that of a call made before. */
  lemma EffectHasCall<T(!new)>(s: State<T>, k: nat) returns (called: int)
    requires Reachable(s) && k < |s.trace| && s.trace[k].Effect?
    ensures TakesEffect(s.trace, called, k)
  {
    RepliesAreTheFifos(s);
    var h, t := s.trace, s.trace[k].t;
    assert h[k] in h;
    PrefixPending(h, t, k + 1);
    assert h[..k + 1][..k] == h[..k];
    var decided;
    called, decided := PendingSince(h[..k], t);
  }

  /** The effect of a call lies between its invocation and its return. */
  lemma EffectInsideCall<T(!new)>(s: State<T>, i: nat) returns (called: int, decided: int)
    requires Reachable(s) && i < |s.trace| && s.trace[i].Return?
    ensures TakesEffect(s.trace, called, decided) && Returns(s.trace, decided, i)
  {
    RepliesAreTheFifos(s);
    var h, t := s.trace, s.trace[i].t;
    assert h[i] in h;
    PrefixPending(h, t, i + 1);
    assert h[..i + 1][..i] == h[..i];
    called, decided := PendingSince(h[..i], t);
  }

  /**
    A call that returned before another was made took effect before it: of a return at `i` and an effect at
    `k` whose call came later than `i`, the first call's effect is the earlier.  With `RepliesAreTheFifos`,
    this is linearizability.
   */
  lemma RealTimeOrder<T(!new)>(s: State<T>, i: nat, k: nat) returns (decided: int, called: int)
    requires Reachable(s)
    requires i < |s.trace| && s.trace[i].Return? && k < |s.trace| && s.trace[k].Effect?
    ensures Returns(s.trace, decided, i) && TakesEffect(s.trace, called, k)
    ensures i < called ==> decided < k
  {
    var first;
    first, decided := EffectInsideCall(s, i);
    called := EffectHasCall(s, k);
  }

  lemma PrefixSerial<T>(capacity: int, h: seq<Act<T>>, n: nat)
    requires n <= |h| && Serial(capacity, h).Some?
    ensures Serial(capacity, h[..n]).Some?
  {
    if n < |h| {
      assert h[..|h| - 1][..n] == h[..n];
      PrefixSerial(capacity, h[..|h| - 1], n);
    } else {
      assert h[..n] == h;
    }
  }

  /** `false` exactly when full, `nullopt` exactly when empty, otherwise the oldest element. */
  lemma ReplyTellsTheQueue<T(!new)>(s: State<T>, i: nat) returns (q: seq<T>)
    requires Reachable(s) && i < |s.trace| && s.trace[i].Effect?
    ensures Serial(s.capacity, s.trace[..i]) == Some(q)
    ensures match s.trace[i].op {
              case TryEnqueue(_) => s.trace[i].reply == Accepted(!Full(|q|, s.capacity))
              case WaitDequeue => s.trace[i].reply == Delivered(if q == [] then None else Some(q[0]))
            }
  {
    RepliesAreTheFifos(s);
    PrefixSerial(s.capacity, s.trace, i);
    PrefixSerial(s.capacity, s.trace, i + 1);
    assert s.trace[..i + 1][..i] == s.trace[..i];
    q := Serial(s.capacity, s.trace[..i]).value;
  }

  lemma ConservesNext<T>(accepted: seq<T>, delivered: seq<T>, q: seq<T>, q': seq<T>, a: Act<T>, capacity: int)
    requires accepted == delivered + q
    requires if a.Effect? then SerialStep(capacity, q, a.op, a.reply) == Some(q') else q' == q
    ensures accepted + AcceptedNow(a) == (delivered + DeliveredNow(a)) + q'
  {
  }

  lemma {:induction false} SerialConserves<T>(capacity: int, h: seq<Act<T>>)
    requires Serial(capacity, h).Some?
    ensures AcceptedIn(h) == DeliveredIn(h) + Serial(capacity, h).value
  {
    if h != [] {
      var rest, a := h[..|h| - 1], h[|h| - 1];
      SerialConserves(capacity, rest);
      ConservesNext(AcceptedIn(rest), DeliveredIn(rest), Serial(capacity, rest).value,
                    Serial(capacity, h).value, a, capacity);
    }
  }

  /** Nothing is lost, duplicated or reordered. */
  lemma Conservation<T(!new)>(s: State<T>)
    requires Reachable(s)
    ensures AcceptedIn(s.trace) == DeliveredIn(s.trace) + s.queue
  {
    ReachableInv(s);
    SerialConserves(s.capacity, s.trace);
  }

  /**
    While a consumer sleeps un-notified, every queued element is somebody's business: with the mutex free,
    a producer that has yet to notify or a woken consumer that has yet to take the mutex.
   */
  lemma WaitersAreOwedNothing<T(!new)>(s: State<T>)
    requires Reachable(s) && Waiters(s.pc) != {}
    ensures |s.queue| <= |Helpers(s.pc)|
    ensures s.mutex.None? ==> |s.queue| <= |InFlight(s.pc)|
    ensures s.mutex.None? && InFlight(s.pc) == {} ==> s.queue == []
  {
    ReachableInv(s);
    if s.mutex.None? {
      assert Helpers(s.pc) == InFlight(s.pc);
    }
  }

  /** No thread has a step of its own to take. */
  ghost predicate Stuck<T>(s: State<T>) {
    && (forall t: Tid :: !Enabled(s, Advance(t)))
    && (forall t: Tid, woken: Option<Tid>, late: bool :: !Enabled(s, Notify(t, woken, late)))
  }

  lemma HolderMoves<T>(s: State<T>)
    requires MutualExclusion(s) && TakersHaveElements(s) && s.mutex.Some?
    ensures Enabled(s, Advance(s.mutex.value))
  {
  }

  lemma NotifierMoves<T>(s: State<T>, t: Tid) returns (woken: Option<Tid>)
    requires t in s.pc && s.pc[t].Unlocked?
    ensures Enabled(s, Notify(t, woken, false))
  {
    woken := if Waiters(s.pc) == {} then None else var w :| w in Waiters(s.pc); Some(w);
  }

  /**
    No deadlock, and no front() of an empty queue: when nobody can move, every thread is idle or
    waiting, and one waits only if there is nothing to take.
   */
  lemma StuckMeansNothingToDo<T(!new)>(s: State<T>)
    requires Reachable(s) && Stuck(s)
    ensures forall t <- s.pc :: s.pc[t].Idle? || s.pc[t].Blocked?
    ensures Waiters(s.pc) != {} ==> s.queue == []
  {
    ReachableInv(s);
    if s.mutex.Some? {
      HolderMoves(s);
      assert false;
    }
    forall t | t in s.pc ensures s.pc[t].Idle? || s.pc[t].Blocked? {
      assert !Enabled(s, Advance(t));
      if s.pc[t].Unlocked? {
        var woken := NotifierMoves(s, t);
        assert false;
      }
    }
    if Waiters(s.pc) != {} {
      assert s.mutex.None? && InFlight(s.pc) == {};
      WaitersAreOwedNothing(s);
    }
  }
}
