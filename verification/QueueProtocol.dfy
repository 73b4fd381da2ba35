/**
  app/common/ThreadsafeQueue.hpp as a step system.

  Any finite set of threads calls `try_enqueue` and `wait_dequeue_timed` on one queue.  A step is one
  thread's work between two points where another thread can observe a difference: taking the mutex, the
  work under it, releasing it, notifying, returning.  The condition variable may wake a waiter without a
  notification, and the wait may time out at any moment.
 */
module QueueProtocol {
  import opened Prelude

  type Tid = nat

  /** `size_t` has 64 bits; an `int` compared with it is converted modulo this. */
  const SIZE_MODULUS: nat := 0x1_0000_0000_0000_0000

  /** What `queue.size() >= m_capacity` decides: a negative capacity becomes a huge one. */
  predicate Full(size: nat, capacity: int) {
    size >= capacity % SIZE_MODULUS
  }

  datatype Op<T> = TryEnqueue(element: T) | WaitDequeue

  datatype Reply<T> = Accepted(ok: bool) | Delivered(element: Option<T>)

  /** The observable history: calls, the instant each call takes effect, and returns. */
  datatype Act<T> =
    | Invoke(t: Tid, op: Op<T>)
    | Effect(t: Tid, op: Op<T>, reply: Reply<T>)
    | Return(t: Tid, reply: Reply<T>)

  /** Where a thread is. `Locked`, `Pushed`, `Looking`, `Testing` and `Taking` hold the mutex. */
  datatype Pc<T> =
    | Idle
    | WantsLock(op: Op<T>)                       // lines 21 and 33
    | Locked(element: T)                         // line 22
    | Pushed(element: T)                         // line 26
    | Unlocked(element: T)                       // line 27: unlocked, not yet notified
    | Looking                                    // line 34
    | Testing(timedOut: bool)                    // line 40: the predicate of wait_for
    | Blocked                                    // line 39: waiting, mutex released
    | Woken(timedOut: bool)                      // line 39: re-acquiring the mutex
    | Taking                                     // lines 35 and 46
    | Leaving(op: Op<T>, reply: Reply<T>, locked: bool)

  predicate Holds<T>(p: Pc<T>) {
    p.Locked? || p.Pushed? || p.Looking? || p.Testing? || p.Taking? || (p.Leaving? && p.locked)
  }

  datatype State<T> = State(
    capacity: int,
    queue: seq<T>,
    mutex: Option<Tid>,
    pc: map<Tid, Pc<T>>,
    trace: seq<Act<T>>)

  /** `Advance` is the thread's only next action; the others carry a choice the code does not make. */
  datatype Label<T> =
    | Call(t: Tid, op: Op<T>)
    | Advance(t: Tid)
    | Notify(t: Tid, woken: Option<Tid>, late: bool)
    | Wake(t: Tid, timedOut: bool)

  function Initial<T>(capacity: int, threads: set<Tid>): State<T> {
    State(capacity, [], None, map t | t in threads :: Idle, [])
  }

  function Waiters<T>(pc: map<Tid, Pc<T>>): set<Tid> {
    set t | t in pc && pc[t].Blocked?
  }

  predicate Enabled<T>(s: State<T>, l: Label<T>) {
    && l.t in s.pc
    && match l {
      case Call(t, _) => s.pc[t].Idle?
      case Advance(t) =>
        var p := s.pc[t];
        && !p.Idle? && !p.Unlocked? && !p.Blocked?
        && (p.WantsLock? || p.Woken? ==> s.mutex.None?)
        && (p.Taking? ==> s.queue != [])         // otherwise front() and pop() are undefined
      case Notify(t, woken, _) =>
        && s.pc[t].Unlocked?
        && (if Waiters(s.pc) == {} then woken.None? else woken.Some? && woken.value in Waiters(s.pc))
      case Wake(t, _) => s.pc[t].Blocked?
    }
  }

  function Step<T>(s: State<T>, l: Label<T>): State<T>
    requires Enabled(s, l)
  {
    var t := l.t;
    match l
    case Call(_, op) => s.(pc := s.pc[t := WantsLock(op)], trace := s.trace + [Invoke(t, op)])
    case Wake(_, timedOut) => s.(pc := s.pc[t := Woken(timedOut)])
    case Notify(_, woken, late) =>
      var rest := if woken.Some? then s.pc[woken.value := Woken(late)] else s.pc;
      s.(pc := rest[t := Leaving(TryEnqueue(s.pc[t].element), Accepted(true), false)])
    case Advance(_) => Advanced(s, t)
  }

  function Advanced<T>(s: State<T>, t: Tid): State<T>
    requires Enabled(s, Advance(t))
  {
    match s.pc[t]
    case WantsLock(TryEnqueue(x)) => s.(mutex := Some(t), pc := s.pc[t := Locked(x)])
    case WantsLock(WaitDequeue) => s.(mutex := Some(t), pc := s.pc[t := Looking])
    case Locked(x) =>
      if Full(|s.queue|, s.capacity) then
        Decide(s, t, TryEnqueue(x), Accepted(false))
      else
        s.(queue := s.queue + [x], pc := s.pc[t := Pushed(x)],
           trace := s.trace + [Effect(t, TryEnqueue(x), Accepted(true))])
    case Pushed(x) => s.(mutex := None, pc := s.pc[t := Unlocked(x)])
    case Looking => s.(pc := s.pc[t := if s.queue != [] then Taking else Testing(false)])
    case Testing(timedOut) =>
      if s.queue != [] then s.(pc := s.pc[t := Taking])
      else if timedOut then Decide(s, t, WaitDequeue, Delivered(None))
      else s.(mutex := None, pc := s.pc[t := Blocked])
    case Woken(timedOut) => s.(mutex := Some(t), pc := s.pc[t := Testing(timedOut)])
    case Taking => Decide(s.(queue := s.queue[1..]), t, WaitDequeue, Delivered(Some(s.queue[0])))
    case Leaving(_, reply, locked) =>
      s.(mutex := if locked then None else s.mutex, pc := s.pc[t := Idle],
         trace := s.trace + [Return(t, reply)])
  }

  /** The call has its answer and is about to return, still holding the mutex. */
  function Decide<T>(s: State<T>, t: Tid, op: Op<T>, reply: Reply<T>): State<T> {
    s.(pc := s.pc[t := Leaving(op, reply, true)], trace := s.trace + [Effect(t, op, reply)])
  }

  /** Every label of a run is enabled where it is taken. */
  predicate IsRun<T>(s: State<T>, labels: seq<Label<T>>)
    decreases labels
  {
    labels == [] || (Enabled(s, labels[0]) && IsRun(Step(s, labels[0]), labels[1..]))
  }

  function After<T>(s: State<T>, labels: seq<Label<T>>): State<T>
    requires IsRun(s, labels)
    decreases labels
  {
    if labels == [] then s else After(Step(s, labels[0]), labels[1..])
  }

  // ------------------------------------------------------------------ the sequential bounded FIFO

  /** One call on a queue nobody else uses; `None` when the reply is not the FIFO's. */
  function SerialStep<T(==)>(capacity: int, q: seq<T>, op: Op<T>, reply: Reply<T>): Option<seq<T>> {
    match (op, reply)
    case (TryEnqueue(x), Accepted(ok)) =>
      if ok == Full(|q|, capacity) then None else if ok then Some(q + [x]) else Some(q)
    case (WaitDequeue, Delivered(None)) => if q == [] then Some(q) else None
    case (WaitDequeue, Delivered(Some(x))) => if q != [] && q[0] == x then Some(q[1..]) else None
    case _ => None
  }

  /** The FIFO's content after the effects of a history, or `None` if some reply was not its own. */
  function Serial<T(==)>(capacity: int, h: seq<Act<T>>): Option<seq<T>> {
    if h == [] then Some([])
    else
      var before := Serial(capacity, h[..|h| - 1]);
      var a := h[|h| - 1];
      if a.Effect? && before.Some? then SerialStep(capacity, before.value, a.op, a.reply) else before
  }

  /** One thread's calls: nothing pending, called, or answered but not returned. */
  datatype Pending<T> = Quiet | Called(op: Op<T>) | Answered(op: Op<T>, reply: Reply<T>)

  /** A thread acts in the order call, effect, return; `None` out of that order. */
  function NextPending<T(==)>(p: Pending<T>, a: Act<T>): Option<Pending<T>> {
    match (a, p)
    case (Invoke(_, op), Quiet) => Some(Called(op))
    case (Effect(_, op, reply), Called(called)) => if op == called then Some(Answered(op, reply)) else None
    case (Return(_, reply), Answered(_, answer)) => if reply == answer then Some(Quiet) else None
    case _ => None
  }

  /** Thread `t` after a history, or `None` once it has acted out of order. */
  function PendingOf<T(==)>(h: seq<Act<T>>, t: Tid): Option<Pending<T>> {
    if h == [] then Some(Quiet)
    else
      var before := PendingOf(h[..|h| - 1], t);
      var a := h[|h| - 1];
      if a.t != t || before.None? then before else NextPending(before.value, a)
  }

  /** What the program counter says about the call in progress. */
  function PendingAt<T>(p: Pc<T>): Pending<T> {
    match p
    case Idle => Quiet
    case WantsLock(op) => Called(op)
    case Locked(x) => Called(TryEnqueue(x))
    case Pushed(x) => Answered(TryEnqueue(x), Accepted(true))
    case Unlocked(x) => Answered(TryEnqueue(x), Accepted(true))
    case Leaving(op, reply, _) => Answered(op, reply)
    case _ => Called(WaitDequeue)
  }

  function AcceptedNow<T>(a: Act<T>): seq<T> {
    if a.Effect? && a.op.TryEnqueue? && a.reply.Accepted? && a.reply.ok then [a.op.element] else []
  }

  function DeliveredNow<T>(a: Act<T>): seq<T> {
    if a.Effect? && a.reply.Delivered? && a.reply.element.Some? then [a.reply.element.value] else []
  }

  /** Elements whose enqueue was accepted, in order of effect. */
  function AcceptedIn<T>(h: seq<Act<T>>): seq<T> {
    if h == [] then [] else AcceptedIn(h[..|h| - 1]) + AcceptedNow(h[|h| - 1])
  }

  /** Elements handed to consumers, in order of effect. */
  function DeliveredIn<T>(h: seq<Act<T>>): seq<T> {
    if h == [] then [] else DeliveredIn(h[..|h| - 1]) + DeliveredNow(h[|h| - 1])
  }
}
