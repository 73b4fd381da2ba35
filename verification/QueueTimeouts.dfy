/** When `wait_dequeue_timed` gives up, and that it then does. */
module QueueTimeouts {
  import opened Prelude
  import opened QueueProtocol
  import opened QueueProofs

  /** The thread was woken late and has yet to look at the queue, or returns with nothing. */
  ghost predicate OutOfTime<T>(p: Pc<T>) {
    || (p.Woken? && p.timedOut)
    || (p.Testing? && p.timedOut)
    || (p.Leaving? && p.reply == Delivered(None))
  }

  /** The wait of `t` ends by its timeout, or by a notification that comes after it. */
  ghost predicate WakesLate<T>(l: Label<T>, t: Tid) {
    l == Wake(t, true) || (l.Notify? && l.woken == Some(t) && l.late)
  }

  /** The state after the first `i` steps of a run. */
  ghost function StateAt<T>(s: State<T>, labels: seq<Label<T>>, i: nat): State<T>
    requires IsRun(s, labels) && i <= |labels|
    decreases i
  {
    if i == 0 then s else StateAt(Step(s, labels[0]), labels[1..], i - 1)
  }

  lemma {:induction false} StateNext<T>(s: State<T>, labels: seq<Label<T>>, i: nat)
    requires IsRun(s, labels) && i < |labels|
    ensures Enabled(StateAt(s, labels, i), labels[i])
    ensures StateAt(s, labels, i + 1) == Step(StateAt(s, labels, i), labels[i])
    decreases i
  {
    if i > 0 {
      StateNext(Step(s, labels[0]), labels[1..], i - 1);
    } else {
      assert StateAt(Step(s, labels[0]), labels[1..], 0) == Step(s, labels[0]);
    }
  }

  lemma {:induction false} StateLast<T>(s: State<T>, labels: seq<Label<T>>)
    requires IsRun(s, labels)
    ensures StateAt(s, labels, |labels|) == After(s, labels)
    decreases labels
  {
    if labels != [] {
      StateLast(Step(s, labels[0]), labels[1..]);
    }
  }

  lemma StepGrows<T>(s: State<T>, l: Label<T>)
    requires Enabled(s, l)
    ensures s.trace <= Step(s, l).trace && |Step(s, l).trace| <= |s.trace| + 1
    ensures Step(s, l).pc.Keys == s.pc.Keys
  {
  }

  lemma {:induction false} TraceGrows<T>(s: State<T>, labels: seq<Label<T>>, i: nat, j: nat)
    requires IsRun(s, labels) && i <= j <= |labels|
    ensures StateAt(s, labels, i).trace <= StateAt(s, labels, j).trace
    ensures StateAt(s, labels, i).pc.Keys == StateAt(s, labels, j).pc.Keys
    decreases j
  {
    if i < j {
      TraceGrows(s, labels, i, j - 1);
      StateNext(s, labels, j - 1);
      StepGrows(StateAt(s, labels, j - 1), labels[j - 1]);
    }
  }

  /** The step that makes act `k` of the history. */
  lemma {:induction false} ActMade<T>(s: State<T>, labels: seq<Label<T>>, k: nat, n: nat) returns (i: nat)
    requires IsRun(s, labels) && n <= |labels|
    requires |s.trace| <= k < |StateAt(s, labels, n).trace|
    ensures i < n && |StateAt(s, labels, i).trace| == k
    ensures StateAt(s, labels, i + 1).trace == StateAt(s, labels, i).trace + [StateAt(s, labels, n).trace[k]]
    decreases n
  {
    StateNext(s, labels, n - 1);
    var before := StateAt(s, labels, n - 1);
    StepGrows(before, labels[n - 1]);
    if k < |before.trace| {
      i := ActMade(s, labels, k, n - 1);
    } else {
      i := n - 1;
      var after := StateAt(s, labels, n).trace;
      assert after == after[..k] + [after[k]];
    }
  }

  /** Where a thread is when it has just called, or just answered with nothing. */
  lemma ActTells<T>(s: State<T>, l: Label<T>, a: Act<T>)
    requires Enabled(s, l) && Step(s, l).trace == s.trace + [a]
    ensures a.t in Step(s, l).pc
    ensures a.Invoke? ==> !OutOfTime(Step(s, l).pc[a.t])
    ensures a.Effect? && a.reply == Delivered(None) ==> OutOfTime(Step(s, l).pc[a.t])
  {
    var a' := ActOf(s, l);
    assert (s.trace + [a])[|s.trace|] == (s.trace + [a'])[|s.trace|];
  }

  /** Nothing but a late wake-up puts a thread out of time. */
  lemma StepOutOfTime<T>(s: State<T>, l: Label<T>, t: Tid)
    requires Enabled(s, l) && t in s.pc && !OutOfTime(s.pc[t])
    ensures t in Step(s, l).pc && (OutOfTime(Step(s, l).pc[t]) ==> WakesLate(l, t))
  {
  }

  lemma {:induction false} OutOfTimeBetween<T>(s: State<T>, labels: seq<Label<T>>, t: Tid, i: nat, j: nat) returns (n: nat)
    requires IsRun(s, labels) && i <= j <= |labels| && t in StateAt(s, labels, i).pc && t in StateAt(s, labels, j).pc
    requires !OutOfTime(StateAt(s, labels, i).pc[t]) && OutOfTime(StateAt(s, labels, j).pc[t])
    ensures i <= n < j && WakesLate(labels[n], t)
    decreases j
  {
    TraceGrows(s, labels, i, j - 1);
    StateNext(s, labels, j - 1);
    if OutOfTime(StateAt(s, labels, j - 1).pc[t]) {
      n := OutOfTimeBetween(s, labels, t, i, j - 1);
    } else {
      n := j - 1;
      StepOutOfTime(StateAt(s, labels, n), labels[n], t);
    }
  }

  /**
    A call of `wait_dequeue_timed` returns nothing only when its time is up: between the call and the effect
    that answers it with nothing, one step wakes its thread late.
   */
  lemma NothingOnlyAfterTimeout<T(!new)>(capacity: int, threads: set<Tid>, labels: seq<Label<T>>, k: nat)
    returns (called: int, n: nat)
    requires IsRun(Initial(capacity, threads), labels)
    requires var h := After(Initial(capacity, threads), labels).trace;
      k < |h| && h[k].Effect? && h[k].reply == Delivered(None)
    ensures var h := After(Initial(capacity, threads), labels).trace;
      && TakesEffect(h, called, k)
      && n < |labels| && WakesLate(labels[n], h[k].t)
      && called < |StateAt(Initial(capacity, threads), labels, n).trace| <= k
  {
    var s := Initial<T>(capacity, threads);
    var last := After(s, labels);
    called := EffectHasCall(last, k);
    StateLast(s, labels);
    var c := ActMade(s, labels, called, |labels|);
    var e := ActMade(s, labels, k, |labels|);
    StateNext(s, labels, c);
    ActTells(StateAt(s, labels, c), labels[c], last.trace[called]);
    StateNext(s, labels, e);
    ActTells(StateAt(s, labels, e), labels[e], last.trace[k]);
    if e < c {
      TraceGrows(s, labels, e, c);
    }
    n := OutOfTimeBetween(s, labels, last.trace[k].t, c + 1, e + 1);
    TraceGrows(s, labels, c + 1, n);
    TraceGrows(s, labels, n, e);
  }

  /** On its way out of the call, with an element or without one. */
  ghost predicate Finishing<T>(p: Pc<T>) {
    OutOfTime(p) || p.Taking? || p.Leaving?
  }

  lemma StepFinishing<T>(s: State<T>, l: Label<T>, t: Tid)
    requires Enabled(s, l) && t in s.pc && Finishing(s.pc[t])
    ensures t in Step(s, l).pc
    ensures Finishing(Step(s, l).pc[t]) ||
            (|Step(s, l).trace| == |s.trace| + 1 && Step(s, l).trace[|s.trace|].Return? && Step(s, l).trace[|s.trace|].t == t)
  {
  }

  ghost predicate ReturnedBetween<T>(h: seq<Act<T>>, t: Tid, from: nat, to: nat) {
    exists k | from <= k < to && k < |h| :: h[k].Return? && h[k].t == t
  }

  /** A thread whose time is up takes what there is or returns with nothing; it never waits again in that call. */
  lemma {:induction false} LateNeverWaits<T>(s: State<T>, labels: seq<Label<T>>, t: Tid, i: nat, j: nat)
    requires IsRun(s, labels) && i <= j <= |labels|
    requires t in StateAt(s, labels, i).pc && Finishing(StateAt(s, labels, i).pc[t])
    ensures t in StateAt(s, labels, j).pc
    ensures Finishing(StateAt(s, labels, j).pc[t]) ||
              ReturnedBetween(StateAt(s, labels, j).trace, t, |StateAt(s, labels, i).trace|, |StateAt(s, labels, j).trace|)
    decreases j
  {
    TraceGrows(s, labels, i, j);
    if i < j {
      LateNeverWaits(s, labels, t, i, j - 1);
      StateNext(s, labels, j - 1);
      TraceGrows(s, labels, i, j - 1);
      var before, after := StateAt(s, labels, j - 1), StateAt(s, labels, j);
      StepGrows(before, labels[j - 1]);
      var from := |StateAt(s, labels, i).trace|;
      if Finishing(before.pc[t]) {
        StepFinishing(before, labels[j - 1], t);
      } else {
        var k :| from <= k < |before.trace| && before.trace[k].Return? && before.trace[k].t == t;
        assert after.trace[k] == before.trace[k];
      }
    }
  }

  /** One waiter is woken by a notification, and only one. */
  lemma NotifyWakesOne<T>(s: State<T>, t: Tid, woken: Option<Tid>, late: bool)
    requires Enabled(s, Notify(t, woken, late))
    ensures Waiters(Step(s, Notify(t, woken, late)).pc) == Waiters(s.pc) - (if woken.Some? then {woken.value} else {})
    ensures woken.None? <==> Waiters(s.pc) == {}
  {
  }
}
