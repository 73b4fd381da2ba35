/** The dirty flag of the list model after every operation, and what is told of it. */
module DirtyNotices {
  import opened Prelude
  import opened ListModelSpec
  import opened DirtyProofs

  /** The last value of `dirtyChanged`; a new model is clean. */
  function LastDirty<T>(log: seq<Notice<T>>): bool {
    if log == [] then false
    else if log[|log| - 1].DirtyChanged? then log[|log| - 1].dirty
    else LastDirty(log[..|log| - 1])
  }

  ghost predicate DirtyTold<T>(m: Model<T>) {
    LastDirty(m.log) == m.dirty
  }

  lemma LastDirtyNext<T>(log: seq<Notice<T>>, n: Notice<T>)
    ensures LastDirty(log + [n]) == if n.DirtyChanged? then n.dirty else LastDirty(log)
  {
    assert (log + [n])[..|log|] == log;
  }

  lemma {:induction false} LastDirtyQuiet<T>(log: seq<Notice<T>>, tail: seq<Notice<T>>)
    requires forall k | 0 <= k < |tail| :: !tail[k].DirtyChanged?
    ensures LastDirty(log + tail) == LastDirty(log)
  {
    if tail == [] {
      assert log + tail == log;
    } else {
      var init, last := tail[..|tail| - 1], tail[|tail| - 1];
      LastDirtyQuiet(log, init);
      LastDirtyNext(log + init, last);
      assert log + tail == (log + init) + [last];
    }
  }

  lemma NotifiedTells<T>(m: Model<T>, connections: nat, dirty: bool)
    requires DirtyTold(m)
    ensures DirtyTold(Notified(m, connections, dirty))
  {
    if connections > 0 {
      var m' := Notified(m, connections, dirty);
      var n := DirtyChanged(m'.dirty);
      var init := m.log + Repeated(connections - 1, n);
      LastDirtyNext(init, n);
      assert m'.log == init + [n];
    }
  }

  lemma ChildTells<T>(kind: T -> Kind, m: Model<T>, o: T, dirty: bool)
    requires DirtyTold(m)
    ensures DirtyTold(ChildDirtied(kind, m, o, dirty))
  {
    if (o in m.dirtyChildren) != dirty {
      var m' := m.(dirtyChildren := if dirty then m.dirtyChildren + {o} else m.dirtyChildren - {o});
      NotifiedTells(m', m'.connected[o], dirty);
    }
  }

  lemma DirtySetTells<T>(kind: T -> Kind, m: Model<T>, dirty: bool)
    requires DirtyTold(m)
    ensures DirtyTold(DirtySet(kind, m, dirty)) && DirtySet(kind, m, dirty).dirty == dirty
  {
    if m.dirty != dirty {
      var m' := m.(dirty := dirty);
      if !dirty {
        CleanedPrefix(kind, m', |m.list|);
      }
      var m'' := if dirty then m' else ChildrenCleaned(kind, m', |m.list|);
      LastDirtyNext(m''.log, DirtyChanged(m''.dirty));
    }
  }

  /** Notices of rows, counts and resets say nothing of it. */
  lemma QuietTells<T>(m: Model<T>, m': Model<T>, tail: seq<Notice<T>>)
    requires DirtyTold(m) && m'.dirty == m.dirty && m'.log == m.log + tail
    requires forall k | 0 <= k < |tail| :: !tail[k].DirtyChanged?
    ensures DirtyTold(m')
  {
    LastDirtyQuiet(m.log, tail);
  }

  lemma RowsTell<T>(kind: T -> Kind, m: Model<T>, op: Op<T>)
    requires DirtyTold(m) && Allowed(kind, m, op) && (op.Insert? || op.InsertAll? || op.RemoveAt?)
    ensures DirtyTold(Exec(kind, m, op)) && Exec(kind, m, op).dirty
  {
    match op
    case Insert(i, o) =>
      var m1 := m.(connected := Connected(kind, m.connected, o), list := ListInsert(m.list, i, o));
      QuietTells(m, InsertAnnounced(m1, i, 1), [RowsInserted(i, i, m1.list), CountChanged(|m1.list|)]);
      DirtySetTells(kind, InsertAnnounced(m1, i, 1), true);
    case InsertAll(i, os) =>
      var m1 := m.(connected := AllConnected(kind, m.connected, os), list := BatchInserted(m.list, i, os));
      QuietTells(m, InsertAnnounced(m1, i, |os|), [RowsInserted(i, i + |os| - 1, m1.list), CountChanged(|m1.list|)]);
      DirtySetTells(kind, InsertAnnounced(m1, i, |os|), true);
    case RemoveAt(i) =>
      var m1 := m.(connected := Disconnected(kind, m.connected, m.list[i]));
      var m2 := RowsTaken(m1, i, 1);
      QuietTells(m, m2, [RowsRemoved(i, i), CountChanged(|m2.list|)]);
      DirtySetTells(kind, m2, true);
  }

  lemma ReplacedTells<T>(m: Model<T>, list: seq<T>)
    requires DirtyTold(m)
    ensures DirtyTold(Replaced(m, list))
  {
    QuietTells(m, Replaced(m, list), if m.external then [] else [ResetBegun, ResetEnded(list), CountChanged(|list|)]);
  }

  /** Whatever is done, the last `dirtyChanged` told the flag. */
  lemma DirtyStaysTold<T>(kind: T -> Kind, m: Model<T>, op: Op<T>)
    requires Allowed(kind, m, op) && DirtyTold(m)
    ensures DirtyTold(Exec(kind, m, op))
  {
    var m' := Exec(kind, m, op);
    match op
    case Clear => ReplacedTells(m, []);
    case Swap(list) => ReplacedTells(m, list);
    case SetData(row, _, role) => QuietTells(m, m', if row >= 0 && role then [DataChanged(row, m'.list)] else []);
    case SetDirty(dirty) => DirtySetTells(kind, m, dirty);
    case ChildSetsDirty(o, dirty) => ChildTells(kind, m, o, dirty);
    case BeginReset => QuietTells(m, m', [ResetBegun]);
    case EndReset => QuietTells(m, m', [ResetEnded(m.list)]);
    case ClearAndDeleteContents =>
      var m1 := m.(log := m.log + [ResetBegun]);
      QuietTells(m, m1, [ResetBegun]);
      ReplacedTells(m1, []);
      QuietTells(Replaced(m1, []), m', [ResetEnded([])]);
    case _ => RowsTell(kind, m, op);
  }

  /** Over every run, from a state in which it was. */
  lemma RunStaysTold<T(!new)>(kind: T -> Kind, m: Model<T>, ops: seq<Op<T>>)
    requires IsRun(kind, m, ops) && DirtyTold(m)
    ensures Always(kind, m, ops, s => DirtyTold(s)) && DirtyTold(After(kind, m, ops))
  {
    forall s, op | Allowed(kind, s, op) && DirtyTold(s) ensures DirtyTold(Exec(kind, s, op)) {
      DirtyStaysTold(kind, s, op);
    }
    RunKeepsIff(kind, m, ops, s => DirtyTold(s), (_, _) => true);
    EverythingThroughout(kind, m, ops);
  }

  lemma {:induction false} EverythingThroughout<T>(kind: T -> Kind, m: Model<T>, ops: seq<Op<T>>)
    requires IsRun(kind, m, ops)
    ensures Throughout(kind, m, ops, (_, _) => true)
    decreases ops
  {
    if ops != [] {
      EverythingThroughout(kind, Exec(kind, m, ops[0]), ops[1..]);
    }
  }

  /** Rows coming and going make the model dirty; else only `setDirty` and the dirt of a connected child move the flag. */
  ghost predicate DirtyAfter<T>(kind: T -> Kind, m: Model<T>, op: Op<T>) {
    match op
    case Insert(_, _) => true
    case InsertAll(_, _) => true
    case RemoveAt(_) => true
    case SetDirty(dirty) => dirty
    case ChildSetsDirty(o, dirty) =>
      m.dirty || (dirty && o !in m.dirtyChildren && kind(o).hasDirtySignal && o in m.connected)
    case _ => m.dirty
  }

  /** The children's own flags: only `setDirty(false)` on a dirty model and the child itself move them. */
  ghost predicate ChildDirtyAfter<T>(kind: T -> Kind, m: Model<T>, op: Op<T>, o: T) {
    match op
    case SetDirty(dirty) => o in m.dirtyChildren && !(m.dirty && !dirty && o in m.list && kind(o).hasDirtyProperty)
    case ChildSetsDirty(child, dirty) => if o == child then dirty else o in m.dirtyChildren
    case _ => o in m.dirtyChildren
  }

  lemma DirtyIs<T>(kind: T -> Kind, m: Model<T>, op: Op<T>)
    requires Allowed(kind, m, op)
    ensures Exec(kind, m, op).dirty <==> DirtyAfter(kind, m, op)
  {
    match op
    case SetDirty(dirty) =>
      if m.dirty && !dirty {
        CleaningCleans(kind, m);
      }
    case _ =>
  }

  lemma ChildDirtyIs<T>(kind: T -> Kind, m: Model<T>, op: Op<T>, o: T)
    requires Allowed(kind, m, op)
    ensures o in Exec(kind, m, op).dirtyChildren <==> ChildDirtyAfter(kind, m, op, o)
  {
    match op
    case SetDirty(dirty) =>
      if m.dirty && !dirty {
        CleanedPrefix(kind, m.(dirty := false), |m.list|);
      }
    case _ =>
  }
}
