/** What views and dirty tracking may rely on over any run of list-model operations. */
module ListModelProofs {
  import opened Prelude
  import opened ListModelSpec

  // ------------------------------------------------------------------ dirty notices are invisible

  /** The two models differ by dirty bookkeeping and dirty notices alone. */
  ghost predicate SameRows<T>(m: Model<T>, m': Model<T>, tail: seq<Notice<T>>) {
    && m'.list == m.list && m'.external == m.external && m'.connected == m.connected
    && m'.log == m.log + tail
    && forall k | 0 <= k < |tail| :: tail[k].DirtyChanged?
  }

  lemma ChildDirtiedQuietly<T>(kind: T -> Kind, m: Model<T>, o: T, dirty: bool) returns (tail: seq<Notice<T>>)
    ensures SameRows(m, ChildDirtied(kind, m, o, dirty), tail)
  {
    tail := ChildDirtied(kind, m, o, dirty).log[|m.log|..];
  }

  lemma ChildrenCleanedQuietly<T>(kind: T -> Kind, m: Model<T>, n: nat) returns (tail: seq<Notice<T>>)
    requires n <= |m.list|
    ensures SameRows(m, ChildrenCleaned(kind, m, n), tail)
  {
    tail := [];
    if n > 0 {
      var before := ChildrenCleaned(kind, m, n - 1);
      tail := ChildrenCleanedQuietly(kind, m, n - 1);
      if kind(before.list[n - 1]).hasDirtyProperty {
        var more := ChildDirtiedQuietly(kind, before, before.list[n - 1], false);
        tail := tail + more;
      }
    }
  }

  lemma DirtySetQuietly<T>(kind: T -> Kind, m: Model<T>, dirty: bool) returns (tail: seq<Notice<T>>)
    ensures SameRows(m, DirtySet(kind, m, dirty), tail)
  {
    tail := [];
    if m.dirty != dirty {
      var m' := m.(dirty := dirty);
      if dirty {
        tail := [DirtyChanged(true)];
      } else {
        var cleaned := ChildrenCleaned(kind, m', |m.list|);
        tail := ChildrenCleanedQuietly(kind, m', |m.list|);
        tail := tail + [DirtyChanged(cleaned.dirty)];
      }
    }
  }

  // ------------------------------------------------------------------ reset bracketing

  /** Resets begun and not yet ended. */
  function Depth<T>(log: seq<Notice<T>>): int {
    if log == [] then 0
    else
      var n := log[|log| - 1];
      Depth(log[..|log| - 1]) + (if n.ResetBegun? then 1 else if n.ResetEnded? then -1 else 0)
  }

  // ------------------------------------------------------------------ an attached view

  /** A view handles one notice; `None` once it was told of rows that do not exist. */
  function Seen<T>(rows: Option<seq<T>>, n: Notice<T>): Option<seq<T>> {
    match n
    case ResetEnded(now) => Some(now)
    case RowsInserted(first, last, now) =>
      if rows.Some? && 0 <= first <= |rows.value| && first - 1 <= last < |now|
      then Some(rows.value[..first] + now[first..last + 1] + rows.value[first..]) else None
    case RowsRemoved(first, last) =>
      if rows.Some? && 0 <= first <= last + 1 <= |rows.value|
      then Some(rows.value[..first] + rows.value[last + 1..]) else None
    case DataChanged(row, now) =>
      if rows.Some? && 0 <= row < |rows.value| && row < |now| then Some(rows.value[row := now[row]]) else None
    case _ => rows
  }

  /** The rows of a view that was attached to the empty model and followed every notice. */
  function Mirror<T>(log: seq<Notice<T>>): Option<seq<T>> {
    if log == [] then Some([]) else Seen(Mirror(log[..|log| - 1]), log[|log| - 1])
  }

  /** The last value of `countChanged`. */
  function LastCount<T>(log: seq<Notice<T>>): nat {
    if log == [] then 0
    else if log[|log| - 1].CountChanged? then log[|log| - 1].count
    else LastCount(log[..|log| - 1])
  }

  lemma Told<T>(log: seq<Notice<T>>, n: Notice<T>)
    ensures Mirror(log + [n]) == Seen(Mirror(log), n)
    ensures LastCount(log + [n]) == if n.CountChanged? then n.count else LastCount(log)
    ensures Depth(log + [n]) == Depth(log) + (if n.ResetBegun? then 1 else if n.ResetEnded? then -1 else 0)
  {
    assert (log + [n])[..|log|] == log;
  }

  lemma Told2<T>(log: seq<Notice<T>>, a: Notice<T>, b: Notice<T>)
    ensures Mirror(log + [a, b]) == Seen(Seen(Mirror(log), a), b)
    ensures LastCount(log + [a, b]) == LastCount((log + [a]) + [b])
    ensures Depth(log + [a, b]) == Depth((log + [a]) + [b])
  {
    assert log + [a, b] == (log + [a]) + [b];
    Told(log, a);
    Told(log + [a], b);
  }

  lemma {:induction false} ToldDirty<T>(log: seq<Notice<T>>, tail: seq<Notice<T>>)
    requires forall k | 0 <= k < |tail| :: tail[k].DirtyChanged?
    ensures Mirror(log + tail) == Mirror(log)
    ensures LastCount(log + tail) == LastCount(log)
    ensures Depth(log + tail) == Depth(log)
  {
    if tail == [] {
      assert log + tail == log;
    } else {
      var rest := tail[..|tail| - 1];
      ToldDirty(log, rest);
      Told(log + rest, tail[|rest|]);
      assert log + tail == (log + rest) + [tail[|rest|]];
    }
  }

  lemma DirtySetUnseen<T>(kind: T -> Kind, m: Model<T>, dirty: bool)
    ensures var m' := DirtySet(kind, m, dirty);
      && m'.list == m.list && m'.external == m.external && m'.connected == m.connected
      && Mirror(m'.log) == Mirror(m.log) && LastCount(m'.log) == LastCount(m.log) && Depth(m'.log) == Depth(m.log)
  {
    var tail := DirtySetQuietly(kind, m, dirty);
    ToldDirty(m.log, tail);
  }

  lemma ChildDirtiedUnseen<T>(kind: T -> Kind, m: Model<T>, o: T, dirty: bool)
    ensures var m' := ChildDirtied(kind, m, o, dirty);
      && m'.list == m.list && m'.external == m.external && m'.connected == m.connected
      && Mirror(m'.log) == Mirror(m.log) && LastCount(m'.log) == LastCount(m.log) && Depth(m'.log) == Depth(m.log)
  {
    var tail := ChildDirtiedQuietly(kind, m, o, dirty);
    ToldDirty(m.log, tail);
  }

  /** The one notice of an operation that moves rows, given the list it leaves. */
  function Announcement<T>(m: Model<T>, op: Op<T>, list: seq<T>): Option<Notice<T>> {
    match op
    case Insert(i, _) => Some(RowsInserted(i, i, list))
    case InsertAll(i, os) => Some(RowsInserted(i, i + |os| - 1, list))
    case RemoveAt(i) => Some(RowsRemoved(i, i))
    case SetData(row, _, role) => if row >= 0 && role then Some(DataChanged(row, list)) else None
    case Clear => if m.external then None else Some(ResetEnded(list))
    case Swap(_) => if m.external then None else Some(ResetEnded(list))
    case EndReset => Some(ResetEnded(list))
    case ClearAndDeleteContents => Some(ResetEnded(list))
    case _ => None
  }

  predicate Counts<T>(m: Model<T>, op: Op<T>) {
    op.Insert? || op.InsertAll? || op.RemoveAt? || (!m.external && (op.Clear? || op.Swap? || op.ClearAndDeleteContents?))
  }

  /** What views are told by an operation that takes `m` to `m'`. */
  ghost predicate Tells<T>(m: Model<T>, op: Op<T>, m': Model<T>) {
    var a := Announcement(m, op, m'.list);
    && m'.external == (if op.BeginReset? then true else if op.EndReset? then false else m.external)
    && Mirror(m'.log) == (if a.Some? then Seen(Mirror(m.log), a.value) else Mirror(m.log))
    && LastCount(m'.log) == (if Counts(m, op) then |m'.list| else LastCount(m.log))
    && Depth(m'.log) == Depth(m.log) + (if op.BeginReset? then 1 else if op.EndReset? then -1 else 0)
  }

  lemma InsertTells<T>(kind: T -> Kind, m: Model<T>, i: int, rows: nat)
    ensures var m' := DirtySet(kind, InsertAnnounced(m, i, rows), true);
      && m'.list == m.list && m'.external == m.external
      && Mirror(m'.log) == Seen(Mirror(m.log), RowsInserted(i, i + rows - 1, m.list))
      && LastCount(m'.log) == |m.list| && Depth(m'.log) == Depth(m.log)
  {
    var n := RowsInserted(i, i + rows - 1, m.list);
    Told2(m.log, n, CountChanged(|m.list|));
    Told(m.log, n);
    Told(m.log + [n], CountChanged(|m.list|));
    DirtySetUnseen(kind, InsertAnnounced(m, i, rows), true);
  }

  lemma ReplaceTells<T>(m: Model<T>, list: seq<T>)
    ensures var m' := Replaced(m, list);
      && m'.list == list && m'.external == m.external && Depth(m'.log) == Depth(m.log)
      && Mirror(m'.log) == (if m.external then Mirror(m.log) else Some(list))
      && LastCount(m'.log) == (if m.external then LastCount(m.log) else |list|)
  {
    if !m.external {
      var l1 := m.log + [ResetBegun];
      Told(m.log, ResetBegun);
      Told(l1, ResetEnded(list));
      Told(l1 + [ResetEnded(list)], CountChanged(|list|));
      assert Replaced(m, list).log == (l1 + [ResetEnded(list)]) + [CountChanged(|list|)];
    }
  }

  lemma RemoveTells<T>(kind: T -> Kind, m: Model<T>, i: nat)
    requires i < |m.list|
    ensures Tells(m, RemoveAt(i), Exec(kind, m, RemoveAt(i)))
    ensures Exec(kind, m, RemoveAt(i)).list == m.list[..i] + m.list[i + 1..]
  {
    var m1 := m.(connected := Disconnected(kind, m.connected, m.list[i]));
    var m2 := RowsTaken(m1, i, 1);
    RepeatedRemovalIsSlice(m.list, i, 1);
    Told2(m.log, RowsRemoved(i, i), CountChanged(|m2.list|));
    Told(m.log, RowsRemoved(i, i));
    Told(m.log + [RowsRemoved(i, i)], CountChanged(|m2.list|));
    DirtySetUnseen(kind, m2, true);
  }

  lemma ClearContentsTells<T>(kind: T -> Kind, m: Model<T>)
    requires AllNonNull(kind, m.list)
    ensures Tells(m, ClearAndDeleteContents, Exec(kind, m, ClearAndDeleteContents))
  {
    var m1 := m.(log := m.log + [ResetBegun]);
    Told(m.log, ResetBegun);
    ReplaceTells(m1, []);
    Told(Replaced(m1, []).log, ResetEnded([]));
  }

  lemma InsertOpTells<T>(kind: T -> Kind, m: Model<T>, i: int, o: T)
    ensures Tells(m, Insert(i, o), Exec(kind, m, Insert(i, o)))
    ensures Exec(kind, m, Insert(i, o)).list == ListInsert(m.list, i, o)
  {
    InsertTells(kind, m.(connected := Connected(kind, m.connected, o), list := ListInsert(m.list, i, o)), i, 1);
  }

  lemma InsertAllTells<T>(kind: T -> Kind, m: Model<T>, i: int, os: seq<T>)
    requires AllNonNull(kind, os)
    ensures Tells(m, InsertAll(i, os), Exec(kind, m, InsertAll(i, os)))
    ensures Exec(kind, m, InsertAll(i, os)).list == BatchInserted(m.list, i, os)
  {
    InsertTells(kind, m.(connected := AllConnected(kind, m.connected, os), list := BatchInserted(m.list, i, os)),
                i, |os|);
  }

  lemma SetDataTells<T>(kind: T -> Kind, m: Model<T>, row: int, o: T, role: bool)
    requires row >= 0 && role ==> row < |m.list|
    ensures Tells(m, SetData(row, o, role), Exec(kind, m, SetData(row, o, role)))
  {
    if row >= 0 && role {
      Told(m.log, DataChanged(row, m.list[row := o]));
    }
  }

  lemma ReplaceOpsTell<T>(kind: T -> Kind, m: Model<T>, list: seq<T>)
    ensures Tells(m, Clear, Exec(kind, m, Clear))
    ensures Tells(m, Swap(list), Exec(kind, m, Swap(list)))
  {
    ReplaceTells(m, []);
    ReplaceTells(m, list);
  }

  lemma ResetOpsTell<T>(kind: T -> Kind, m: Model<T>)
    ensures Tells(m, BeginReset, Exec(kind, m, BeginReset))
    ensures Tells(m, EndReset, Exec(kind, m, EndReset))
  {
    assert Exec(kind, m, BeginReset) == m.(external := true, log := m.log + [ResetBegun]);
    assert Exec(kind, m, EndReset) == m.(external := false, log := m.log + [ResetEnded(m.list)]);
    Told(m.log, ResetBegun);
    Told(m.log, ResetEnded(m.list));
  }

  lemma DirtyOpsTell<T>(kind: T -> Kind, m: Model<T>, op: Op<T>)
    requires Allowed(kind, m, op) && (op.SetDirty? || op.ChildSetsDirty?)
    ensures Tells(m, op, Exec(kind, m, op)) && Exec(kind, m, op).list == m.list
  {
    match op
    case SetDirty(dirty) => DirtySetUnseen(kind, m, dirty);
    case ChildSetsDirty(o, dirty) => ChildDirtiedUnseen(kind, m, o, dirty);
  }

  lemma ExecTells<T>(kind: T -> Kind, m: Model<T>, op: Op<T>)
    requires Allowed(kind, m, op)
    ensures Tells(m, op, Exec(kind, m, op))
  {
    match op
    case Insert(i, o) => InsertOpTells(kind, m, i, o);
    case InsertAll(i, os) => InsertAllTells(kind, m, i, os);
    case RemoveAt(i) => RemoveTells(kind, m, i);
    case Clear => ReplaceOpsTell(kind, m, []);
    case Swap(newList) => ReplaceOpsTell(kind, m, newList);
    case SetData(row, o, role) => SetDataTells(kind, m, row, o, role);
    case SetDirty(_) => DirtyOpsTell(kind, m, op);
    case ChildSetsDirty(_, _) => DirtyOpsTell(kind, m, op);
    case BeginReset => ResetOpsTell(kind, m);
    case EndReset => ResetOpsTell(kind, m);
    case ClearAndDeleteContents => ClearContentsTells(kind, m);
  }

  // ------------------------------------------------------------------ resets are bracketed

  ghost predicate Bracketed<T>(m: Model<T>) {
    Depth(m.log) == if m.external then 1 else 0
  }

  /** Outside callers may open a reset only when none is open, and close only an open one. */
  predicate Alternates<T>(m: Model<T>, op: Op<T>) {
    && (op.BeginReset? ==> !m.external)
    && (op.EndReset? ==> m.external)
  }

  /** That is exactly what keeps the brackets balanced; the nested resets of the model itself never break them. */
  lemma BracketsKeptIffAlternating<T>(kind: T -> Kind, m: Model<T>, op: Op<T>)
    requires Allowed(kind, m, op) && Bracketed(m)
    ensures Bracketed(Exec(kind, m, op)) <==> Alternates(m, op)
  {
    ExecTells(kind, m, op);
  }

  /** Over a whole run the brackets are balanced throughout exactly if outside resets alternate. */
  lemma RunBracketedIff<T(!new)>(kind: T -> Kind, m: Model<T>, ops: seq<Op<T>>)
    requires IsRun(kind, m, ops)
    ensures Always(kind, m, ops, s => Bracketed(s)) <==>
            Bracketed(m) && Throughout(kind, m, ops, (s, op) => Alternates(s, op))
    ensures Always(kind, m, ops, s => Bracketed(s)) ==> Bracketed(After(kind, m, ops))
  {
    forall s, op | Allowed(kind, s, op) && Bracketed(s) ensures Bracketed(Exec(kind, s, op)) <==> Alternates(s, op) {
      BracketsKeptIffAlternating(kind, s, op);
    }
    RunKeepsIff(kind, m, ops, s => Bracketed(s), (s, op) => Alternates(s, op));
  }

  // ------------------------------------------------------------------ the view agrees

  ghost predicate Agrees<T>(m: Model<T>) {
    Mirror(m.log) == Some(m.list)
  }

  /**
    The insertions announced where they happen: a single row at a valid index, a batch at the end, or a
    batch whose last object equals the one it pushed up.
   */
  predicate AnnouncedWhereInserted<T(==)>(m: Model<T>, op: Op<T>) {
    match op
    case Insert(i, _) => 0 <= i <= |m.list|
    case InsertAll(i, os) =>
      0 <= i <= |m.list| && (os == [] || i == |m.list| || os[|os| - 1] == m.list[i])
    case _ => true
  }

  /** Announced at `i`, landed at `i + 1`: the view shows the pushed-up row where the last new one is. */
  lemma MiddleBatchAgreement<T>(list: seq<T>, i: nat, os: seq<T>)
    requires i < |list| && os != []
    ensures var list' := list[..i + 1] + os + list[i + 1..];
      Seen(Some(list), RowsInserted(i, i + |os| - 1, list')) == Some(list') <==> os[|os| - 1] == list[i]
  {
    var k := |os|;
    var list' := list[..i + 1] + os + list[i + 1..];
    var view := list[..i] + list'[i..i + k] + list[i..];
    assert Seen(Some(list), RowsInserted(i, i + k - 1, list')) == Some(view);
    assert view[i + k] == list[i] && list'[i + k] == os[k - 1];
    if os[k - 1] == list[i] {
      forall n | 0 <= n < |view| ensures view[n] == list'[n] {
      }
      assert view == list';
    }
  }

  lemma BatchAgreement<T>(list: seq<T>, i: nat, os: seq<T>)
    requires i <= |list|
    ensures var list' := BatchInserted(list, i, os);
      Seen(Some(list), RowsInserted(i, i + |os| - 1, list')) == Some(list')
      <==> os == [] || i == |list| || os[|os| - 1] == list[i]
  {
    var list' := BatchInserted(list, i, os);
    BatchLandsOneRowLate(list, i, os);
    if i < |list| && os != [] {
      MiddleBatchAgreement(list, i, os);
    } else {
      assert list' == list[..i] + os + list[i..] && list'[i..i + |os|] == os;
    }
  }

  /** The rows an operation leaves. */
  function RowsAfter<T>(m: Model<T>, op: Op<T>): seq<T> {
    match op
    case Insert(i, o) => ListInsert(m.list, i, o)
    case InsertAll(i, os) => BatchInserted(m.list, i, os)
    case RemoveAt(i) => ListRemove(m.list, i)
    case Clear => []
    case Swap(newList) => newList
    case SetData(row, o, role) => if 0 <= row < |m.list| && role then m.list[row := o] else m.list
    case ClearAndDeleteContents => []
    case _ => m.list
  }

  lemma ExecRows<T>(kind: T -> Kind, m: Model<T>, op: Op<T>)
    requires Allowed(kind, m, op)
    ensures Exec(kind, m, op).list == RowsAfter(m, op)
  {
    match op
    case Insert(i, o) => InsertOpTells(kind, m, i, o);
    case InsertAll(i, os) => InsertAllTells(kind, m, i, os);
    case RemoveAt(i) => RemoveTells(kind, m, i);
    case SetDirty(_) => DirtyOpsTell(kind, m, op);
    case ChildSetsDirty(_, _) => DirtyOpsTell(kind, m, op);
    case _ =>
  }

  lemma AgreementByRows<T>(m: Model<T>, op: Op<T>, m': Model<T>)
    requires Tells(m, op, m') && m'.list == RowsAfter(m, op) && !m.external && Agrees(m)
    requires op.RemoveAt? ==> 0 <= op.i < |m.list|
    requires op.SetData? && op.row >= 0 && op.objectRole ==> op.row < |m.list|
    ensures Agrees(m') <==> AnnouncedWhereInserted(m, op)
  {
    if op.InsertAll? && 0 <= op.i <= |m.list| {
      BatchAgreement(m.list, op.i, op.objects);
    }
  }

  /** While no outside reset is open, a view that agrees keeps agreeing exactly through announced insertions. */
  lemma AgreementKeptIffAnnounced<T>(kind: T -> Kind, m: Model<T>, op: Op<T>)
    requires Allowed(kind, m, op) && !m.external && Agrees(m)
    ensures Agrees(Exec(kind, m, op)) <==> AnnouncedWhereInserted(m, op)
  {
    var m' := Exec(kind, m, op);
    ExecTells(kind, m, op);
    ExecRows(kind, m, op);
    AgreementByRows(m, op, m');
  }

  /** A view is right while no outside reset is open; what happens under one does not matter. */
  ghost predicate Shows<T>(m: Model<T>) {
    !m.external ==> Agrees(m)
  }

  ghost predicate KeepsShowing<T>(m: Model<T>, op: Op<T>) {
    m.external || AnnouncedWhereInserted(m, op)
  }

  lemma ShowsKeptIff<T>(kind: T -> Kind, m: Model<T>, op: Op<T>)
    requires Allowed(kind, m, op) && Shows(m)
    ensures Shows(Exec(kind, m, op)) <==> KeepsShowing(m, op)
  {
    ExecTells(kind, m, op);
    if !m.external {
      AgreementKeptIffAnnounced(kind, m, op);
    }
  }

  /**
    Over a whole run, with any outside resets in it, a view agrees whenever none of them is open exactly if
    every insertion outside them is announced where it happens.
   */
  lemma ViewsAgreeIff<T(!new)>(kind: T -> Kind, m: Model<T>, ops: seq<Op<T>>)
    requires IsRun(kind, m, ops)
    ensures Always(kind, m, ops, s => Shows(s)) <==>
            Shows(m) && Throughout(kind, m, ops, (s, op) => KeepsShowing(s, op))
    ensures Always(kind, m, ops, s => Shows(s)) ==> Shows(After(kind, m, ops))
  {
    forall s, op | Allowed(kind, s, op) && Shows(s) ensures Shows(Exec(kind, s, op)) <==> KeepsShowing(s, op) {
      ShowsKeptIff(kind, s, op);
    }
    RunKeepsIff(kind, m, ops, s => Shows(s), (s, op) => KeepsShowing(s, op));
  }

  ghost predicate CountTold<T>(m: Model<T>) {
    LastCount(m.log) == |m.list|
  }

  /** Whatever was told before, the count is right afterwards if it is told now, or if it still fits. */
  lemma CountToldIff<T>(kind: T -> Kind, m: Model<T>, op: Op<T>)
    requires Allowed(kind, m, op)
    ensures CountTold(Exec(kind, m, op)) <==> Counts(m, op) || LastCount(m.log) == |RowsAfter(m, op)|
  {
    ExecTells(kind, m, op);
    ExecRows(kind, m, op);
  }

  /** The operations after which a count that was right is right. */
  predicate KeepsCount<T>(m: Model<T>, op: Op<T>) {
    || !m.external
    || !(op.Clear? || op.Swap? || op.ClearAndDeleteContents?)
    || |RowsAfter(m, op)| == |m.list|
  }

  /** A right count goes wrong exactly when a list of another length is put in under an outside reset. */
  lemma CountKeptIff<T>(kind: T -> Kind, m: Model<T>, op: Op<T>)
    requires Allowed(kind, m, op) && CountTold(m)
    ensures CountTold(Exec(kind, m, op)) <==> KeepsCount(m, op)
  {
    CountToldIff(kind, m, op);
    ExecRows(kind, m, op);
  }

  /** Over a whole run the last `countChanged` tells the length throughout exactly if every operation keeps it. */
  lemma CountIsCurrentIff<T(!new)>(kind: T -> Kind, m: Model<T>, ops: seq<Op<T>>)
    requires IsRun(kind, m, ops)
    ensures Always(kind, m, ops, s => CountTold(s)) <==>
            CountTold(m) && Throughout(kind, m, ops, (s, op) => KeepsCount(s, op))
    ensures Always(kind, m, ops, s => CountTold(s)) ==> CountTold(After(kind, m, ops))
  {
    forall s, op | Allowed(kind, s, op) && CountTold(s) ensures CountTold(Exec(kind, s, op)) <==> KeepsCount(s, op) {
      CountKeptIff(kind, s, op);
    }
    RunKeepsIff(kind, m, ops, s => CountTold(s), (s, op) => KeepsCount(s, op));
  }

  /** Under an outside reset `clear` tells no count, and nor does `endReset`. */
  lemma OutsideResetHidesCount<T>(kind: T -> Kind, m: Model<T>)
    requires !m.external && LastCount(m.log) == |m.list|
    ensures var m' := Exec(kind, Exec(kind, Exec(kind, m, BeginReset), Clear), EndReset);
      m'.list == [] && !m'.external && LastCount(m'.log) == |m.list|
  {
    var open := Exec(kind, m, BeginReset);
    var cleared := Exec(kind, open, Clear);
    ResetOpsTell(kind, m);
    ReplaceOpsTell(kind, open, []);
    ResetOpsTell(kind, cleared);
  }
}
