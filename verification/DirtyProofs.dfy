/** Dirty propagation between the list model and its elements. */
module DirtyProofs {
  import opened Prelude
  import opened ListModelSpec

  predicate Signals<T>(kind: T -> Kind, o: T) {
    !kind(o).isNull && kind(o).hasDirtySignal
  }

  /**
    The connected children are exactly the elements that have the signal, once each; and none of these is
    dirty while the model is clean.
   */
  ghost predicate Tracked<T>(kind: T -> Kind, m: Model<T>) {
    && Distinct(m.list) && AllNonNull(kind, m.list)
    && (forall o <- m.connected :: o in m.list && Signals(kind, o))
    && (forall o <- m.list :: Signals(kind, o) ==> m.connected[o] == 1)
    && (forall o <- m.list :: Signals(kind, o) && o in m.dirtyChildren ==> m.dirty)
    && (forall o <- m.dirtyChildren :: kind(o).hasDirtyProperty)
  }

  /** The cleaning loop: the first `n` elements with a dirty property are clean, nothing else moved. */
  lemma {:induction false} CleanedPrefix<T>(kind: T -> Kind, m: Model<T>, n: nat)
    requires n <= |m.list| && !m.dirty
    ensures var m' := ChildrenCleaned(kind, m, n);
      && !m'.dirty && m'.list == m.list && m'.connected == m.connected && m'.external == m.external
      && m'.dirtyChildren <= m.dirtyChildren
      && (forall k | 0 <= k < n :: kind(m.list[k]).hasDirtyProperty ==> m.list[k] !in m'.dirtyChildren)
      && (forall o <- m.dirtyChildren :: o !in m.list || !kind(o).hasDirtyProperty ==> o in m'.dirtyChildren)
  {
    if n > 0 {
      CleanedPrefix(kind, m, n - 1);
    }
  }

  /** `setDirty(false)` cleans a dirty model and, through every re-entrant child signal, all its elements. */
  lemma CleaningCleans<T>(kind: T -> Kind, m: Model<T>)
    requires m.dirty
    ensures var m' := DirtySet(kind, m, false);
      && !m'.dirty && m'.list == m.list && m'.connected == m.connected && m'.external == m.external
      && m'.dirtyChildren <= m.dirtyChildren
      && forall o <- m.list :: kind(o).hasDirtyProperty ==> o !in m'.dirtyChildren
  {
    CleanedPrefix(kind, m.(dirty := false), |m.list|);
  }

  /** On a clean model it does nothing at all, so elements that never signalled stay dirty. */
  lemma CleaningReachesAllIff<T>(kind: T -> Kind, m: Model<T>)
    ensures (forall o <- m.list :: kind(o).hasDirtyProperty ==> o !in DirtySet(kind, m, false).dirtyChildren)
            <==> m.dirty || (forall o <- m.list :: kind(o).hasDirtyProperty ==> o !in m.dirtyChildren)
  {
    if m.dirty {
      CleaningCleans(kind, m);
    }
  }

  // ------------------------------------------------------------------ what keeps track, exactly

  /**
    The operations that keep track.  Insertions must bring in new objects.  `clear`, `swapObjectList` and
    `setData` neither connect nor disconnect anything, so they may not change which objects can signal.
   */
  ghost predicate KeepsTrack<T>(kind: T -> Kind, m: Model<T>, op: Op<T>) {
    match op
    case Insert(_, o) => o !in m.list && !kind(o).isNull
    case InsertAll(_, os) => Distinct(os) && forall o <- os :: o !in m.list
    case Clear => m.connected == multiset{}
    case ClearAndDeleteContents => m.connected == multiset{}
    case Swap(list) =>
      && Distinct(list) && AllNonNull(kind, list)
      && (forall o <- list :: Signals(kind, o) ==> o in m.list)
      && (forall o <- m.list :: Signals(kind, o) ==> o in list)
    case SetData(row, o, objectRole) =>
      0 <= row < |m.list| && objectRole ==>
        || m.list[row] == o
        || (!Signals(kind, m.list[row]) && !Signals(kind, o) && o !in m.list && !kind(o).isNull)
    case _ => true
  }

  lemma DistinctIsOnce<T>(s: seq<T>)
    ensures Distinct(s) <==> forall x <- s :: multiset(s)[x] == 1
  {
    if s != [] {
      var init, last := s[..|s| - 1], s[|s| - 1];
      assert s == init + [last];
      DistinctIsOnce(init);
      assert forall x :: multiset(s)[x] == multiset(init)[x] + if x == last then 1 else 0;
      assert forall x :: x in s <==> x == last || x in init;
      if last in init {
        var j :| 0 <= j < |init| && init[j] == last;
        assert s[j] == s[|s| - 1] && multiset(s)[last] >= 2 && last in s;
      } else {
        assert last !in multiset(init);
        assert Distinct(s) <==> Distinct(init) by {
          assert forall k | 0 <= k < |init| :: s[k] == init[k] && init[k] in init;
        }
      }
    }
  }

  lemma InsertAdds<T>(list: seq<T>, i: int, o: T)
    ensures multiset(ListInsert(list, i, o)) == multiset(list) + multiset{o}
  {
    var k := if i <= 0 then 0 else if i >= |list| then |list| else i;
    assert list == list[..k] + list[k..];
  }

  lemma {:induction false} BatchAdds<T>(list: seq<T>, j: int, os: seq<T>)
    ensures multiset(BatchInserted(list, j, os)) == multiset(list) + multiset(os)
    decreases os
  {
    if os != [] {
      InsertAdds(list, j + 1, os[0]);
      BatchAdds(ListInsert(list, j + 1, os[0]), j + 1, os[1..]);
      assert os == [os[0]] + os[1..];
    }
  }

  lemma {:induction false} BatchConnects<T>(kind: T -> Kind, connected: multiset<T>, os: seq<T>, x: T)
    ensures AllConnected(kind, connected, os)[x] == connected[x] + if Signals(kind, x) then multiset(os)[x] else 0
  {
    if os != [] {
      var init, last := os[..|os| - 1], os[|os| - 1];
      assert os == init + [last];
      BatchConnects(kind, connected, init, x);
    }
  }

  /** Adding a batch to a list of distinct elements. */
  lemma DistinctUnion<T>(list: seq<T>, os: seq<T>, list': seq<T>)
    requires Distinct(list) && multiset(list') == multiset(list) + multiset(os)
    ensures Distinct(list') <==> Distinct(os) && forall o <- os :: o !in list
    ensures forall x :: x in list' <==> x in list || x in os
  {
    DistinctIsOnce(list);
    DistinctIsOnce(os);
    DistinctIsOnce(list');
    forall x ensures x in list' <==> x in list || x in os {
      assert (x in list' <==> x in multiset(list')) && (x in list <==> x in multiset(list));
      assert x in os <==> x in multiset(os);
    }
    forall o | o in os && o in list ensures !Distinct(list') {
      assert multiset(list')[o] >= 2 && o in list';
    }
  }

  lemma AddedTrackedIff<T>(kind: T -> Kind, m: Model<T>, os: seq<T>, m': Model<T>)
    requires Tracked(kind, m) && multiset(m'.list) == multiset(m.list) + multiset(os)
    requires forall x :: m'.connected[x] == m.connected[x] + if Signals(kind, x) then multiset(os)[x] else 0
    requires m'.dirty && m'.dirtyChildren == m.dirtyChildren
    ensures Tracked(kind, m') <==> Distinct(os) && AllNonNull(kind, os) && forall o <- os :: o !in m.list
  {
    DistinctUnion(m.list, os, m'.list);
    DistinctIsOnce(os);
    if Distinct(m'.list) && AllNonNull(kind, os) {
      AddedTracked(kind, m, os, m');
    }
    if AllNonNull(kind, m'.list) {
      forall k | 0 <= k < |os| ensures !kind(os[k]).isNull {
        assert os[k] in m'.list;
      }
    }
  }

  lemma AddedTracked<T>(kind: T -> Kind, m: Model<T>, os: seq<T>, m': Model<T>)
    requires Tracked(kind, m) && AllNonNull(kind, os) && (forall o <- os :: o !in m.list)
    requires Distinct(m'.list) && (forall x :: x in m'.list <==> x in m.list || x in os)
    requires forall o <- os :: multiset(os)[o] == 1
    requires forall x :: m'.connected[x] == m.connected[x] + if Signals(kind, x) then multiset(os)[x] else 0
    requires m'.dirty && m'.dirtyChildren == m.dirtyChildren
    ensures Tracked(kind, m')
  {
    forall k | 0 <= k < |m'.list| ensures !kind(m'.list[k]).isNull {
      assert m'.list[k] in m.list || m'.list[k] in os;
    }
    forall o | o in m'.connected ensures o in m'.list && Signals(kind, o) {
      assert m'.connected[o] > 0;
      assert m.connected[o] > 0 || multiset(os)[o] > 0;
      assert m.connected[o] > 0 ==> o in m.connected;
      assert multiset(os)[o] > 0 ==> o in os;
    }
    forall o | o in m'.list && Signals(kind, o) ensures m'.connected[o] == 1 {
      if o in os {
        assert o !in m.connected;
      } else {
        assert o !in multiset(os);
      }
    }
  }

  lemma InsertTrackedIff<T>(kind: T -> Kind, m: Model<T>, i: int, o: T)
    requires Tracked(kind, m)
    ensures Tracked(kind, Exec(kind, m, Insert(i, o))) <==> KeepsTrack(kind, m, Insert(i, o))
  {
    var m' := Exec(kind, m, Insert(i, o));
    InsertAdds(m.list, i, o);
    assert m'.list == ListInsert(m.list, i, o) && m'.connected == Connected(kind, m.connected, o);
    AddedTrackedIff(kind, m, [o], m');
    assert [o][0] == o;
  }

  lemma InsertAllTrackedIff<T>(kind: T -> Kind, m: Model<T>, i: int, os: seq<T>)
    requires Tracked(kind, m) && AllNonNull(kind, os)
    ensures Tracked(kind, Exec(kind, m, InsertAll(i, os))) <==> KeepsTrack(kind, m, InsertAll(i, os))
  {
    var m' := Exec(kind, m, InsertAll(i, os));
    BatchAdds(m.list, i, os);
    assert m'.list == BatchInserted(m.list, i, os) && m'.connected == AllConnected(kind, m.connected, os);
    forall x ensures m'.connected[x] == m.connected[x] + if Signals(kind, x) then multiset(os)[x] else 0 {
      BatchConnects(kind, m.connected, os, x);
    }
    AddedTrackedIff(kind, m, os, m');
  }

  /** Another list under the same connections. */
  lemma ReplacedTrackedIff<T>(kind: T -> Kind, m: Model<T>, m': Model<T>)
    requires Tracked(kind, m)
    requires m'.connected == m.connected && m'.dirty == m.dirty && m'.dirtyChildren == m.dirtyChildren
    ensures Tracked(kind, m') <==> KeepsTrack(kind, m, Swap(m'.list))
    ensures m'.list == [] ==> (KeepsTrack(kind, m, Swap(m'.list)) <==> m.connected == multiset{})
  {
    forall o | o in m.list && Signals(kind, o) ensures o in m.connected {
      assert m.connected[o] == 1;
    }
    if m.connected != multiset{} {
      var o :| o in m.connected;
      assert o in m.list && Signals(kind, o);
    }
  }

  lemma SetDataTrackedIff<T>(kind: T -> Kind, m: Model<T>, row: nat, o: T)
    requires Tracked(kind, m) && row < |m.list|
    ensures KeepsTrack(kind, m, Swap(m.list[row := o])) <==> KeepsTrack(kind, m, SetData(row, o, true))
  {
    var list', was := m.list[row := o], m.list[row];
    assert list'[row] == o && was in m.list && o in list';
    if was == o {
      assert list' == m.list;
    } else {
      assert was !in list' by {
        assert forall k | 0 <= k < |list'| :: list'[k] == if k == row then o else m.list[k];
      }
      assert Distinct(list') <==> o !in m.list by {
        if o in m.list {
          var k :| 0 <= k < |m.list| && m.list[k] == o;
          assert list'[k] == o && k != row;
        }
      }
      forall x | x in m.list && x != was ensures x in list' {
        var k :| 0 <= k < |m.list| && m.list[k] == x;
        assert list'[k] == x;
      }
    }
  }

  lemma Removed<T>(list: seq<T>, i: nat)
    requires i < |list| && Distinct(list)
    ensures var list' := list[..i] + list[i + 1..];
      && Distinct(list') && (forall x <- list' :: x != list[i] && x in list)
      && (forall x <- list :: x == list[i] || x in list')
  {
    var list' := list[..i] + list[i + 1..];
    forall x | x in list ensures x == list[i] || x in list' {
      var j :| 0 <= j < |list| && list[j] == x;
      if j != i {
        assert list'[if j < i then j else j - 1] == x;
      }
    }
  }

  lemma RemovedTracked<T>(kind: T -> Kind, m: Model<T>, i: nat, m': Model<T>)
    requires Tracked(kind, m) && i < |m.list|
    requires m'.list == m.list[..i] + m.list[i + 1..] && m'.dirty && m'.dirtyChildren == m.dirtyChildren
    requires m'.connected == Disconnected(kind, m.connected, m.list[i])
    ensures Tracked(kind, m')
  {
    Removed(m.list, i);
  }

  lemma RemoveTracked<T>(kind: T -> Kind, m: Model<T>, i: nat)
    requires Tracked(kind, m) && i < |m.list|
    ensures Tracked(kind, Exec(kind, m, RemoveAt(i)))
  {
    RepeatedRemovalIsSlice(m.list, i, 1);
    RemovedTracked(kind, m, i, Exec(kind, m, RemoveAt(i)));
  }

  lemma ChildTracked<T>(kind: T -> Kind, m: Model<T>, o: T, dirty: bool)
    requires Tracked(kind, m) && kind(o).hasDirtyProperty
    ensures Tracked(kind, ChildDirtied(kind, m, o, dirty))
  {
    var m' := ChildDirtied(kind, m, o, dirty);
    assert m'.list == m.list && m'.connected == m.connected;
    assert forall x <- m.list :: x != o ==> (x in m'.dirtyChildren <==> x in m.dirtyChildren);
    if o in m.list && Signals(kind, o) && dirty {
      assert m.connected[o] == 1;
    }
  }

  lemma SetDirtyTracked<T>(kind: T -> Kind, m: Model<T>, dirty: bool)
    requires Tracked(kind, m)
    ensures Tracked(kind, DirtySet(kind, m, dirty))
  {
    if m.dirty && !dirty {
      CleaningCleans(kind, m);
    }
  }

  /** The operations that put in another list under the same connections. */
  lemma ReplacingTrackedIff<T>(kind: T -> Kind, m: Model<T>, op: Op<T>)
    requires Tracked(kind, m) && Allowed(kind, m, op)
    requires op.Clear? || op.ClearAndDeleteContents? || op.Swap? || op.SetData?
    ensures Tracked(kind, Exec(kind, m, op)) <==> KeepsTrack(kind, m, op)
  {
    ReplacedTrackedIff(kind, m, Exec(kind, m, op));
    match op
    case SetData(row, o, objectRole) =>
      if row >= 0 && objectRole {
        SetDataTrackedIff(kind, m, row, o);
      }
    case _ =>
  }

  /** One operation on a model that tracks its elements. */
  lemma TrackedKeptIff<T>(kind: T -> Kind, m: Model<T>, op: Op<T>)
    requires Tracked(kind, m) && Allowed(kind, m, op)
    ensures Tracked(kind, Exec(kind, m, op)) <==> KeepsTrack(kind, m, op)
  {
    match op
    case Insert(i, o) => InsertTrackedIff(kind, m, i, o);
    case InsertAll(i, os) => InsertAllTrackedIff(kind, m, i, os);
    case RemoveAt(i) => RemoveTracked(kind, m, i);
    case SetDirty(dirty) => SetDirtyTracked(kind, m, dirty);
    case ChildSetsDirty(o, dirty) => ChildTracked(kind, m, o, dirty);
    case BeginReset =>
    case EndReset =>
    case _ => ReplacingTrackedIff(kind, m, op);
  }

  /** Over a whole run the elements are tracked throughout exactly if every operation keeps track. */
  lemma RunTrackedIff<T(!new)>(kind: T -> Kind, m: Model<T>, ops: seq<Op<T>>)
    requires IsRun(kind, m, ops)
    ensures Always(kind, m, ops, s => Tracked(kind, s)) <==>
            Tracked(kind, m) && Throughout(kind, m, ops, (s, op) => KeepsTrack(kind, s, op))
    ensures Always(kind, m, ops, s => Tracked(kind, s)) ==> Tracked(kind, After(kind, m, ops))
  {
    forall s, op | Allowed(kind, s, op) && Tracked(kind, s)
      ensures Tracked(kind, Exec(kind, s, op)) <==> KeepsTrack(kind, s, op)
    {
      TrackedKeptIff(kind, s, op);
    }
    RunKeepsIff(kind, m, ops, s => Tracked(kind, s), (s, op) => KeepsTrack(kind, s, op));
  }

  /** For one, an object cleared out of the list stays connected, and its dirt makes the empty model dirty. */
  lemma ClearedStaysConnected<T>(kind: T -> Kind, o: T)
    requires Signals(kind, o)
    ensures var inserted := Exec(kind, Empty(), Insert(0, o));
      && Tracked(kind, inserted) && !Tracked(kind, Exec(kind, inserted, Clear))
      && var m := DirtySet(kind, Exec(kind, inserted, Clear), false);
         m.list == [] && !m.dirty && ChildDirtied(kind, m, o, true).dirty
  {
    var inserted := Exec(kind, Empty(), Insert(0, o));
    assert inserted.connected == multiset{o} && o in inserted.connected && inserted.dirty;
    TrackedKeptIff(kind, Empty(), Insert(0, o));
    TrackedKeptIff(kind, inserted, Clear);
    CleaningCleans(kind, Exec(kind, inserted, Clear));
  }

  // ------------------------------------------------------------------ when dirt shows

  /** A child that becomes dirty makes a clean model dirty exactly if it is connected and can say so. */
  lemma DirtReachesModelIff<T>(kind: T -> Kind, m: Model<T>, o: T)
    requires !m.dirty && o !in m.dirtyChildren
    ensures ChildDirtied(kind, m, o, true).dirty <==> kind(o).hasDirtySignal && o in m.connected
  {
  }

  /**
    Listing one object twice breaks this: removing either row drops every connection, so the row that
    remains can become dirty under a clean model.
   */
  lemma DuplicateRowLosesTrack<T>(kind: T -> Kind, m: Model<T>, i: nat, j: nat)
    requires i < |m.list| && j < |m.list| && i != j && m.list[i] == m.list[j] && Signals(kind, m.list[i])
    ensures var o, m' := m.list[i], DirtySet(kind, Exec(kind, m, RemoveAt(i)), false);
      && o in m'.list && o !in m'.connected
      && (o !in m'.dirtyChildren ==> !ChildDirtied(kind, m', o, true).dirty)
  {
    var o, removed := m.list[i], Exec(kind, m, RemoveAt(i));
    RepeatedRemovalIsSlice(m.list, i, 1);
    assert removed.list == m.list[..i] + m.list[i + 1..] && o !in removed.connected && removed.dirty;
    assert removed.list[if j < i then j else j - 1] == o;
    CleaningCleans(kind, removed);
  }

  /**
    What dirty tracking is for, on any list, with duplicates and nulls: every element that can signal is
    heard, and none is dirty under a clean model.
   */
  ghost predicate DirtShows<T>(kind: T -> Kind, m: Model<T>) {
    && (forall o <- m.list :: Signals(kind, o) ==> Heard(m, o))
    && (forall o <- m.dirtyChildren :: kind(o).hasDirtyProperty)
  }

  /** The object is connected, and not dirty while the model is clean. */
  ghost predicate Heard<T>(m: Model<T>, o: T) {
    o in m.connected && (o in m.dirtyChildren ==> m.dirty)
  }

  /** Removing a row must not leave the same object in another; a list or row put in must be heard already. */
  ghost predicate KeepsDirtShown<T>(kind: T -> Kind, m: Model<T>, op: Op<T>) {
    match op
    case RemoveAt(i) =>
      0 <= i < |m.list| ==> !Signals(kind, m.list[i]) || m.list[i] !in m.list[..i] + m.list[i + 1..]
    case Swap(list) => forall o <- list :: Signals(kind, o) ==> Heard(m, o)
    case SetData(row, o, objectRole) => row >= 0 && objectRole && Signals(kind, o) ==> Heard(m, o)
    case _ => true
  }

  lemma AddedShows<T>(kind: T -> Kind, m: Model<T>, os: seq<T>, m': Model<T>)
    requires DirtShows(kind, m) && multiset(m'.list) == multiset(m.list) + multiset(os)
    requires forall x :: m'.connected[x] == m.connected[x] + if Signals(kind, x) then multiset(os)[x] else 0
    requires m'.dirty && m'.dirtyChildren == m.dirtyChildren
    ensures DirtShows(kind, m')
  {
    forall o | o in m'.list && Signals(kind, o) ensures Heard(m', o) {
      assert o in multiset(m'.list);
      assert o in multiset(m.list) || o in multiset(os);
      if o in m.list {
        assert Heard(m, o);
      }
    }
  }

  lemma InsertionsShow<T>(kind: T -> Kind, m: Model<T>, op: Op<T>)
    requires DirtShows(kind, m) && Allowed(kind, m, op) && (op.Insert? || op.InsertAll?)
    ensures DirtShows(kind, Exec(kind, m, op))
  {
    match op
    case Insert(i, o) =>
      InsertAdds(m.list, i, o);
      AddedShows(kind, m, [o], Exec(kind, m, op));
    case InsertAll(i, os) =>
      BatchAdds(m.list, i, os);
      forall x {
        BatchConnects(kind, m.connected, os, x);
      }
      AddedShows(kind, m, os, Exec(kind, m, op));
  }

  lemma RemovalShowsIff<T>(kind: T -> Kind, m: Model<T>, i: nat)
    requires DirtShows(kind, m) && i < |m.list|
    ensures DirtShows(kind, Exec(kind, m, RemoveAt(i))) <==> KeepsDirtShown(kind, m, RemoveAt(i))
  {
    var m', o, list' := Exec(kind, m, RemoveAt(i)), m.list[i], m.list[..i] + m.list[i + 1..];
    RepeatedRemovalIsSlice(m.list, i, 1);
    assert m'.list == list' && m'.dirty && m'.dirtyChildren == m.dirtyChildren;
    assert m'.connected == Disconnected(kind, m.connected, o);
    forall x | x in list' ensures x in m.list && (Signals(kind, x) ==> Heard(m, x)) {
    }
  }

  lemma SetDataShowsIff<T>(kind: T -> Kind, m: Model<T>, row: nat, o: T)
    requires DirtShows(kind, m) && row < |m.list|
    ensures DirtShows(kind, Exec(kind, m, SetData(row, o, true))) <==> KeepsDirtShown(kind, m, SetData(row, o, true))
  {
    var list' := m.list[row := o];
    assert list'[row] == o;
    assert forall x <- list' :: x == o || x in m.list;
  }

  /** One operation on such a list. */
  lemma DirtShowsKeptIff<T>(kind: T -> Kind, m: Model<T>, op: Op<T>)
    requires DirtShows(kind, m) && Allowed(kind, m, op)
    ensures DirtShows(kind, Exec(kind, m, op)) <==> KeepsDirtShown(kind, m, op)
  {
    match op
    case Insert(_, _) => InsertionsShow(kind, m, op);
    case InsertAll(_, _) => InsertionsShow(kind, m, op);
    case RemoveAt(i) => RemovalShowsIff(kind, m, i);
    case SetData(row, o, role) =>
      if row >= 0 && role {
        SetDataShowsIff(kind, m, row, o);
      }
    case SetDirty(dirty) =>
      if m.dirty && !dirty {
        CleaningCleans(kind, m);
      }
    case ChildSetsDirty(o, dirty) => ChildShows(kind, m, o, dirty);
    case _ =>
  }

  lemma ChildShows<T>(kind: T -> Kind, m: Model<T>, o: T, dirty: bool)
    requires DirtShows(kind, m) && kind(o).hasDirtyProperty
    ensures DirtShows(kind, ChildDirtied(kind, m, o, dirty))
  {
    var m' := ChildDirtied(kind, m, o, dirty);
    assert m'.list == m.list && m'.connected == m.connected && (m.dirty ==> m'.dirty);
    forall x | x in m.list && Signals(kind, x) ensures Heard(m', x) {
      assert Heard(m, x);
    }
  }

  /** Over a whole run, duplicates included, dirt shows throughout exactly if every operation keeps it shown. */
  lemma RunDirtShowsIff<T(!new)>(kind: T -> Kind, m: Model<T>, ops: seq<Op<T>>)
    requires IsRun(kind, m, ops)
    ensures Always(kind, m, ops, s => DirtShows(kind, s)) <==>
            DirtShows(kind, m) && Throughout(kind, m, ops, (s, op) => KeepsDirtShown(kind, s, op))
    ensures Always(kind, m, ops, s => DirtShows(kind, s)) ==> DirtShows(kind, After(kind, m, ops))
  {
    forall s, op | Allowed(kind, s, op) && DirtShows(kind, s)
      ensures DirtShows(kind, Exec(kind, s, op)) <==> KeepsDirtShown(kind, s, op)
    {
      DirtShowsKeptIff(kind, s, op);
    }
    RunKeepsIff(kind, m, ops, s => DirtShows(kind, s), (s, op) => KeepsDirtShown(kind, s, op));
  }
}
