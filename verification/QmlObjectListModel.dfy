/**
  The list model as the source has it: fields changed in place, the row loops, and the re-entrant child
  signals.  Each method is proved to leave the state `ListModelSpec.Exec` gives, so what is proved there
  and in `ListModelProofs` and `DirtyProofs` holds of it.
 */
module QmlObjectListModels {
  import opened Prelude
  import opened ListModelSpec

  class QmlObjectListModel<T(==)> {
    const kind: T -> Kind
    var objectList: seq<T>
    var dirty: bool
    var externalBeginResetModel: bool
    var connected: multiset<T>
    var dirtyChildren: set<T>
    ghost var log: seq<Notice<T>>

    ghost function View(): Model<T>
      reads this
    {
      Model(objectList, dirty, externalBeginResetModel, connected, dirtyChildren, log)
    }

    constructor (kind: T -> Kind)
      ensures View() == Empty() && this.kind == kind
    {
      this.kind := kind;
      objectList, dirty, externalBeginResetModel := [], false, false;
      connected, dirtyChildren, log := multiset{}, {}, [];
    }

    /** A model that becomes dirty says so; one that is dirty already says nothing. */
    ghost function MadeDirty(wasDirty: bool): seq<Notice<T>> {
      if wasDirty then [] else [DirtyChanged(true)]
    }

    function Count(): nat
      reads this
    {
      |objectList|
    }

    /** `get` and `operator[]`: null outside the list. */
    function Get(index: int): (o: Option<T>)
      reads this
      ensures o.Some? <==> 0 <= index < |objectList|
    {
      if index < 0 || index >= |objectList| then None else Some(objectList[index])
    }

    method IndexOf(item: T) returns (i: int)
      ensures i == FirstRow(objectList, item)
    {
      i := 0;
      while i < |objectList|
        invariant 0 <= i <= |objectList| && item !in objectList[..i]
      {
        if objectList[i] == item {
          assert FirstRow(objectList, item) <= i;
          return;
        }
        i := i + 1;
      }
      i := -1;
    }

    method InsertRows(position: int, rows: nat)
      modifies `log
      ensures View() == InsertAnnounced(old(View()), position, rows)
    {
      log := log + [RowsInserted(position, position + rows - 1, objectList), CountChanged(Count())];
    }

    method RemoveRows(position: int, rows: nat)
      modifies `log, `objectList
      ensures View() == RowsTaken(old(View()), position, rows)
    {
      ghost var before := objectList;
      var row := 0;
      while row < rows
        invariant 0 <= row <= rows
        invariant RowsGone(objectList, position, rows - row) == RowsGone(before, position, rows)
        invariant log == old(log)
      {
        objectList := ListRemove(objectList, position);
        row := row + 1;
      }
      log := log + [RowsRemoved(position, position + rows - 1), CountChanged(Count())];
    }

    method Clear()
      modifies this
      ensures View() == Exec(kind, old(View()), ListModelSpec.Clear)
      ensures objectList == []
      ensures log == old(log) + if externalBeginResetModel then [] else [ResetBegun, ResetEnded([]), CountChanged(0)]
    {
      if !externalBeginResetModel {
        log := log + [ResetBegun];
      }
      objectList := [];
      if !externalBeginResetModel {
        log := log + [ResetEnded(objectList), CountChanged(Count())];
      }
    }

    method SwapObjectList(newList: seq<T>) returns (oldList: seq<T>)
      modifies this
      ensures View() == Exec(kind, old(View()), Swap(newList))
      ensures oldList == old(objectList) && objectList == newList
      ensures log == old(log) + if externalBeginResetModel then []
                                else [ResetBegun, ResetEnded(newList), CountChanged(|newList|)]
    {
      oldList := objectList;
      if !externalBeginResetModel {
        log := log + [ResetBegun];
      }
      objectList := newList;
      if !externalBeginResetModel {
        log := log + [ResetEnded(objectList), CountChanged(Count())];
      }
    }

    method SetData(row: int, value: T, objectRole: bool) returns (handled: bool)
      requires row >= 0 && objectRole ==> row < |objectList|
      modifies `objectList, `log
      ensures View() == Exec(kind, old(View()), ListModelSpec.SetData(row, value, objectRole))
      ensures handled <==> row >= 0 && objectRole
      ensures objectList == if handled then old(objectList)[row := value] else old(objectList)
      ensures log == old(log) + if handled then [DataChanged(row, objectList)] else []
    {
      if row >= 0 && objectRole {
        objectList := objectList[row := value];
        log := log + [DataChanged(row, objectList)];
        return true;
      }
      return false;
    }

    method RemoveAt(i: int) returns (removed: T)
      requires 0 <= i < |objectList|
      modifies this
      ensures View() == Exec(kind, old(View()), ListModelSpec.RemoveAt(i))
      ensures removed == old(objectList[i])
      ensures objectList == old(objectList[..i] + objectList[i + 1..])
      ensures log == old(log) + [RowsRemoved(i, i), CountChanged(|objectList|)] + MadeDirty(old(dirty))
      ensures dirty
    {
      removed := objectList[i];
      if !kind(removed).isNull {
        if kind(removed).hasDirtySignal {
          connected := connected[removed := 0];
        }
      }
      RepeatedRemovalIsSlice(objectList, i, 1);
      RemoveRows(i, 1);
      SetDirtyTrue();
    }

    method RemoveOne(item: T) returns (removed: T)
      requires item in objectList
      modifies this
      ensures View() == Exec(kind, old(View()), ListModelSpec.RemoveAt(FirstRow(old(objectList), item)))
      ensures removed == item
      ensures multiset(objectList) == old(multiset(objectList)) - multiset{item}
    {
      var i := IndexOf(item);
      OneRowGone(objectList, i);
      removed := RemoveAt(i);
    }

    method Insert(i: int, item: T)
      modifies this
      ensures View() == Exec(kind, old(View()), ListModelSpec.Insert(i, item))
      ensures log == old(log) + [RowsInserted(i, i, objectList), CountChanged(|objectList|)] + MadeDirty(old(dirty))
      ensures dirty
    {
      if !kind(item).isNull {
        if kind(item).hasDirtySignal {
          connected := connected + multiset{item};
        }
      }
      objectList := ListInsert(objectList, i, item);
      InsertRows(i, 1);
      SetDirtyTrue();
    }

    method Append(item: T)
      modifies this
      ensures View() == Exec(kind, old(View()), ListModelSpec.Insert(|old(objectList)|, item))
      ensures objectList == old(objectList) + [item]
    {
      Insert(Count(), item);
    }

    /** The batch insert. */
    method InsertAll(i: int, objects: seq<T>)
      requires AllNonNull(kind, objects)
      modifies this
      ensures View() == Exec(kind, old(View()), ListModelSpec.InsertAll(i, objects))
      ensures log == old(log) + [RowsInserted(i, i + |objects| - 1, objectList), CountChanged(|objectList|)] +
                     MadeDirty(old(dirty))
      ensures dirty
    {
      InsertEach(i, objects);
      InsertRows(i, |objects|);
      SetDirtyTrue();
    }

    /** Lines 193 to 206. */
    method InsertEach(i: int, objects: seq<T>)
      requires AllNonNull(kind, objects)
      modifies `connected, `objectList
      ensures objectList == BatchInserted(old(objectList), i, objects)
      ensures connected == AllConnected(kind, old(connected), objects)
    {
      var j := i;
      var n := 0;
      ghost var list0, connected0 := objectList, connected;
      while n < |objects|
        invariant 0 <= n <= |objects| && j == i + n
        invariant BatchInserted(objectList, j, objects[n..]) == BatchInserted(list0, i, objects)
        invariant connected == AllConnected(kind, connected0, objects[..n])
      {
        var item := objects[n];
        ConnectTurn(kind, connected0, objects, n);
        BatchTurn(objectList, j, objects, n);
        if kind(item).hasDirtySignal {
          connected := connected + multiset{item};
        }
        j := j + 1;
        objectList := ListInsert(objectList, j, item);
        n := n + 1;
      }
      assert objects[..n] == objects;
    }

    method AppendAll(objects: seq<T>)
      requires AllNonNull(kind, objects)
      modifies this
      ensures View() == Exec(kind, old(View()), ListModelSpec.InsertAll(|old(objectList)|, objects))
      ensures objectList == old(objectList) + objects
    {
      BatchLandsOneRowLate(objectList, Count(), objects);
      InsertAll(Count(), objects);
    }

    /** `setDirty(true)`, which leaves the children alone. */
    method SetDirtyTrue()
      modifies `dirty, `log
      ensures View() == DirtySet(kind, old(View()), true)
      ensures dirty && log == old(log) + MadeDirty(old(dirty))
    {
      if !dirty {
        dirty := true;
        log := log + [DirtyChanged(dirty)];
      }
    }

    method SetDirty(value: bool)
      requires dirty && !value ==> AllNonNull(kind, objectList)
      modifies `dirty, `dirtyChildren, `log
      ensures View() == DirtySet(kind, old(View()), value)
      ensures old(dirty) == value ==> View() == old(View())
      ensures !old(dirty) && value ==> View() == old(View()).(dirty := true, log := old(log) + [DirtyChanged(true)])
    {
      if dirty != value {
        dirty := value;
        if !value {
          CleanChildren();
        }
        log := log + [DirtyChanged(dirty)];
      }
    }

    /** Lines 248 to 252. */
    method CleanChildren()
      modifies `dirty, `dirtyChildren, `log
      ensures View() == ChildrenCleaned(kind, old(View()), |old(objectList)|)
    {
      ghost var start := View();
      var k := 0;
      while k < |objectList|
        invariant 0 <= k <= |objectList|
        invariant View() == ChildrenCleaned(kind, start, k)
      {
        if kind(objectList[k]).hasDirtyProperty {
          ChildSetsDirty(objectList[k], false);
        }
        k := k + 1;
      }
    }

    /** An element's dirty property is set, by this model or by anyone; its signal comes back in. */
    method ChildSetsDirty(item: T, value: bool)
      modifies `dirty, `dirtyChildren, `log
      ensures View() == ChildDirtied(kind, old(View()), item, value)
    {
      if (item in dirtyChildren) != value {
        dirtyChildren := if value then dirtyChildren + {item} else dirtyChildren - {item};
        if kind(item).hasDirtySignal {
          ChildDirtyChanged(connected[item], value);
        }
      }
    }

    /** The slot, run once per connection. */
    method ChildDirtyChanged(connections: nat, value: bool)
      modifies `dirty, `log
      ensures View() == Notified(old(View()), connections, value)
      ensures dirty <==> old(dirty) || (connections > 0 && value)
      ensures |log| == |old(log)| + connections && old(log) <= log
      ensures forall n | |old(log)| <= n < |log| :: log[n] == DirtyChanged(dirty)
    {
      ghost var start := View();
      var c := 0;
      while c < connections
        invariant 0 <= c <= connections
        invariant View() == Notified(start, c, value)
        invariant dirty <==> start.dirty || (c > 0 && value)
      {
        dirty := dirty || value;
        log := log + [DirtyChanged(dirty)];
        c := c + 1;
      }
    }

    method BeginReset()
      modifies `externalBeginResetModel, `log
      ensures View() == Exec(kind, old(View()), ListModelSpec.BeginReset)
      ensures externalBeginResetModel && log == old(log) + [ResetBegun]
    {
      externalBeginResetModel := true;
      log := log + [ResetBegun];
    }

    method EndReset()
      modifies `externalBeginResetModel, `log
      ensures View() == Exec(kind, old(View()), ListModelSpec.EndReset)
      ensures !externalBeginResetModel && log == old(log) + [ResetEnded(objectList)]
    {
      externalBeginResetModel := false;
      log := log + [ResetEnded(objectList)];
    }

    method ClearAndDeleteContents()
      requires AllNonNull(kind, objectList)
      modifies this
      ensures View() == Exec(kind, old(View()), ListModelSpec.ClearAndDeleteContents)
      ensures objectList == []
      ensures log == old(log) + if externalBeginResetModel then [ResetBegun, ResetEnded([])]
                                else [ResetBegun, ResetBegun, ResetEnded([]), CountChanged(0), ResetEnded([])]
    {
      log := log + [ResetBegun];
      Clear();
      log := log + [ResetEnded(objectList)];
    }
  }
}
