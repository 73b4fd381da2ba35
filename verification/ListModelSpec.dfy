/**
  app/adsb/qmlobjectlistmodel.cpp on values: the list, its dirty flag, its reset flag, the child
  connections, and the log of everything a view attached to the model is told.
 */
module ListModelSpec {

  /** What the meta-object of a list element offers. */
  datatype Kind = Kind(isNull: bool, hasDirtySignal: bool, hasDirtyProperty: bool)

  /** Notices to a view; `now` is the list at that moment, which is what the view re-reads rows from. */
  datatype Notice<T> =
    | RowsInserted(first: int, last: int, now: seq<T>)
    | RowsRemoved(first: int, last: int)
    | DataChanged(row: int, now: seq<T>)
    | ResetBegun
    | ResetEnded(now: seq<T>)
    | CountChanged(count: nat)
    | DirtyChanged(dirty: bool)

  datatype Model<T> = Model(
    list: seq<T>,
    dirty: bool,
    external: bool,              // _externalBeginResetModel
    connected: multiset<T>,      // connections of a child's dirtyChanged to _childDirtyChanged
    dirtyChildren: set<T>,       // the objects whose own dirty property is true
    log: seq<Notice<T>>)

  /** `QList::insert`, which takes an index past either end for that end. */
  function ListInsert<T>(list: seq<T>, i: int, o: T): seq<T> {
    var k := if i <= 0 then 0 else if i >= |list| then |list| else i;
    list[..k] + [o] + list[k..]
  }

  /** `QList::removeAt`, which ignores an index outside the list. */
  function ListRemove<T>(list: seq<T>, i: int): seq<T> {
    if 0 <= i < |list| then list[..i] + list[i + 1..] else list
  }

  /** `QList::indexOf`: the first row of an object, or -1. */
  function FirstRow<T(==)>(list: seq<T>, o: T): (k: int)
    ensures -1 <= k < |list|
    ensures k == -1 <==> o !in list
    ensures k >= 0 ==> list[k] == o && o !in list[..k]
  {
    if list == [] then -1
    else if list[0] == o then 0
    else
      var k := FirstRow(list[1..], o);
      assert k >= 0 ==> list[..k + 1] == [list[0]] + list[1..][..k];
      if k < 0 then -1 else k + 1
  }

  lemma OneRowGone<T>(list: seq<T>, i: nat)
    requires i < |list|
    ensures multiset(list[..i] + list[i + 1..]) == multiset(list) - multiset{list[i]}
  {
    assert list == list[..i] + [list[i]] + list[i + 1..];
  }

  /** An index past either end is taken for that end. */
  lemma InsertLands<T>(list: seq<T>, i: int, o: T)
    ensures 0 <= i <= |list| ==> ListInsert(list, i, o) == list[..i] + [o] + list[i..]
    ensures i < 0 ==> ListInsert(list, i, o) == [o] + list
    ensures i > |list| ==> ListInsert(list, i, o) == list + [o]
  {
  }

  /** Removing `n` rows one after the other at one position. */
  function RowsGone<T>(list: seq<T>, position: int, n: nat): seq<T> {
    if n == 0 then list else RowsGone(ListRemove(list, position), position, n - 1)
  }

  lemma RepeatedRemovalIsSlice<T>(list: seq<T>, position: nat, n: nat)
    requires position + n <= |list|
    ensures RowsGone(list, position, n) == list[..position] + list[position + n..]
  {
    if n > 0 {
      RepeatedRemovalIsSlice(ListRemove(list, position), position, n - 1);
    }
  }

  /** The batch insert: `j` is advanced before each object is inserted. */
  function BatchInserted<T>(list: seq<T>, j: int, objects: seq<T>): seq<T>
    decreases objects
  {
    if objects == [] then list else BatchInserted(ListInsert(list, j + 1, objects[0]), j + 1, objects[1..])
  }

  /** So a batch inserted before the end lands one row late. */
  lemma {:induction false} BatchLandsOneRowLate<T>(list: seq<T>, i: nat, objects: seq<T>)
    requires i <= |list|
    ensures BatchInserted(list, i, objects) ==
            if i == |list| then list + objects else list[..i + 1] + objects + list[i + 1..]
    decreases objects
  {
    if objects != [] {
      var next := ListInsert(list, i + 1, objects[0]);
      if i == |list| {
        assert next == list + [objects[0]];
        AppendLoop(next, i + 1, objects[1..]);
      } else {
        assert next == list[..i + 1] + [objects[0]] + list[i + 1..];
        BatchLandsOneRowLate(next, i + 1, objects[1..]);
        assert next[..i + 2] == list[..i + 1] + [objects[0]] && next[i + 2..] == list[i + 1..];
        assert objects == [objects[0]] + objects[1..];
      }
    }
  }

  lemma {:induction false} AppendLoop<T>(list: seq<T>, j: nat, objects: seq<T>)
    requires j >= |list|
    ensures BatchInserted(list, j, objects) == list + objects
    decreases objects
  {
    if objects != [] {
      assert ListInsert(list, j + 1, objects[0]) == list + [objects[0]];
      AppendLoop(list + [objects[0]], j + 1, objects[1..]);
    }
  }

  /** One turn of the batch loop. */
  lemma BatchTurn<T>(list: seq<T>, j: int, objects: seq<T>, n: nat)
    requires n < |objects|
    ensures BatchInserted(list, j, objects[n..]) ==
            BatchInserted(ListInsert(list, j + 1, objects[n]), j + 1, objects[n + 1..])
  {
    assert objects[n..][1..] == objects[n + 1..];
  }

  // ------------------------------------------------------------------ operations

  datatype Op<T> =
    | Insert(i: int, object: T)
    | InsertAll(i: int, objects: seq<T>)
    | RemoveAt(i: int)
    | Clear
    | Swap(newList: seq<T>)
    | SetData(row: int, object: T, objectRole: bool)
    | SetDirty(dirty: bool)
    | ChildSetsDirty(object: T, dirty: bool)
    | BeginReset
    | EndReset
    | ClearAndDeleteContents

  function Empty<T>(): Model<T> {
    Model([], false, false, multiset{}, {}, [])
  }

  predicate AllNonNull<T>(kind: T -> Kind, list: seq<T>) {
    forall k | 0 <= k < |list| :: !kind(list[k]).isNull
  }

  /** Outside this the code dereferences a null pointer or indexes outside a list. */
  predicate Allowed<T>(kind: T -> Kind, m: Model<T>, op: Op<T>) {
    match op
    case InsertAll(_, objects) => AllNonNull(kind, objects)
    case RemoveAt(i) => 0 <= i < |m.list|
    case SetData(row, _, objectRole) => row >= 0 && objectRole ==> row < |m.list|
    case SetDirty(dirty) => m.dirty && !dirty ==> AllNonNull(kind, m.list)
    case ChildSetsDirty(o, _) => !kind(o).isNull && kind(o).hasDirtyProperty
    case ClearAndDeleteContents => AllNonNull(kind, m.list)
    case _ => true
  }

  function Repeated<T>(n: nat, notice: Notice<T>): (r: seq<Notice<T>>)
    ensures |r| == n && forall k | 0 <= k < n :: r[k] == notice
  {
    if n == 0 then [] else Repeated(n - 1, notice) + [notice]
  }

  /** `_childDirtyChanged(dirty)`, run once per connection. */
  function Notified<T>(m: Model<T>, connections: nat, dirty: bool): Model<T> {
    if connections == 0 then m
    else m.(dirty := m.dirty || dirty, log := m.log + Repeated(connections, DirtyChanged(m.dirty || dirty)))
  }

  /** An object's own dirty property is set; a change is signalled if the object has the signal. */
  function ChildDirtied<T>(kind: T -> Kind, m: Model<T>, o: T, dirty: bool): Model<T> {
    if (o in m.dirtyChildren) == dirty then m
    else
      var m' := m.(dirtyChildren := if dirty then m.dirtyChildren + {o} else m.dirtyChildren - {o});
      if kind(o).hasDirtySignal then Notified(m', m.connected[o], dirty) else m'
  }

  /** The loop of `setDirty(false)` over the first `n` children. */
  function ChildrenCleaned<T>(kind: T -> Kind, m: Model<T>, n: nat): Model<T>
    requires n <= |m.list|
    ensures ChildrenCleaned(kind, m, n).list == m.list
  {
    if n == 0 then m
    else
      var before := ChildrenCleaned(kind, m, n - 1);
      var o := before.list[n - 1];
      if kind(o).hasDirtyProperty then ChildDirtied(kind, before, o, false) else before
  }

  function DirtySet<T>(kind: T -> Kind, m: Model<T>, dirty: bool): Model<T> {
    if m.dirty == dirty then m
    else
      var m' := m.(dirty := dirty);
      var m'' := if dirty then m' else ChildrenCleaned(kind, m', |m.list|);
      m''.(log := m''.log + [DirtyChanged(m''.dirty)])
  }

  function Connected<T>(kind: T -> Kind, connected: multiset<T>, o: T): multiset<T> {
    if !kind(o).isNull && kind(o).hasDirtySignal then connected + multiset{o} else connected
  }

  function AllConnected<T>(kind: T -> Kind, connected: multiset<T>, objects: seq<T>): multiset<T> {
    if objects == [] then connected
    else Connected(kind, AllConnected(kind, connected, objects[..|objects| - 1]), objects[|objects| - 1])
  }

  lemma ConnectTurn<T>(kind: T -> Kind, connected: multiset<T>, objects: seq<T>, n: nat)
    requires n < |objects|
    ensures AllConnected(kind, connected, objects[..n + 1]) ==
            Connected(kind, AllConnected(kind, connected, objects[..n]), objects[n])
  {
    assert objects[..n + 1][..n] == objects[..n];
  }

  function Disconnected<T>(kind: T -> Kind, connected: multiset<T>, o: T): multiset<T> {
    if !kind(o).isNull && kind(o).hasDirtySignal then connected[o := 0] else connected
  }

  function InsertAnnounced<T>(m: Model<T>, position: int, rows: nat): Model<T> {
    m.(log := m.log + [RowsInserted(position, position + rows - 1, m.list), CountChanged(|m.list|)])
  }

  function RowsTaken<T>(m: Model<T>, position: int, rows: nat): Model<T> {
    var list := RowsGone(m.list, position, rows);
    m.(list := list, log := m.log + [RowsRemoved(position, position + rows - 1), CountChanged(|list|)])
  }

  /** `clear` and `swapObjectList`: silent while an outside caller has a reset open. */
  function Replaced<T>(m: Model<T>, list: seq<T>): Model<T> {
    if m.external then m.(list := list)
    else m.(list := list, log := m.log + [ResetBegun, ResetEnded(list), CountChanged(|list|)])
  }

  function Exec<T>(kind: T -> Kind, m: Model<T>, op: Op<T>): Model<T>
    requires Allowed(kind, m, op)
  {
    match op
    case Insert(i, o) =>
      var m' := m.(connected := Connected(kind, m.connected, o), list := ListInsert(m.list, i, o));
      DirtySet(kind, InsertAnnounced(m', i, 1), true)
    case InsertAll(i, os) =>
      var m' := m.(connected := AllConnected(kind, m.connected, os), list := BatchInserted(m.list, i, os));
      DirtySet(kind, InsertAnnounced(m', i, |os|), true)
    case RemoveAt(i) =>
      var m' := m.(connected := Disconnected(kind, m.connected, m.list[i]));
      DirtySet(kind, RowsTaken(m', i, 1), true)
    case Clear => Replaced(m, [])
    case Swap(newList) => Replaced(m, newList)
    case SetData(row, o, objectRole) =>
      if row >= 0 && objectRole then
        var list := m.list[row := o];
        m.(list := list, log := m.log + [DataChanged(row, list)])
      else m
    case SetDirty(dirty) => DirtySet(kind, m, dirty)
    case ChildSetsDirty(o, dirty) => ChildDirtied(kind, m, o, dirty)
    case BeginReset => m.(external := true, log := m.log + [ResetBegun])
    case EndReset => m.(external := false, log := m.log + [ResetEnded(m.list)])
    case ClearAndDeleteContents =>
      var m' := Replaced(m.(log := m.log + [ResetBegun]), []);
      m'.(log := m'.log + [ResetEnded(m'.list)])
  }

  predicate IsRun<T>(kind: T -> Kind, m: Model<T>, ops: seq<Op<T>>)
    decreases ops
  {
    ops == [] || (Allowed(kind, m, ops[0]) && IsRun(kind, Exec(kind, m, ops[0]), ops[1..]))
  }

  function After<T>(kind: T -> Kind, m: Model<T>, ops: seq<Op<T>>): Model<T>
    requires IsRun(kind, m, ops)
    decreases ops
  {
    if ops == [] then m else After(kind, Exec(kind, m, ops[0]), ops[1..])
  }

  /** Before and after every operation of the run. */
  ghost predicate Always<T>(kind: T -> Kind, m: Model<T>, ops: seq<Op<T>>, holds: Model<T> -> bool)
    requires IsRun(kind, m, ops)
    decreases ops
  {
    holds(m) && (ops == [] || Always(kind, Exec(kind, m, ops[0]), ops[1..], holds))
  }

  /** Every operation of the run meets the condition where it is run. */
  ghost predicate Throughout<T>(kind: T -> Kind, m: Model<T>, ops: seq<Op<T>>, keeps: (Model<T>, Op<T>) -> bool)
    requires IsRun(kind, m, ops)
    decreases ops
  {
    ops == [] || (keeps(m, ops[0]) && Throughout(kind, Exec(kind, m, ops[0]), ops[1..], keeps))
  }

  /** What one operation keeps exactly under a condition, a run keeps exactly if it meets it throughout. */
  lemma {:induction false} RunKeepsIff<T(!new)>(kind: T -> Kind, m: Model<T>, ops: seq<Op<T>>, holds: Model<T> -> bool,
                                         keeps: (Model<T>, Op<T>) -> bool)
    requires forall s: Model<T>, op: Op<T> :: Allowed(kind, s, op) && holds(s) ==>
               (holds(Exec(kind, s, op)) <==> keeps(s, op))
    requires IsRun(kind, m, ops)
    ensures Always(kind, m, ops, holds) <==> holds(m) && Throughout(kind, m, ops, keeps)
    ensures Always(kind, m, ops, holds) ==> holds(After(kind, m, ops))
    decreases ops
  {
    if ops != [] {
      RunKeepsIff(kind, Exec(kind, m, ops[0]), ops[1..], holds, keeps);
    }
  }
}
