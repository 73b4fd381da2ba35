/**
  app/adsb/adsbvehiclemanager.cpp over its real parts: the observable list of vehicle objects, the map from
  addresses to the same objects, and the two timers.
 */
module AdsbVehicleManagers {
  import opened Prelude
  import opened AdsbVehicles
  import opened QmlObjectListModels
  import Rows = ListModelSpec
  import Views = ListModelProofs
  import opened AdsbStore
  import opened AdsbStoreProofs

  /** A vehicle has neither a dirty property nor a signal for it. */
  function VehicleKind(): ADSBVehicle -> Rows.Kind {
    _ => Rows.Kind(false, false, false)
  }

  function Addresses(list: seq<ADSBVehicle>): (s: seq<Uint32>)
    ensures |s| == |list| && forall i | 0 <= i < |s| :: s[i] == list[i].icaoAddress
  {
    seq(|list|, i requires 0 <= i < |list| => list[i].icaoAddress)
  }

  /** The sweep has dealt with the rows above `i`. */
  ghost predicate SweptAbove(start: Store, s: Store, now: int, i: int) {
    && -1 <= i < |start.listed|
    && s == start.(
         listed := start.listed[..i + 1] + Unexpired(start.listed[i + 1..], start.known, now),
         known := start.known - ExpiredOf(start.listed[i + 1..], start.known, now))
  }

  /** What the body of the loop does to row `i`. */
  ghost predicate RowSwept(s: Store, s': Store, now: int, i: nat) {
    && i < |s.listed|
    && var a := s.listed[i];
       s' == if Stale(s.known, a, now)
             then s.(listed := s.listed[..i] + s.listed[i + 1..], known := s.known - {a}) else s
  }

  lemma SweepTurnRows(rows: seq<Uint32>, known: map<Uint32, Data>, now: int, i: nat)
    requires i < |rows|
    ensures var s := rows[..i + 1] + Unexpired(rows[i + 1..], known, now);
      (if Stale(known, rows[i], now) then s[..i] + s[i + 1..] else s) == rows[..i] + Unexpired(rows[i..], known, now)
  {
    assert rows[i..] == [rows[i]] + rows[i + 1..];
    assert rows[..i + 1] == rows[..i] + [rows[i]];
  }

  lemma SweepTurnKeys(rows: seq<Uint32>, known: map<Uint32, Data>, now: int, i: nat)
    requires i < |rows| && Distinct(rows)
    ensures rows[i] !in ExpiredOf(rows[i + 1..], known, now)
    ensures ExpiredOf(rows[i..], known, now) ==
            (if Stale(known, rows[i], now) then {rows[i]} else {}) + ExpiredOf(rows[i + 1..], known, now)
  {
    assert rows[i..] == [rows[i]] + rows[i + 1..];
  }

  lemma TwoRemovals(known: map<Uint32, Data>, gone: set<Uint32>, a: Uint32)
    ensures (known - gone) - {a} == known - ({a} + gone)
    ensures known - ({} + gone) == known - gone
  {
    assert {} + gone == gone;
  }

  /** One turn of the sweep, seen from the list it started with. */
  lemma SweepTurn(start: Store, s: Store, s': Store, now: int, i: nat)
    requires SweptAbove(start, s, now, i) && RowSwept(s, s', now, i) && ListInMap(start)
    ensures SweptAbove(start, s', now, i - 1)
  {
    var a, gone := start.listed[i], ExpiredOf(start.listed[i + 1..], start.known, now);
    SweepTurnRows(start.listed, start.known, now, i);
    SweepTurnKeys(start.listed, start.known, now, i);
    assert s.listed[i] == a && s.known == start.known - gone;
    assert Stale(s.known, a, now) <==> Stale(start.known, a, now);
    TwoRemovals(start.known, gone, a);
  }

  lemma SweepBounds(start: Store, s: Store, now: int)
    ensures SweptAbove(start, start, now, |start.listed| - 1)
    ensures SweptAbove(start, s, now, -1) ==>
              s == start.(listed := Unexpired(start.listed, start.known, now),
                          known := start.known - ExpiredOf(start.listed, start.known, now))
  {
    var n := |start.listed|;
    assert start.listed[..n] == start.listed && start.listed[n..] == [] && start.listed[0..] == start.listed;
    assert start.listed + [] == start.listed && start.listed[..0] == [];
    assert start.known - ExpiredOf([], start.known, now) == start.known;
  }

  /**
    Every listed object is the one its address maps to, once; every object is held under its address; and of
    these exactly the deleted ones are not listed.
   */
  ghost predicate IndexOf(list: seq<ADSBVehicle>, index: map<Uint32, ADSBVehicle>, deleted: set<ADSBVehicle>) {
    && (forall v <- list :: v.icaoAddress in index && index[v.icaoAddress] == v)
    && Distinct(list)
    && (forall a <- index :: index[a].icaoAddress == a)
    && (forall v <- list :: v !in deleted)
    && (forall a <- index :: index[a] in list || index[a] in deleted)
  }

  lemma IndexAdopts(list: seq<ADSBVehicle>, index: map<Uint32, ADSBVehicle>, deleted: set<ADSBVehicle>, v: ADSBVehicle)
    requires IndexOf(list, index, deleted) && v.icaoAddress !in index && v !in deleted
    ensures IndexOf(list + [v], index[v.icaoAddress := v], deleted)
  {
  }

  lemma IndexDrops(list: seq<ADSBVehicle>, index: map<Uint32, ADSBVehicle>, deleted: set<ADSBVehicle>, i: nat)
    requires IndexOf(list, index, deleted) && i < |list|
    ensures IndexOf(list[..i] + list[i + 1..], index - {list[i].icaoAddress}, deleted + {list[i]})
    ensures Addresses(list[..i] + list[i + 1..]) == Addresses(list)[..i] + Addresses(list)[i + 1..]
  {
    var list' := list[..i] + list[i + 1..];
    forall v | v in list ensures v == list[i] || v in list' {
      var j :| 0 <= j < |list| && list[j] == v;
      assert j == i || list'[if j < i then j else j - 1] == v;
    }
  }

  class ADSBVehicleManager {
    const adsbVehicles: QmlObjectListModel<ADSBVehicle>
    var adsbICAOMap: map<Uint32, ADSBVehicle>
    var lastUpdateTimer: Option<int>
    var status: int
    ghost var history: seq<Event>                // the slots run so far
    ghost var deleted: set<ADSBVehicle>          // the vehicles `deleteLater` was called on

    /** A view that follows the list model shows exactly its rows. */
    ghost predicate Shown()
      reads adsbVehicles
    {
      && adsbVehicles.kind == VehicleKind()
      && !adsbVehicles.externalBeginResetModel
      && Views.Agrees(adsbVehicles.View())
    }

    ghost predicate Indexed()
      reads `adsbICAOMap, `deleted, adsbVehicles
    {
      IndexOf(adsbVehicles.objectList, adsbICAOMap, deleted)
    }

    /** Both, which every line of a slot keeps. */
    ghost predicate Sound()
      reads `adsbICAOMap, `deleted, adsbVehicles
    {
      Shown() && Indexed()
    }

    /** Between slots the objects are what the slots run so far make them. */
    ghost predicate Valid()
      reads this, adsbVehicles, adsbICAOMap.Values
    {
      Sound() && View() == After(history)
    }

    ghost function View(): Store
      reads `adsbICAOMap, `lastUpdateTimer, `status, adsbVehicles, adsbICAOMap.Values
    {
      Store(Addresses(adsbVehicles.objectList), Known(), lastUpdateTimer, status)
    }

    ghost function Known(): map<Uint32, Data>
      reads `adsbICAOMap, adsbICAOMap.Values
    {
      map a | a in adsbICAOMap :: adsbICAOMap[a].View()
    }

    constructor ()
      ensures Valid() && history == [] && View() == INITIAL && fresh(adsbVehicles)
    {
      adsbVehicles := new QmlObjectListModel(VehicleKind());
      adsbICAOMap, lastUpdateTimer, status := map[], None, 0;
      history, deleted := [], {};
    }

    /** An address is in the list exactly if the object it maps to is. */
    lemma ListedByAddress(a: Uint32)
      requires Sound()
      ensures a in View().listed <==> a in adsbICAOMap && adsbICAOMap[a] in adsbVehicles.objectList
    {
      var list := adsbVehicles.objectList;
      if a in View().listed {
        var i :| 0 <= i < |list| && Addresses(list)[i] == a;
        assert list[i] in list;
      }
      if a in adsbICAOMap && adsbICAOMap[a] in list {
        var i :| 0 <= i < |list| && list[i] == adsbICAOMap[a];
        assert Addresses(list)[i] == a;
      }
    }

    /** Which addresses the list shows, whatever slots have run. */
    lemma ShowsIff(a: Uint32)
      requires Valid()
      ensures (exists v :: v in adsbVehicles.objectList && v.icaoAddress == a)
              <==> Alive(history, a) && !ClearedWhileAlive(history, a)
    {
      ListedIff(history, a);
      ListedByAddress(a);
    }

    /** The next report for an address goes to a deleted object exactly if a clear found the aircraft alive. */
    lemma DanglesIff(a: Uint32)
      requires Valid()
      ensures a in adsbICAOMap && adsbICAOMap[a] in deleted <==> ClearedWhileAlive(history, a)
    {
      ListedIff(history, a);
      ListedByAddress(a);
      assert a in adsbICAOMap <==> a in View().known;
    }

    /** The map holds no object the list does not show exactly if no clear found an aircraft alive. */
    lemma SameObjectsIff()
      requires Valid()
      ensures (forall a <- adsbICAOMap :: adsbICAOMap[a] in adsbVehicles.objectList)
              <==> forall a: Uint32 :: !ClearedWhileAlive(history, a)
    {
      forall a: Uint32 | true
        ensures a in adsbICAOMap && adsbICAOMap[a] !in adsbVehicles.objectList <==> ClearedWhileAlive(history, a)
      {
        DanglesIff(a);
      }
    }

    method AppendRow(v: ADSBVehicle)
      requires Shown()
      modifies adsbVehicles
      ensures Shown() && adsbVehicles.objectList == old(adsbVehicles.objectList) + [v]
    {
      Views.AgreementKeptIffAnnounced(adsbVehicles.kind, adsbVehicles.View(), Rows.Insert(|adsbVehicles.objectList|, v));
      adsbVehicles.Append(v);
    }

    method RemoveRow(i: nat)
      requires Shown() && i < |adsbVehicles.objectList|
      modifies adsbVehicles
      ensures Shown()
      ensures adsbVehicles.objectList == old(adsbVehicles.objectList[..i] + adsbVehicles.objectList[i + 1..])
    {
      Views.AgreementKeptIffAnnounced(adsbVehicles.kind, adsbVehicles.View(), Rows.RemoveAt(i));
      var removed := adsbVehicles.RemoveAt(i);
    }

    /** A slot has run. */
    ghost method Record(e: Event)
      requires Sound() && View() == Exec(After(history), e)
      modifies `history
      ensures Valid() && history == old(history) + [e] && View() == old(View())
    {
      AfterNext(history, e);
      history := history + [e];
    }

    /** `garbage` is what the uninitialised fields of a new vehicle happen to hold. */
    method AdsbVehicleUpdate(info: Info, garbage: Data, now: int)
      requires Valid()
      modifies this, adsbVehicles, adsbICAOMap.Values
      ensures Valid() && history == old(history) + [Report(info, garbage, now)]
      ensures View() == Exec(old(View()), Report(info, garbage, now))
    {
      if info.Has(Location) {
        ReportLocated(info, garbage, now);
      }
      Record(Report(info, garbage, now));
    }

    /** Lines 130 to 144. */
    method ReportLocated(info: Info, garbage: Data, now: int)
      requires Sound() && info.Has(Location)
      modifies `adsbICAOMap, `lastUpdateTimer, `status, adsbVehicles, adsbICAOMap.Values
      ensures Sound() && View() == Exec(old(View()), Report(info, garbage, now))
    {
      if info.icao in adsbICAOMap {
        UpdateKnown(info, now);
      } else {
        AddVehicle(info, garbage, now);
      }
      Touch(now);
    }

    /** Lines 143 and 144. */
    method Touch(now: int)
      requires Sound()
      modifies `lastUpdateTimer, `status
      ensures Sound() && View() == old(View()).(timer := Some(now), status := 2)
    {
      lastUpdateTimer := Some(now);
      status := 2;
    }

    /** Line 131. */
    method UpdateKnown(info: Info, now: int)
      requires Sound() && info.icao in adsbICAOMap
      modifies adsbICAOMap[info.icao]
      ensures Sound()
      ensures View() == old(View()).(known := old(View()).known[info.icao := Merge(old(View()).known[info.icao], info, now)])
    {
      var emitted := adsbICAOMap[info.icao].Update(info, now);
    }

    /** Lines 135 to 137. */
    method AddVehicle(info: Info, garbage: Data, now: int)
      requires Sound() && info.icao !in adsbICAOMap
      modifies `adsbICAOMap, adsbVehicles
      ensures Sound()
      ensures View() == old(View()).(
                listed := old(View()).listed + [info.icao],
                known := old(View()).known[info.icao := Merge(Fresh(info.icao, garbage), info, now)])
    {
      var adsbVehicle := new ADSBVehicle(info, garbage, now);
      Adopt(adsbVehicle);
    }

    /** Lines 136 and 137. */
    method Adopt(v: ADSBVehicle)
      requires Sound() && v.icaoAddress !in adsbICAOMap && v !in deleted
      modifies `adsbICAOMap, adsbVehicles
      ensures Sound()
      ensures View() == old(View()).(
                listed := old(View()).listed + [v.icaoAddress], known := old(View()).known[v.icaoAddress := v.View()])
    {
      IndexAdopts(adsbVehicles.objectList, adsbICAOMap, deleted, v);
      AddKey(v);
      AppendRow(v);
    }

    /** Line 136. */
    method AddKey(v: ADSBVehicle)
      modifies `adsbICAOMap
      ensures adsbICAOMap == old(adsbICAOMap)[v.icaoAddress := v]
      ensures Known() == old(Known())[v.icaoAddress := v.View()]
    {
      adsbICAOMap := adsbICAOMap[v.icaoAddress := v];
    }

    /** The sweep, from the last row to the first, then the indicator. */
    method CleanupStaleVehicles(now: int, unstarted: int)
      requires Valid()
      modifies this, adsbVehicles
      ensures Valid() && history == old(history) + [Tick(now, unstarted)]
      ensures View() == Exec(old(View()), Tick(now, unstarted))
    {
      SweepRows(now);
      Dim(if lastUpdateTimer.Some? then now - lastUpdateTimer.value else unstarted);
      Record(Tick(now, unstarted));
    }

    /** Lines 105 to 112. */
    method Dim(elapsed: int)
      requires Sound()
      modifies `status
      ensures Sound() && View() == old(View()).(status := Dimmed(old(status), elapsed))
    {
      if elapsed > 60000 {
        status := 0;
      } else if elapsed > 20000 {
        status := 1;
      }
    }

    /** Lines 94 to 102. */
    method SweepRows(now: int)
      requires Sound()
      modifies `adsbICAOMap, `deleted, adsbVehicles
      ensures Sound()
      ensures View() == old(View()).(
                listed := Unexpired(old(View()).listed, old(View()).known, now),
                known := old(View()).known - ExpiredOf(old(View()).listed, old(View()).known, now))
    {
      ghost var start := View();
      IndexedView();
      SweepBounds(start, start, now);
      var i := adsbVehicles.Count() - 1;
      while i >= 0
        invariant Sound() && SweptAbove(start, View(), now, i)
      {
        SweepOneMore(start, i, now);
        i := i - 1;
      }
      SweepBounds(start, View(), now);
    }

    lemma IndexedView()
      requires Indexed()
      ensures ListInMap(View())
    {
    }

    /** One turn of the loop. */
    method SweepOneMore(ghost start: Store, i: nat, now: int)
      requires Sound() && SweptAbove(start, View(), now, i) && ListInMap(start)
      modifies `adsbICAOMap, `deleted, adsbVehicles
      ensures Sound() && SweptAbove(start, View(), now, i - 1)
    {
      ghost var before := View();
      assert i < |before.listed|;
      SweepRow(i, now);
      SweepTurn(start, before, View(), now, i);
    }

    /** The body of the loop: the row goes, and with it its key, cast to `int` and back. */
    method SweepRow(i: nat, now: int)
      requires Sound() && i < |adsbVehicles.objectList|
      modifies `adsbICAOMap, `deleted, adsbVehicles
      ensures Sound() && RowSwept(old(View()), View(), now, i)
    {
      var expired := adsbVehicles.objectList[i].HasExpired(now);
      if expired {
        DropRow(i);
      }
    }

    /** Lines 98 to 100. */
    method DropRow(i: nat)
      requires Sound() && i < |adsbVehicles.objectList|
      modifies `adsbICAOMap, `deleted, adsbVehicles
      ensures Sound()
      ensures var s, rows := old(View()), old(adsbVehicles.objectList);
        View() == s.(listed := s.listed[..i] + s.listed[i + 1..], known := s.known - {rows[i].icaoAddress})
    {
      var adsbVehicle := adsbVehicles.objectList[i];
      IndexDrops(adsbVehicles.objectList, adsbICAOMap, deleted, i);
      RemoveRow(i);
      DropKey(adsbVehicle);
    }

    /** Lines 99 and 100. */
    method DropKey(adsbVehicle: ADSBVehicle)
      modifies `adsbICAOMap, `deleted
      ensures adsbICAOMap == old(adsbICAOMap) - {adsbVehicle.icaoAddress} && deleted == old(deleted) + {adsbVehicle}
      ensures Known() == old(Known()) - {adsbVehicle.icaoAddress}
    {
      AddressSurvivesCast(adsbVehicle.icaoAddress);
      adsbICAOMap := adsbICAOMap - {ToUint(adsbVehicle.IcaoAddress())};
      deleted := deleted + {adsbVehicle};
    }

    method ClearRows()
      requires Shown()
      modifies adsbVehicles
      ensures Shown() && adsbVehicles.objectList == []
    {
      Views.AgreementKeptIffAnnounced(adsbVehicles.kind, adsbVehicles.View(), Rows.ClearAndDeleteContents);
      adsbVehicles.ClearAndDeleteContents();
    }

    /**
      The list is emptied and its vehicles are deleted, but the map keeps them.  Two signals are connected to
      this slot, and nothing in the source emits either.
     */
    method AdsbClearModel(ghost now: int)
      requires Valid()
      modifies adsbVehicles, `history, `deleted
      ensures Valid() && history == old(history) + [ClearAll(now)]
      ensures View() == Exec(old(View()), ClearAll(now))
      ensures deleted == old(deleted) + set v | v in old(adsbVehicles.objectList)
    {
      deleted := deleted + set v | v in adsbVehicles.objectList;
      ClearRows();
      Record(ClearAll(now));
    }
  }
}
