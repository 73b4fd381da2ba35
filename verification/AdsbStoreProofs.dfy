/** The traffic store over whole histories. */
module AdsbStoreProofs {
  import opened Prelude
  import opened AdsbVehicles
  import opened AdsbStore

  lemma {:induction false} UnexpiredIs(listed: seq<Uint32>, known: map<Uint32, Data>, now: int)
    ensures forall a :: a in Unexpired(listed, known, now) <==> a in listed && !Stale(known, a, now)
    ensures Distinct(listed) ==> Distinct(Unexpired(listed, known, now))
  {
    if listed != [] {
      UnexpiredIs(listed[1..], known, now);
      assert forall a :: a in listed <==> a == listed[0] || a in listed[1..];
    }
  }

  /** The sweep keeps the order: two survivors stood the same way round before. */
  lemma {:induction false} SurvivorsInOrder(listed: seq<Uint32>, known: map<Uint32, Data>, now: int, p: nat, q: nat)
    returns (p': nat, q': nat)
    requires p < q < |Unexpired(listed, known, now)|
    ensures p' < q' < |listed|
    ensures listed[p'] == Unexpired(listed, known, now)[p] && listed[q'] == Unexpired(listed, known, now)[q]
  {
    if Stale(known, listed[0], now) {
      p', q' := SurvivorsInOrder(listed[1..], known, now, p, q);
      p', q' := p' + 1, q' + 1;
    } else if p == 0 {
      UnexpiredIs(listed[1..], known, now);
      var a := Unexpired(listed[1..], known, now)[q - 1];
      assert a in listed[1..];
      var n :| 0 <= n < |listed[1..]| && listed[1..][n] == a;
      p', q' := 0, n + 1;
    } else {
      p', q' := SurvivorsInOrder(listed[1..], known, now, p - 1, q - 1);
      p', q' := p' + 1, q' + 1;
    }
  }

  // ------------------------------------------------------------------ the list and the map

  /** What survives even a cleared list: every listed address is once in the list, and in the map. */
  ghost predicate ListInMap(s: Store) {
    && Distinct(s.listed)
    && (forall a <- s.listed :: a in s.known)
    && (forall a <- s.known :: s.known[a].icao == a)
  }

  ghost predicate MapInList(s: Store) {
    forall a <- s.known :: a in s.listed
  }

  lemma StepListInMap(s: Store, e: Event)
    requires ListInMap(s)
    ensures ListInMap(Exec(s, e))
  {
    if e.Tick? {
      UnexpiredIs(s.listed, s.known, e.t);
    }
  }

  lemma {:induction false} ListInMapAlways(h: seq<Event>)
    ensures ListInMap(After(h))
  {
    if h != [] {
      ListInMapAlways(h[..|h| - 1]);
      StepListInMap(After(h[..|h| - 1]), h[|h| - 1]);
    }
  }

  // ------------------------------------------------------------------ who is listed

  lemma AliveNext(h: seq<Event>, a: Uint32)
    requires h != []
    ensures var rest, e := h[..|h| - 1], h[|h| - 1];
      && (if Located(e) && e.info.icao == a then Alive(h, a) && LastReport(h, a) == |h| - 1
          else
            && LastReport(h, a) == LastReport(rest, a)
            && (Alive(h, a) <==>
                Alive(rest, a) && (e.Tick? ==> e.t - h[LastReport(h, a)].t <= 25000)))
  {
    var rest, e := h[..|h| - 1], h[|h| - 1];
    var k := LastReport(rest, a);
    if !(Located(e) && e.info.icao == a) && k >= 0 {
      assert forall n | 0 <= n < |rest| :: rest[n] == h[n];
      assert NoLateTick(h, k) <==> NoLateTick(rest, k) && (e.Tick? ==> e.t - h[k].t <= 25000);
    }
  }

  lemma ClearedNext(h: seq<Event>, a: Uint32)
    requires h != []
    ensures var rest, e := h[..|h| - 1], h[|h| - 1];
      ClearedWhileAlive(h, a) <==> ClearedWhileAlive(rest, a) || (e.ClearAll? && Alive(rest, a))
  {
    var rest := h[..|h| - 1];
    assert forall i | 0 <= i < |rest| :: h[i] == rest[i] && h[..i] == rest[..i];
    if ClearedWhileAlive(rest, a) {
      var i :| 0 <= i < |rest| && rest[i].ClearAll? && Alive(rest[..i], a);
      assert h[i].ClearAll? && Alive(h[..i], a);
    }
  }

  /**
    The display list is a function of the history, clears and all: an aircraft is listed exactly if it
    reported a place, no tick came more than 25 seconds after it last did, and no clear ever came while it
    was alive.  The map holds exactly the living and the cleared, each at the place it last reported.
   */
  lemma {:induction false} ListedIff(h: seq<Event>, a: Uint32)
    ensures a in After(h).listed <==> Alive(h, a) && !ClearedWhileAlive(h, a)
    ensures a in After(h).known <==> Alive(h, a) || ClearedWhileAlive(h, a)
    ensures a in After(h).known ==> ShownAtLastReport(h, a)
  {
    ListInMapAlways(h);
    if h != [] {
      var rest, e := h[..|h| - 1], h[|h| - 1];
      ListedIff(rest, a);
      ListInMapAlways(rest);
      AliveNext(h, a);
      ClearedNext(h, a);
      LastReportIsLast(h, a);
      if e.Tick? {
        UnexpiredIs(After(rest).listed, After(rest).known, e.t);
      } else if Located(e) && e.info.icao == a {
        var s := After(rest);
        MergeShows(if a in s.known then s.known[a] else Fresh(a, e.uninitialised), e.info, e.t);
      }
    }
  }

  /**
    What is held of an aircraft is as old as its last located report, at its place, and in every field that
    report gave as it says, altitude and heading at least close to it.
   */
  ghost predicate ShownAtLastReport(h: seq<Event>, a: Uint32)
    requires a in After(h).known
  {
    var d, k := After(h).known[a], LastReport(h, a);
    k >= 0 && Located(h[k]) && d.seen == h[k].t && Shows(d, h[k].info)
  }

  ghost predicate Shows(d: Data, i: Info) {
    && d.lat == i.lat && d.lon == i.lon
    && (i.Has(Callsign) ==> d.callsign == i.callsign)
    && (i.Has(Altitude) ==> CloseTo(d.altitude, i.altitude))
    && (i.Has(Heading) ==> CloseTo(d.heading, i.heading))
    && (i.Has(Alert) ==> d.alert == i.alert)
    && (i.Has(Velocity) ==> d.velocity == i.velocity)
    && (i.Has(VerticalVel) ==> d.verticalVel == i.verticalVel)
    && (i.Has(Distance) ==> d.lastContact == i.lastContact && d.distance == i.distance)
  }

  lemma MergeShows(d: Data, i: Info, now: int)
    requires d.icao == i.icao && i.Has(Location)
    ensures Shows(Merge(d, i, now), i) && Merge(d, i, now).seen == now
  {
    TakenUnlessClose(d, i, now);
  }

  lemma NoClearNoneCleared(h: seq<Event>)
    requires NoClear(h)
    ensures forall a: Uint32 :: !ClearedWhileAlive(h, a)
  {
    assert forall i | 0 <= i < |h| :: h[i] in h;
  }

  /** Without a clear, being alive is all it takes. */
  lemma ListedIffAlive(h: seq<Event>, a: Uint32)
    requires NoClear(h)
    ensures a in After(h).listed <==> Alive(h, a)
    ensures Alive(h, a) ==> a in After(h).known && ShownAtLastReport(h, a)
  {
    NoClearNoneCleared(h);
    ListedIff(h, a);
  }

  /**
    The list and the map agree exactly in the histories in which no clear found an aircraft alive.  The
    address mismatch in `update` never happens: each address is held under itself.
   */
  lemma ListAndMapAgreeIff(h: seq<Event>)
    ensures ListInMap(After(h))
    ensures MapInList(After(h)) <==> forall a: Uint32 :: !ClearedWhileAlive(h, a)
  {
    ListInMapAlways(h);
    forall a: Uint32 | true
      ensures a in After(h).listed <==> Alive(h, a) && !ClearedWhileAlive(h, a)
      ensures a in After(h).known <==> Alive(h, a) || ClearedWhileAlive(h, a)
    {
      ListedIff(h, a);
    }
  }

  /** `AppearsAt` is where a listed aircraft came in: it reported, was not listed, and has been ever since. */
  lemma {:induction false} AppearanceIs(h: seq<Event>, a: Uint32)
    requires Alive(h, a)
    ensures var k := AppearsAt(h, a);
      && 0 <= k && Located(h[k]) && h[k].info.icao == a
      && !Alive(h[..k], a)
      && forall n | k < n <= |h| :: Alive(h[..n], a)
  {
    var rest := h[..|h| - 1];
    AliveNext(h, a);
    if Alive(rest, a) {
      AppearanceIs(rest, a);
      forall n | AppearsAt(h, a) < n <= |h| ensures Alive(h[..n], a) {
        assert n < |h| ==> h[..n] == rest[..n];
        assert n == |h| ==> h[..n] == h;
      }
      assert h[..AppearsAt(h, a)] == rest[..AppearsAt(h, a)];
    } else {
      assert h[..|h|] == h;
    }
  }

  /**
    What is shown of a listed aircraft is the merge of its located reports since it appeared, so
    `LastWriterWins`, `SharedBit` and `NoDrift` tell each field.
   */
  lemma {:induction false} ShownIsMerged(h: seq<Event>, a: Uint32)
    requires a in After(h).listed
    ensures var k := AppearsAt(h, a);
      && 0 <= k && Located(h[k]) && a in After(h).known
      && After(h).known[a] == Folded(Fresh(a, h[k].uninitialised), ReportsSince(h, k, a))
  {
    ListedIff(h, a);
    AppearanceIs(h, a);
    var rest, e, k := h[..|h| - 1], h[|h| - 1], AppearsAt(h, a);
    ListedIff(rest, a);
    AliveNext(h, a);
    ClearedNext(h, a);
    var blank, before := Fresh(a, h[k].uninitialised), ReportsSince(rest, k, a);
    KnownNext(h, a);
    if Alive(rest, a) {
      ShownIsMerged(rest, a);
    } else {
      assert before == [];
    }
    if Located(e) && e.info.icao == a {
      FoldedNext(blank, before, e.info, e.t);
    } else {
      assert before + [] == before;
    }
  }

  /** What the last event does to one address that is listed after it. */
  lemma KnownNext(h: seq<Event>, a: Uint32)
    requires h != [] && a in After(h).known
    ensures var s, e := After(h[..|h| - 1]), h[|h| - 1];
      if Located(e) && e.info.icao == a
      then After(h).known[a] == Merge(if a in s.known then s.known[a] else Fresh(a, e.uninitialised), e.info, e.t)
      else a in s.known && After(h).known[a] == s.known[a]
  {
  }

  lemma FoldedNext(d: Data, reports: seq<(Info, int)>, info: Info, t: int)
    ensures Folded(d, reports + [(info, t)]) == Merge(Folded(d, reports), info, t)
  {
    assert (reports + [(info, t)])[..|reports|] == reports;
  }

  /** The list is in order of appearance, reappearance counting as appearance. */
  lemma {:induction false} ListInOrderOfAppearance(h: seq<Event>, p: nat, q: nat)
    requires p < q < |After(h).listed|
    ensures AppearsAt(h, After(h).listed[p]) < AppearsAt(h, After(h).listed[q])
  {
    var rest, e := h[..|h| - 1], h[|h| - 1];
    var s := After(rest);
    match e {
      case ClearAll(_) =>
      case Tick(t, _) =>
        var p', q' := SurvivorsInOrder(s.listed, s.known, t, p, q);
        ListInOrderOfAppearance(rest, p', q');
      case Report(_, _, _) =>
        ListedIff(rest, After(h).listed[p]);
        ListedIff(rest, After(h).listed[q]);
        if q < |s.listed| {
          ListInOrderOfAppearance(rest, p, q);
        }
    }
  }

  /** A known address that is not listed stays that way: only its own report could list it, and does not. */
  lemma {:induction false} OrphanStays(h: seq<Event>, more: seq<Event>, a: Uint32)
    requires a in After(h).known && a !in After(h).listed
    ensures a in After(h + more).known && a !in After(h + more).listed
  {
    if more == [] {
      assert h + more == h;
    } else {
      var init := more[..|more| - 1];
      OrphanStays(h, init, a);
      assert (h + more)[..|h + more| - 1] == h + init;
      var s, e := After(h + init), more[|more| - 1];
      if e.Tick? {
        UnexpiredIs(s.listed, s.known, e.t);
      }
    }
  }

  /**
    So an aircraft listed when the list is cleared is never listed again, however it reports.  In the source
    it is worse off than that: the objects cleared are also deleted while the map still points to them, so
    its next report reaches a deleted object.  Nothing in the source emits the request to clear.
   */
  lemma ClearedForever(h: seq<Event>, t: int, more: seq<Event>, a: Uint32)
    requires a in After(h).listed
    ensures a !in After(h + [ClearAll(t)] + more).listed
  {
    var h' := h + [ClearAll(t)] + more;
    ListedIff(h, a);
    assert h'[|h|] == ClearAll(t) && h'[..|h|] == h;
    ListedIff(h', a);
  }

  // ------------------------------------------------------------------ how old a listed aircraft can be

  /** The instant from which the current tick period is counted. */
  function PeriodStart(h: seq<Event>, start: int): int {
    var k := LastTick(h);
    if k < 0 then start else h[k].t
  }

  /**
    Whatever the clock shows, if the last tick is at most `gap` ago, no listed aircraft was last heard
    of more than 25 seconds and `gap` ago: 29.5 seconds for the 4.5 second timer.
   */
  lemma {:induction false} BoundedStaleness(h: seq<Event>, start: int, now: int, gap: int, a: Uint32)
    requires Clocked(h) && (forall e <- h :: start <= e.t)
    requires now - PeriodStart(h, start) <= gap
    requires a in After(h).listed
    ensures a in After(h).known && now - After(h).known[a].seen <= 25000 + gap
  {
    ListInMapAlways(h);
    var rest, e := h[..|h| - 1], h[|h| - 1];
    var s := After(rest);
    assert e in h;
    if e.Tick? {
      UnexpiredIs(s.listed, s.known, e.t);
    } else if Located(e) && e.info.icao == a {
      ListInMapAlways(rest);
      assert PeriodStart(h, start) <= e.t;
    } else {
      assert LastTick(h) == LastTick(rest);
      BoundedStaleness(rest, start, now, gap, a);
    }
  }

  // ------------------------------------------------------------------ the indicator

  /** The indicator once a tick finds the last accepted report `elapsed` ago. */
  function Light(elapsed: int): int {
    Dimmed(2, elapsed)
  }

  /** The timer holds the last accepted report, and the indicator is the one of the last tick after it. */
  lemma {:induction false} IndicatorIs(h: seq<Event>)
    requires Clocked(h)
    ensures LastAccepted(h) >= 0 ==> Located(h[LastAccepted(h)])
    ensures After(h).timer == if LastAccepted(h) < 0 then None else Some(h[LastAccepted(h)].t)
    ensures LastAccepted(h) >= 0 ==>
              After(h).status ==
              if LastTick(h) < 0 then 2 else Light(h[LastTick(h)].t - h[LastAccepted(h)].t)
  {
    if h != [] {
      var rest, e := h[..|h| - 1], h[|h| - 1];
      IndicatorIs(rest);
      if !e.Tick? {
        assert LastTick(h) == LastTick(rest);
      }
    }
  }

  /** In numbers: the last tick after the last report decides, at 20 and at 60 seconds. */
  lemma IndicatorInSeconds(h: seq<Event>)
    requires Clocked(h) && LastAccepted(h) >= 0
    ensures var tick, report := LastTick(h), h[LastAccepted(h)].t;
      After(h).status ==
      if tick >= 0 && h[tick].t - report > 60000 then 0 else if tick >= 0 && h[tick].t - report > 20000 then 1 else 2
  {
    IndicatorIs(h);
  }

  /** The same for one tick, before any report as well: there it reads whatever the unstarted timer says. */
  lemma TickSetsIndicator(h: seq<Event>, t: int, unstarted: int)
    requires Clocked(h)
    ensures var elapsed := if LastAccepted(h) >= 0 then t - h[LastAccepted(h)].t else unstarted;
      After(h + [Tick(t, unstarted)]).status ==
      if elapsed > 60000 then 0 else if elapsed > 20000 then 1 else After(h).status
  {
    AfterNext(h, Tick(t, unstarted));
    IndicatorIs(h);
  }

  /**
    Green means the last report is at most 20 seconds and the tick gap old, red or green at most 60
    seconds and the gap: 24.5 and 64.5 seconds for the 4.5 second timer.
   */
  lemma IndicatorIsTimely(h: seq<Event>, start: int, now: int, gap: int)
    requires Clocked(h) && (forall e <- h :: start <= e.t)
    requires now - PeriodStart(h, start) <= gap && LastAccepted(h) >= 0
    ensures After(h).status in {0, 1, 2}
    ensures After(h).status == 2 ==> now - h[LastAccepted(h)].t <= 20000 + gap
    ensures After(h).status >= 1 ==> now - h[LastAccepted(h)].t <= 60000 + gap
  {
    IndicatorIs(h);
    assert h[LastAccepted(h)] in h;
  }

  /** The bounds while the cleanup timer, of 4500 ms, is on time. */
  lemma OnTimeBounds(h: seq<Event>, start: int, now: int)
    requires Clocked(h) && (forall e <- h :: start <= e.t)
    requires now - PeriodStart(h, start) <= 4500
    ensures forall a <- After(h).listed :: a in After(h).known && now - After(h).known[a].seen <= 29500
    ensures LastAccepted(h) >= 0 && After(h).status == 2 ==> now - h[LastAccepted(h)].t <= 24500
    ensures LastAccepted(h) >= 0 && After(h).status == 1 ==> now - h[LastAccepted(h)].t <= 64500
  {
    forall a | a in After(h).listed
      ensures a in After(h).known && now - After(h).known[a].seen <= 29500
    {
      BoundedStaleness(h, start, now, 4500, a);
    }
    if LastAccepted(h) >= 0 {
      IndicatorIsTimely(h, start, now, 4500);
    }
  }

  /**
    A tick never raises the indicator, except before the first accepted report, when it believes a timer
    that was never started.
   */
  lemma TickRaisesIff(h: seq<Event>, t: int, unstarted: int)
    requires Clocked(h + [Tick(t, unstarted)])
    ensures After(h + [Tick(t, unstarted)]).status > After(h).status
            <==> LastAccepted(h) < 0 && After(h).status == 0 && 20000 < unstarted <= 60000
  {
    AfterNext(h, Tick(t, unstarted));
    ClockedPrefix(h, Tick(t, unstarted));
    IndicatorIs(h);
    IndicatorBeforeFirst(h);
  }

  lemma ClockedPrefix(h: seq<Event>, e: Event)
    requires Clocked(h + [e])
    ensures Clocked(h) && forall i | 0 <= i < |h| :: h[i].t <= e.t
  {
    var h' := h + [e];
    assert forall i | 0 <= i < |h| :: h[i] == h'[i] && h'[i].t <= h'[|h|].t;
  }

  lemma IndicatorBeforeFirst(h: seq<Event>)
    ensures LastAccepted(h) < 0 ==> After(h).timer.None?
    ensures 0 <= After(h).status <= 2
    ensures LastAccepted(h) < 0 ==> After(h).status <= 1
  {
    if h != [] {
      IndicatorBeforeFirst(h[..|h| - 1]);
    }
  }

  // ------------------------------------------------------------------ a batch of located reports

  lemma {:induction false} BatchClearsNothing(h: seq<Event>, batch: seq<Event>, a: Uint32)
    requires forall e <- batch :: Located(e)
    ensures ClearedWhileAlive(h + batch, a) <==> ClearedWhileAlive(h, a)
  {
    if batch == [] {
      assert h + batch == h;
    } else {
      var init, last := batch[..|batch| - 1], batch[|batch| - 1];
      assert last in batch && forall e <- init :: e in batch;
      assert (h + batch)[..|h + batch| - 1] == h + init;
      ClearedNext(h + batch, a);
      BatchClearsNothing(h, init, a);
    }
  }

  /** The last report of an address in a batch is its last of all. */
  lemma {:induction false} LastReportIn(h: seq<Event>, batch: seq<Event>, n: nat)
    requires n < |batch| && Located(batch[n])
    requires forall k | n < k < |batch| :: Located(batch[k]) ==> batch[k].info.icao != batch[n].info.icao
    ensures LastReport(h + batch, batch[n].info.icao) == |h| + n && (h + batch)[|h| + n] == batch[n]
  {
    var init := batch[..|batch| - 1];
    assert (h + batch)[..|h + batch| - 1] == h + init && (h + batch)[|h + batch| - 1] == batch[|batch| - 1];
    if n < |init| {
      LastReportIn(h, init, n);
    }
  }

  lemma {:induction false} BatchLeavesAlive(h: seq<Event>, batch: seq<Event>, n: nat)
    requires (forall e <- batch :: Located(e)) && n < |batch|
    ensures Located(batch[n]) && Alive(h + batch, batch[n].info.icao)
  {
    var last := |batch| - 1;
    assert batch[last] in batch && batch[n] in batch;
    var init := batch[..last];
    assert (h + batch)[..|h| + last] == h + init;
    AliveNext(h + batch, batch[n].info.icao);
    if n < last {
      assert forall e <- init :: e in batch;
      BatchLeavesAlive(h, init, n);
    }
  }

  /** A report that passes the location gate leaves its aircraft listed exactly if no clear took it before. */
  lemma BatchLeavesListedIff(h: seq<Event>, batch: seq<Event>, n: nat)
    requires (forall e <- batch :: Located(e)) && n < |batch|
    ensures Located(batch[n])
    ensures batch[n].info.icao in After(h + batch).listed <==> !ClearedWhileAlive(h, batch[n].info.icao)
  {
    BatchLeavesAlive(h, batch, n);
    BatchClearsNothing(h, batch, batch[n].info.icao);
    ListedIff(h + batch, batch[n].info.icao);
  }
}
