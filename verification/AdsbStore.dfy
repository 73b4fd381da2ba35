/**
  The traffic store as a function of its history: `adsbVehicleUpdate`, `_cleanupStaleVehicles` and
  `adsbClearModel` of app/adsb/adsbvehiclemanager.cpp on values.
 */
module AdsbStore {
  import opened Prelude
  import opened AdsbVehicles

  /** One slot run, with the clock it reads; each slot is one instant. */
  datatype Event =
    | Report(info: Info, uninitialised: Data, t: int)
    | Tick(t: int, unstarted: int)               // `unstarted`: what elapsed() of a timer never started reads
    | ClearAll(t: int)

  /** `listed` is the display list by address, `known` the address map, `timer` is `_last_update_timer`. */
  datatype Store = Store(listed: seq<Uint32>, known: map<Uint32, Data>, timer: Option<int>, status: int)

  const INITIAL := Store([], map[], None, 0)

  predicate Located(e: Event) {
    e.Report? && e.info.Has(Location)
  }

  predicate Stale(known: map<Uint32, Data>, a: Uint32, now: int) {
    a in known && Expired(known[a], now)
  }

  function Unexpired(listed: seq<Uint32>, known: map<Uint32, Data>, now: int): seq<Uint32> {
    if listed == [] then []
    else (if Stale(known, listed[0], now) then [] else [listed[0]]) + Unexpired(listed[1..], known, now)
  }

  function ExpiredOf(listed: seq<Uint32>, known: map<Uint32, Data>, now: int): set<Uint32> {
    set a | a in listed && Stale(known, a, now)
  }

  /** The indicator after a tick that finds `elapsed` on the timer. */
  function Dimmed(status: int, elapsed: int): int {
    if elapsed > 60000 then 0 else if elapsed > 20000 then 1 else status
  }

  function Exec(s: Store, e: Event): Store {
    match e
    case Report(info, uninitialised, t) =>
      if !info.Has(Location) then s
      else
        var a := info.icao;
        var held := if a in s.known then s.known[a] else Fresh(a, uninitialised);
        Store(if a in s.known then s.listed else s.listed + [a], s.known[a := Merge(held, info, t)], Some(t), 2)
    case Tick(t, unstarted) =>
      Store(Unexpired(s.listed, s.known, t), s.known - ExpiredOf(s.listed, s.known, t), s.timer,
            Dimmed(s.status, if s.timer.Some? then t - s.timer.value else unstarted))
    case ClearAll(_) => s.(listed := [])
  }

  function After(h: seq<Event>): Store {
    if h == [] then INITIAL else Exec(After(h[..|h| - 1]), h[|h| - 1])
  }

  /** One more slot run on a store with this history. */
  lemma AfterNext(h: seq<Event>, e: Event)
    ensures After(h + [e]) == Exec(After(h), e)
  {
    assert (h + [e])[..|h|] == h;
  }

  // ------------------------------------------------------------------ what the history alone says

  predicate NoClear(h: seq<Event>) {
    forall e <- h :: !e.ClearAll?
  }

  /** The clock never runs backwards. */
  predicate Clocked(h: seq<Event>) {
    forall i, j | 0 <= i < j < |h| :: h[i].t <= h[j].t
  }

  /** The last located report for `a`, or -1. */
  function LastReport(h: seq<Event>, a: Uint32): (k: int)
    ensures -1 <= k < |h|
  {
    if h == [] then -1
    else
      var n := |h| - 1;
      if Located(h[n]) && h[n].info.icao == a then n else LastReport(h[..n], a)
  }

  lemma LastReportIsLast(h: seq<Event>, a: Uint32)
    ensures var k := LastReport(h, a);
      && (k >= 0 ==> Located(h[k]) && h[k].info.icao == a)
      && forall n | k < n < |h| :: !(Located(h[n]) && h[n].info.icao == a)
  {
    if h != [] {
      var rest := h[..|h| - 1];
      LastReportIsLast(rest, a);
      assert forall n | 0 <= n < |rest| :: h[n] == rest[n];
    }
  }

  /** No tick after instant `i` of the history came more than 25 seconds after it. */
  predicate NoLateTick(h: seq<Event>, i: int)
    requires 0 <= i < |h|
  {
    forall j | i < j < |h| :: h[j].Tick? ==> h[j].t - h[i].t <= 25000
  }

  /** The aircraft has reported its place, and no tick came too late after it last did. */
  predicate Alive(h: seq<Event>, a: Uint32) {
    var k := LastReport(h, a);
    k >= 0 && NoLateTick(h, k)
  }

  /** Some clear came while the aircraft was alive. */
  ghost predicate ClearedWhileAlive(h: seq<Event>, a: Uint32) {
    exists i | 0 <= i < |h| :: h[i].ClearAll? && Alive(h[..i], a)
  }

  /** The report with which `a` last came to be alive, or -1. */
  function AppearsAt(h: seq<Event>, a: Uint32): (k: int)
    ensures -1 <= k < |h|
  {
    if h == [] then -1
    else
      var n := |h| - 1;
      if Located(h[n]) && h[n].info.icao == a && !Alive(h[..n], a) then n else AppearsAt(h[..n], a)
  }

  /** The located reports for `a` from instant `k` of the history on. */
  function ReportsSince(h: seq<Event>, k: nat, a: Uint32): seq<(Info, int)> {
    if |h| <= k then []
    else
      var e := h[|h| - 1];
      ReportsSince(h[..|h| - 1], k, a) + (if Located(e) && e.info.icao == a then [(e.info, e.t)] else [])
  }

  /** The last located report for any aircraft, or -1. */
  function LastAccepted(h: seq<Event>): (k: int)
    ensures -1 <= k < |h|
  {
    if h == [] then -1 else if Located(h[|h| - 1]) then |h| - 1 else LastAccepted(h[..|h| - 1])
  }

  /** The last tick, or -1. */
  function LastTick(h: seq<Event>): (k: int)
    ensures -1 <= k < |h|
    ensures k >= 0 ==> h[k].Tick?
    ensures forall n | k < n < |h| :: !h[n].Tick?
  {
    if h == [] then -1
    else if h[|h| - 1].Tick? then |h| - 1
    else
      var k := LastTick(h[..|h| - 1]);
      assert forall n | 0 <= n < |h| - 1 :: h[n] == h[..|h| - 1][n];
      k
  }
}
