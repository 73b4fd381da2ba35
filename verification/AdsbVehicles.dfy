/** app/adsb/adsbvehicle.h and app/adsb/adsbvehicle.cpp: one aircraft and the merge of a report into it. */
module AdsbVehicles {
  import opened Doubles

  type Uint32 = x: int | 0 <= x < 0x1_0000_0000

  /** `static_cast<int>` of an unsigned address, and the conversion back when it is used as a map key. */
  function ToInt(x: Uint32): int {
    if x < 0x8000_0000 then x else x - 0x1_0000_0000
  }

  function ToUint(x: int): Uint32 {
    x % 0x1_0000_0000
  }

  lemma AddressSurvivesCast(x: Uint32)
    ensures ToUint(ToInt(x)) == x
  {
  }

  /** A flag word, as the set of the numbers of its bits that are 1. */
  type Flags = set<nat>

  /** The availability bits.  Last contact and distance share one bit. */
  datatype Bit = Callsign | Location | Altitude | Heading | Alert | Velocity | VerticalVel | LastContact | Distance {
    function Number(): nat {
      match this
      case Callsign => 1
      case Location => 2
      case Altitude => 3
      case Heading => 4
      case Alert => 5
      case Velocity => 6
      case VerticalVel => 7
      case LastContact => 8
      case Distance => 8
    }
  }

  datatype Info = Info(
    icao: Uint32, callsign: string, lat: Double, lon: Double, altitude: Double, velocity: Double,
    heading: Double, alert: int, flags: Flags, lastContact: int, verticalVel: Double, distance: Double)
  {
    predicate Has(b: Bit) {
      b.Number() in flags
    }
  }

  /** The fields of a vehicle, and the instant its `_lastUpdateTimer` was last restarted. */
  datatype Data = Data(
    icao: Uint32, callsign: string, lat: Double, lon: Double, altitude: Double, velocity: Double,
    heading: Double, alert: int, lastContact: int, verticalVel: Double, distance: Double, seen: int)

  const EXPIRATION_TIMEOUT_MS := 25000

  /** `hasExpired` is strict. */
  predicate Expired(d: Data, now: int) {
    now - d.seen > EXPIRATION_TIMEOUT_MS
  }

  /** The test on altitude and heading: a value is kept when it is close enough to the reported one. */
  predicate Keeps(reported: Double, held: Double) {
    (reported.NaN? && held.NaN?) || FuzzyEqual(reported, held)
  }

  function Merge(d: Data, i: Info, now: int): Data {
    if d.icao != i.icao then d
    else
      d.(callsign := if i.Has(Callsign) then i.callsign else d.callsign,
         lat := if i.Has(Location) then i.lat else d.lat,
         lon := if i.Has(Location) then i.lon else d.lon,
         altitude := if i.Has(Altitude) && !Keeps(i.altitude, d.altitude) then i.altitude else d.altitude,
         heading := if i.Has(Heading) && !Keeps(i.heading, d.heading) then i.heading else d.heading,
         alert := if i.Has(Alert) then i.alert else d.alert,
         velocity := if i.Has(Velocity) then i.velocity else d.velocity,
         verticalVel := if i.Has(VerticalVel) then i.verticalVel else d.verticalVel,
         lastContact := if i.Has(LastContact) then i.lastContact else d.lastContact,
         distance := if i.Has(Distance) then i.distance else d.distance,
         seen := now)
  }

  /** What the constructor leaves for `update` to fill in; the fields it does not name are uninitialised. */
  function Fresh(icao: Uint32, uninitialised: Data): Data {
    uninitialised.(icao := icao, callsign := "", altitude := NaN, heading := NaN, alert := 0)
  }

  /** Which change signals one call of `update` emits; each can be emitted once. */
  datatype Emitted = Emitted(
    callsign: bool, lat: bool, lon: bool, altitude: bool, heading: bool, alert: bool, velocity: bool,
    verticalVel: bool, lastContact: bool, distance: bool)

  const NO_SIGNAL := Emitted(false, false, false, false, false, false, false, false, false, false)

  // ------------------------------------------------------------------ histories of reports

  function Folded(d: Data, reports: seq<(Info, int)>): Data {
    if reports == [] then d
    else
      var last := reports[|reports| - 1];
      Merge(Folded(d, reports[..|reports| - 1]), last.0, last.1)
  }

  /** The last report for `icao` that carried bit `b`, or -1. */
  function Latest(icao: Uint32, b: Bit, reports: seq<(Info, int)>): (k: int)
    ensures -1 <= k < |reports|
  {
    if reports == [] then -1
    else
      var n := |reports| - 1;
      if reports[n].0.icao == icao && reports[n].0.Has(b) then n else Latest(icao, b, reports[..n])
  }

  lemma LatestIsLast(icao: Uint32, b: Bit, reports: seq<(Info, int)>)
    ensures var k := Latest(icao, b, reports);
      && (k >= 0 ==> reports[k].0.icao == icao && reports[k].0.Has(b))
      && forall n | k < n < |reports| :: !(reports[n].0.icao == icao && reports[n].0.Has(b))
  {
    if reports != [] {
      var rest := reports[..|reports| - 1];
      LatestIsLast(icao, b, rest);
      assert forall m | 0 <= m < |rest| :: reports[m] == rest[m];
    }
  }

  /** Last writer wins: every plain field is the one of the latest report that carried its bit. */
  lemma {:induction false} LastWriterWins(d: Data, reports: seq<(Info, int)>)
    ensures var f := Folded(d, reports);
      && f.icao == d.icao
      && (var k := Latest(d.icao, Callsign, reports); f.callsign == if k < 0 then d.callsign else reports[k].0.callsign)
      && (var k := Latest(d.icao, Location, reports); f.lat == if k < 0 then d.lat else reports[k].0.lat)
      && (var k := Latest(d.icao, Location, reports); f.lon == if k < 0 then d.lon else reports[k].0.lon)
      && (var k := Latest(d.icao, Alert, reports); f.alert == if k < 0 then d.alert else reports[k].0.alert)
      && (var k := Latest(d.icao, Velocity, reports); f.velocity == if k < 0 then d.velocity else reports[k].0.velocity)
      && (var k := Latest(d.icao, VerticalVel, reports);
          f.verticalVel == if k < 0 then d.verticalVel else reports[k].0.verticalVel)
  {
    if reports != [] {
      LastWriterWins(d, reports[..|reports| - 1]);
    }
  }

  /** One bit for two fields: last contact and distance always come from the same report. */
  lemma {:induction false} SharedBit(d: Data, reports: seq<(Info, int)>)
    ensures Latest(d.icao, LastContact, reports) == Latest(d.icao, Distance, reports)
    ensures var f, k := Folded(d, reports), Latest(d.icao, Distance, reports);
      && f.icao == d.icao
      && f.lastContact == (if k < 0 then d.lastContact else reports[k].0.lastContact)
      && f.distance == (if k < 0 then d.distance else reports[k].0.distance)
  {
    if reports != [] {
      SharedBit(d, reports[..|reports| - 1]);
    }
  }

  /**
    `held` is the reported value to within one part in 10^12 of either, and so of the same sign; NaN is close
    to NaN alone, and 0 to 0 alone.
   */
  ghost predicate CloseTo(held: Double, reported: Double) {
    match (held, reported)
    case (NaN, NaN) => true
    case (Num(x), Num(y)) =>
      && -Magnitude(x) <= (x - y) * 1000000000000.0 <= Magnitude(x)
      && -Magnitude(y) <= (x - y) * 1000000000000.0 <= Magnitude(y)
    case _ => false
  }

  ghost function Magnitude(x: real): (m: real)
    ensures (m == x || m == -x) && m >= 0.0
  {
    if x < 0.0 then -x else x
  }

  lemma CloseIsSameSign(x: real, y: real)
    requires CloseTo(Num(x), Num(y))
    ensures (x == 0.0 <==> y == 0.0) && (x > 0.0 <==> y > 0.0)
  {
  }

  /** A report's altitude or heading is taken exactly if the value held is not close to it. */
  lemma TakenUnlessClose(d: Data, i: Info, now: int)
    requires d.icao == i.icao
    ensures i.Has(Altitude) ==> Merge(d, i, now).altitude == if CloseTo(d.altitude, i.altitude) then d.altitude else i.altitude
    ensures i.Has(Heading) ==> Merge(d, i, now).heading == if CloseTo(d.heading, i.heading) then d.heading else i.heading
  {
    FuzzyIsClose(d.altitude, i.altitude);
    FuzzyIsClose(d.heading, i.heading);
  }

  lemma FuzzyIsClose(held: Double, reported: Double)
    ensures Keeps(reported, held) <==> CloseTo(held, reported)
  {
  }

  /** Altitude and heading may keep an older value, but never one that is not close to the latest report's. */
  lemma {:induction false} NoDrift(d: Data, reports: seq<(Info, int)>)
    ensures var f := Folded(d, reports);
      && f.icao == d.icao
      && (var k := Latest(d.icao, Altitude, reports);
          if k < 0 then f.altitude == d.altitude else CloseTo(f.altitude, reports[k].0.altitude))
      && (var k := Latest(d.icao, Heading, reports);
          if k < 0 then f.heading == d.heading else CloseTo(f.heading, reports[k].0.heading))
  {
    if reports != [] {
      var last := reports[|reports| - 1];
      NoDrift(d, reports[..|reports| - 1]);
      if last.0.icao == d.icao {
        TakenUnlessClose(Folded(d, reports[..|reports| - 1]), last.0, last.1);
      }
    }
  }

  /** Two fields share a bit, and only two. */
  lemma OnlySharedBit(b: Bit, c: Bit)
    ensures b.Number() == c.Number() <==> b == c || {b, c} == {LastContact, Distance}
    ensures [Callsign.Number(), Location.Number(), Altitude.Number(), Heading.Number()] == [1, 2, 3, 4]
    ensures [Alert.Number(), Velocity.Number(), VerticalVel.Number(), Distance.Number()] == [5, 6, 7, 8]
  {
  }

  /** What a new vehicle shows is its first report; what that leaves out is blank or, for some fields, arbitrary. */
  lemma FirstReport(i: Info, uninitialised: Data, now: int)
    ensures var d := Merge(Fresh(i.icao, uninitialised), i, now);
      && d.icao == i.icao && d.seen == now
      && d.callsign == (if i.Has(Callsign) then i.callsign else "")
      && d.altitude == (if i.Has(Altitude) then i.altitude else NaN)
      && d.heading == (if i.Has(Heading) then i.heading else NaN)
      && d.alert == (if i.Has(Alert) then i.alert else 0)
      && (i.Has(Location) ==> d.lat == i.lat && d.lon == i.lon)
      && (i.Has(Velocity) ==> d.velocity == i.velocity)
      && (i.Has(VerticalVel) ==> d.verticalVel == i.verticalVel)
      && (i.Has(Distance) ==> d.lastContact == i.lastContact && d.distance == i.distance)
  {
    TakenUnlessClose(Fresh(i.icao, uninitialised), i, now);
  }

  // ------------------------------------------------------------------ the object

  class ADSBVehicle {
    const icaoAddress: Uint32
    var callsign: string
    var lat: Double
    var lon: Double
    var altitude: Double
    var velocity: Double
    var heading: Double
    var alert: int
    var lastContact: int
    var verticalVel: Double
    var distance: Double
    var lastUpdateTimer: int

    function View(): Data
      reads this
    {
      Data(icaoAddress, callsign, lat, lon, altitude, velocity, heading, alert, lastContact,
           verticalVel, distance, lastUpdateTimer)
    }

    constructor (info: Info, uninitialised: Data, now: int)
      ensures View() == Merge(Fresh(info.icao, uninitialised), info, now)
    {
      icaoAddress := info.icao;
      callsign, altitude, heading, alert := "", NaN, NaN, 0;
      lat, lon, velocity := uninitialised.lat, uninitialised.lon, uninitialised.velocity;
      lastContact, verticalVel := uninitialised.lastContact, uninitialised.verticalVel;
      distance, lastUpdateTimer := uninitialised.distance, uninitialised.seen;
      new;
      var emitted := Update(info, now);
    }

    function IcaoAddress(): int {
      ToInt(icaoAddress)
    }

    method HasExpired(now: int) returns (expired: bool)
      ensures expired == Expired(View(), now)
    {
      expired := now - lastUpdateTimer > EXPIRATION_TIMEOUT_MS;
    }

    /**
      A signal tells that its field changed: it fires without a change only where NaN replaces NaN, which
      C++ takes for a difference, and a changed field is always signalled.
     */
    method Update(info: Info, now: int) returns (emitted: Emitted)
      modifies this
      ensures View() == Merge(old(View()), info, now)
      ensures icaoAddress != info.icao ==> emitted == NO_SIGNAL && View() == old(View())
      ensures icaoAddress == info.icao ==> lastUpdateTimer == now
      ensures emitted.callsign <==> callsign != old(callsign)
      ensures emitted.lat <==> emitted.lon
      ensures emitted.lat <==>
        lat != old(lat) || lon != old(lon) ||
        (icaoAddress == info.icao && info.Has(Location) && (info.lat.NaN? || info.lon.NaN?))
      ensures emitted.altitude <==> altitude != old(altitude)
      ensures emitted.heading <==> heading != old(heading)
      ensures emitted.alert <==> alert != old(alert)
      ensures emitted.velocity <==>
        velocity != old(velocity) || (icaoAddress == info.icao && info.Has(Velocity) && info.velocity.NaN?)
      ensures emitted.verticalVel <==>
        verticalVel != old(verticalVel) || (icaoAddress == info.icao && info.Has(VerticalVel) && info.verticalVel.NaN?)
      ensures emitted.lastContact <==> lastContact != old(lastContact)
      ensures emitted.distance <==>
        distance != old(distance) || (icaoAddress == info.icao && info.Has(Distance) && info.distance.NaN?)
    {
      if icaoAddress != info.icao {
        return NO_SIGNAL;
      }
      var c, p := MergePlace(info);
      var a, h := MergeAttitude(info);
      var t, v, r := MergeRates(info);
      var l, d := MergeContact(info);
      lastUpdateTimer := now;
      emitted := Emitted(c, p, p, a, h, t, v, r, l, d);
    }

    /** Lines 31 to 44 of adsbvehicle.cpp. */
    method MergePlace(info: Info) returns (callsignChanged: bool, latLonChanged: bool)
      requires icaoAddress == info.icao
      modifies `callsign, `lat, `lon
      ensures callsign == if info.Has(Callsign) then info.callsign else old(callsign)
      ensures lat == if info.Has(Location) then info.lat else old(lat)
      ensures lon == if info.Has(Location) then info.lon else old(lon)
      ensures callsignChanged <==> callsign != old(callsign)
      ensures latLonChanged <==>
        lat != old(lat) || lon != old(lon) || (info.Has(Location) && (info.lat.NaN? || info.lon.NaN?))
    {
      callsignChanged, latLonChanged := false, false;
      if info.Has(Callsign) {
        if info.callsign != callsign {
          callsign := info.callsign;
          callsignChanged := true;
        }
      }
      if info.Has(Location) {
        if Differs(lat, info.lat) || Differs(lon, info.lon) {
          lat, lon := info.lat, info.lon;
          latLonChanged := true;
        }
      }
    }

    /** Lines 45 to 56 of adsbvehicle.cpp. */
    method MergeAttitude(info: Info) returns (altitudeChanged: bool, headingChanged: bool)
      requires icaoAddress == info.icao
      modifies `altitude, `heading
      ensures altitude == if info.Has(Altitude) && !Keeps(info.altitude, old(altitude)) then info.altitude else old(altitude)
      ensures heading == if info.Has(Heading) && !Keeps(info.heading, old(heading)) then info.heading else old(heading)
      ensures altitudeChanged <==> altitude != old(altitude)
      ensures headingChanged <==> heading != old(heading)
    {
      altitudeChanged, headingChanged := false, false;
      if info.Has(Altitude) {
        if !(info.altitude.NaN? && altitude.NaN?) && !FuzzyEqual(info.altitude, altitude) {
          altitude := info.altitude;
          altitudeChanged := true;
        }
      }
      if info.Has(Heading) {
        if !(info.heading.NaN? && heading.NaN?) && !FuzzyEqual(info.heading, heading) {
          heading := info.heading;
          headingChanged := true;
        }
      }
    }

    /** Lines 57 to 74 of adsbvehicle.cpp. */
    method MergeRates(info: Info) returns (alertChanged: bool, velocityChanged: bool, verticalVelChanged: bool)
      requires icaoAddress == info.icao
      modifies `alert, `velocity, `verticalVel
      ensures alert == if info.Has(Alert) then info.alert else old(alert)
      ensures velocity == if info.Has(Velocity) then info.velocity else old(velocity)
      ensures verticalVel == if info.Has(VerticalVel) then info.verticalVel else old(verticalVel)
      ensures alertChanged <==> alert != old(alert)
      ensures velocityChanged <==> velocity != old(velocity) || (info.Has(Velocity) && info.velocity.NaN?)
      ensures verticalVelChanged <==> verticalVel != old(verticalVel) || (info.Has(VerticalVel) && info.verticalVel.NaN?)
    {
      alertChanged, velocityChanged, verticalVelChanged := false, false, false;
      if info.Has(Alert) {
        if info.alert != alert {
          alert := info.alert;
          alertChanged := true;
        }
      }
      if info.Has(Velocity) {
        if Differs(info.velocity, velocity) {
          velocity := info.velocity;
          velocityChanged := true;
        }
      }
      if info.Has(VerticalVel) {
        if Differs(info.verticalVel, verticalVel) {
          verticalVel := info.verticalVel;
          verticalVelChanged := true;
        }
      }
    }

    /** Lines 75 to 86 of adsbvehicle.cpp. */
    method MergeContact(info: Info) returns (lastContactChanged: bool, distanceChanged: bool)
      requires icaoAddress == info.icao
      modifies `lastContact, `distance
      ensures lastContact == if info.Has(LastContact) then info.lastContact else old(lastContact)
      ensures distance == if info.Has(Distance) then info.distance else old(distance)
      ensures lastContactChanged <==> lastContact != old(lastContact)
      ensures distanceChanged <==> distance != old(distance) || (info.Has(Distance) && info.distance.NaN?)
    {
      lastContactChanged, distanceChanged := false, false;
      if info.Has(LastContact) {
        if info.lastContact != lastContact {
          lastContact := info.lastContact;
          lastContactChanged := true;
        }
      }
      if info.Has(Distance) {
        if Differs(info.distance, distance) {
          distance := info.distance;
          distanceChanged := true;
        }
      }
    }
  }
}
