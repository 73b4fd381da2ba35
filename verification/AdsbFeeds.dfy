/**
  The per-aircraft loops of `ADSBSdr::processReply` and `ADSBInternet::processReply`, on JSON fields already
  parsed, and what they put into the traffic store.
 */
module AdsbFeeds {
  import opened Prelude
  import opened Doubles
  import opened AdsbVehicles
  import opened AdsbStore
  import opened AdsbStoreProofs

  /** A field of a JSON object: absent, null, a number, or anything else. */
  datatype Json = Undefined | Null | Number(x: real) | Other {
    function ToDouble(): real {
      if Number? then x else 0.0
    }

    /** `QJsonValue::toInt`: 0 unless the number is an `int`. */
    function ToInt(): int {
      if Number? && x == x.Floor as real && -0x8000_0000 <= x.Floor < 0x8000_0000 then x.Floor else 0
    }
  }

  /** `hex` is what `toUInt(&ok, 16)` makes of the field; `leftover` is the record before it is filled in. */
  datatype Aircraft = Aircraft(
    hex: Option<Uint32>, lat: Json, lon: Json, flight: string, altitude: Json, speed: Json, track: Json,
    seen: Json, climb: Json, leftover: Info)

  /** `distance` is the great-circle distance from the map centre, `limit` the setting in metres. */
  datatype Settings = Settings(distance: (real, real) -> real, limit: int, unknownZeroAlt: bool) {
    function MaxDistance(): real {
      TruncatedThousandth(limit) as real
    }
  }

  /** C++ `n / 1000`. */
  function TruncatedThousandth(n: int): int {
    if n >= 0 then n / 1000 else -((-n) / 1000)
  }

  /** C `round`: halves away from zero. */
  function Round(x: real): real {
    if x >= 0.0 then (x + 0.5).Floor as real else -((0.5 - x).Floor as real)
  }

  /** `flags |= b`. */
  function With(flags: Flags, b: Bit): Flags {
    flags + {b.Number()}
  }

  /** What the last part of both loops adds. */
  function MotionFlags(flags: Flags): Flags {
    With(With(With(With(flags, Velocity), Heading), LastContact), VerticalVel)
  }

  // ------------------------------------------------------------------ the SDR feed

  predicate SdrAccepts(ac: Aircraft, cfg: Settings) {
    && ac.hex.Some? && !ac.lat.Null? && !ac.lon.Null?
    && cfg.distance(ac.lat.ToDouble(), ac.lon.ToDouble()) <= cfg.MaxDistance()
    && (cfg.unknownZeroAlt || (!ac.altitude.Null? && ac.altitude.ToInt() as real * 0.3048 >= 5.0))
  }

  function SdrInfo(ac: Aircraft, cfg: Settings): Info
    requires ac.hex.Some?
  {
    var lat, lon := ac.lat.ToDouble(), ac.lon.ToDouble();
    var placed := With(With(ac.leftover.flags, Location), Distance);
    Info(ac.hex.value, if |ac.flight| == 0 then "N/A" else ac.flight, Num(lat), Num(lon),
         Num(if ac.altitude.Null? then 99999.9 else ac.altitude.ToInt() as real * 0.3048),
         Num(if ac.speed.Null? then 99999.9 else Round(ac.speed.ToDouble() * 1.852)),
         Num(if ac.track.Null? then 0.0 else ac.track.ToDouble()),
         ac.leftover.alert,
         MotionFlags(With(if |ac.flight| == 0 then placed else With(placed, Callsign), Altitude)),
         if ac.seen.Null? then 0 else ac.seen.ToInt(),
         Num(if ac.climb.Null? then 0.0 else Round(ac.climb.ToDouble() * 0.00508)),
         Num(cfg.distance(lat, lon)))
  }

  /** The order-preserving filter-map. */
  function SdrEmits(crafts: seq<Aircraft>, cfg: Settings): seq<Info> {
    if crafts == [] then []
    else
      var ac := crafts[|crafts| - 1];
      SdrEmits(crafts[..|crafts| - 1], cfg) + (if SdrAccepts(ac, cfg) then [SdrInfo(ac, cfg)] else [])
  }

  lemma SdrNext(crafts: seq<Aircraft>, cfg: Settings, i: nat)
    requires i < |crafts|
    ensures SdrEmits(crafts[..i + 1], cfg) ==
            SdrEmits(crafts[..i], cfg) + (if SdrAccepts(crafts[i], cfg) then [SdrInfo(crafts[i], cfg)] else [])
    ensures !SdrAccepts(crafts[i], cfg) ==> SdrEmits(crafts[..i + 1], cfg) == SdrEmits(crafts[..i], cfg)
  {
    assert crafts[..i + 1][..i] == crafts[..i];
  }

  method ProcessSdr(crafts: seq<Aircraft>, cfg: Settings) returns (emitted: seq<Info>)
    ensures emitted == SdrEmits(crafts, cfg)
  {
    emitted := [];
    for i := 0 to |crafts|
      invariant emitted == SdrEmits(crafts[..i], cfg)
    {
      SdrNext(crafts, cfg, i);
      var info := SdrAircraft(crafts[i], cfg);
      if info.None? {
        continue;
      }
      emitted := emitted + [info.value];
    }
    assert crafts[..|crafts|] == crafts;
  }

  /** The body of the loop; `None` where it continues with the next aircraft. */
  method SdrAircraft(val: Aircraft, cfg: Settings) returns (r: Option<Info>)
    ensures r == if SdrAccepts(val, cfg) then Some(SdrInfo(val, cfg)) else None
  {
    var info := val.leftover;
    if val.hex.None? {
      return None;
    }
    info := info.(icao := val.hex.value);
    if val.lat.Null? || val.lon.Null? {
      return None;
    }
    var lat, lon := val.lat.ToDouble(), val.lon.ToDouble();
    var distance := cfg.distance(lat, lon);
    info := info.(lat := Num(lat), lon := Num(lon), distance := Num(distance),
                  flags := With(With(info.flags, Location), Distance));
    if distance > cfg.MaxDistance() {
      return None;
    }
    if |val.flight| == 0 {
      info := info.(callsign := "N/A");
    } else {
      info := info.(callsign := val.flight, flags := With(info.flags, Callsign));
    }
    if val.altitude.Null? {
      if !cfg.unknownZeroAlt {
        return None;
      }
      info := info.(altitude := Num(99999.9));
    } else {
      info := info.(altitude := Num(val.altitude.ToInt() as real * 0.3048));
      if Less(info.altitude, 5.0) && !cfg.unknownZeroAlt {
        return None;
      }
    }
    return Some(info.(
        velocity := Num(if val.speed.Null? then 99999.9 else Round(val.speed.ToDouble() * 1.852)),
        heading := Num(if val.track.Null? then 0.0 else val.track.ToDouble()),
        lastContact := if val.seen.Null? then 0 else val.seen.ToInt(),
        verticalVel := Num(if val.climb.Null? then 0.0 else Round(val.climb.ToDouble() * 0.00508)),
        flags := MotionFlags(With(info.flags, Altitude))));
  }

  // ------------------------------------------------------------------ the internet feed

  /** No distance test: it is commented out. */
  predicate InternetAccepts(ac: Aircraft, cfg: Settings) {
    && ac.hex.Some? && !ac.lat.Null? && !ac.lon.Null?
    && (cfg.unknownZeroAlt || (ac.altitude.ToDouble() != 0.0 && ac.altitude.ToDouble() >= 5.0))
  }

  function InternetInfo(ac: Aircraft, cfg: Settings): Info
    requires ac.hex.Some?
  {
    var lat, lon := ac.lat.ToDouble(), ac.lon.ToDouble();
    var placed := With(With(ac.leftover.flags, Location), Distance);
    Info(ac.hex.value, if |ac.flight| == 0 then "N/A" else ac.flight, Num(lat), Num(lon),
         Num(if ac.altitude.ToDouble() != 0.0 then ac.altitude.ToDouble() else 99999.9),
         Num(if ac.speed.ToDouble() != 0.0 then ac.speed.ToDouble() * 3.6 else 99999.9),
         Num(ac.track.ToDouble()),
         ac.leftover.alert,
         MotionFlags(With(With(placed, Callsign), Altitude)),
         if ac.seen.Null? then 0 else ac.seen.ToInt(),
         Num(ac.climb.ToDouble()),
         Num(cfg.distance(lat, lon)))
  }

  function InternetEmits(crafts: seq<Aircraft>, cfg: Settings): seq<Info> {
    if crafts == [] then []
    else
      var ac := crafts[|crafts| - 1];
      InternetEmits(crafts[..|crafts| - 1], cfg) +
      (if InternetAccepts(ac, cfg) then [InternetInfo(ac, cfg)] else [])
  }

  lemma InternetNext(crafts: seq<Aircraft>, cfg: Settings, i: nat)
    requires i < |crafts|
    ensures InternetEmits(crafts[..i + 1], cfg) ==
            InternetEmits(crafts[..i], cfg) + (if InternetAccepts(crafts[i], cfg) then [InternetInfo(crafts[i], cfg)] else [])
    ensures !InternetAccepts(crafts[i], cfg) ==> InternetEmits(crafts[..i + 1], cfg) == InternetEmits(crafts[..i], cfg)
  {
    assert crafts[..i + 1][..i] == crafts[..i];
  }

  method ProcessInternet(crafts: seq<Aircraft>, cfg: Settings) returns (emitted: seq<Info>)
    ensures emitted == InternetEmits(crafts, cfg)
  {
    emitted := [];
    for i := 0 to |crafts|
      invariant emitted == InternetEmits(crafts[..i], cfg)
    {
      InternetNext(crafts, cfg, i);
      var info := InternetAircraft(crafts[i], cfg);
      if info.None? {
        continue;
      }
      emitted := emitted + [info.value];
    }
    assert crafts[..|crafts|] == crafts;
  }

  /** The body of the loop; `None` where it continues with the next aircraft. */
  method InternetAircraft(aircraft: Aircraft, cfg: Settings) returns (r: Option<Info>)
    ensures r == if InternetAccepts(aircraft, cfg) then Some(InternetInfo(aircraft, cfg)) else None
  {
    var info := aircraft.leftover;
    if aircraft.hex.None? {
      return None;
    }
    info := info.(icao := aircraft.hex.value);
    if aircraft.lat.Null? || aircraft.lon.Null? {
      return None;
    }
    var lat, lon := aircraft.lat.ToDouble(), aircraft.lon.ToDouble();
    info := info.(lat := Num(lat), lon := Num(lon), flags := With(info.flags, Location));
    info := info.(distance := Num(cfg.distance(lat, lon)), flags := With(info.flags, Distance));
    info := info.(callsign := if |aircraft.flight| == 0 then "N/A" else aircraft.flight);
    info := info.(flags := With(info.flags, Callsign));
    if aircraft.altitude.ToDouble() != 0.0 {
      info := info.(altitude := Num(aircraft.altitude.ToDouble()));
      if Less(info.altitude, 5.0) && !cfg.unknownZeroAlt {
        return None;
      }
    } else {
      if !cfg.unknownZeroAlt {
        return None;
      }
      info := info.(altitude := Num(99999.9));
    }
    var gs, track := aircraft.speed.ToDouble(), aircraft.track.ToDouble();
    return Some(info.(
        velocity := Num(if gs != 0.0 then gs * 3.6 else 99999.9),
        heading := Num(if track != 0.0 then track else 0.0),
        lastContact := if aircraft.seen.Null? then 0 else aircraft.seen.ToInt(),
        verticalVel := Num(if aircraft.climb.Number? then aircraft.climb.ToDouble() else 0.0),
        flags := MotionFlags(With(info.flags, Altitude))));
  }

  // ------------------------------------------------------------------ the records, from the JSON fields alone

  /** `v` is the whole number nearest to `x`, the one away from zero when two are as near. */
  ghost predicate NearestWhole(x: real, v: real) {
    && v == v.Floor as real
    && -0.5 <= v - x <= 0.5
    && (x >= 0.0 ==> v - x != -0.5)
    && (x <= 0.0 ==> v - x != 0.5)
  }

  lemma RoundIsNearest(x: real)
    ensures NearestWhole(x, Round(x))
  {
    var n := if x >= 0.0 then (x + 0.5).Floor else -(0.5 - x).Floor;
    assert Round(x) == n as real;
    if x >= 0.0 {
      assert n as real <= x + 0.5 < n as real + 1.0;
    } else {
      assert -(n as real) <= 0.5 - x < -(n as real) + 1.0;
    }
  }

  /** Field by field, what a record of the SDR feed says. */
  ghost predicate SdrSays(ac: Aircraft, cfg: Settings, i: Info) {
    && ac.hex == Some(i.icao)
    && i.lat == Num(if ac.lat.Number? then ac.lat.x else 0.0)
    && i.lon == Num(if ac.lon.Number? then ac.lon.x else 0.0)
    && i.lat.Num? && i.lon.Num? && i.distance == Num(cfg.distance(i.lat.r, i.lon.r))
    && i.callsign == (if ac.flight == "" then "N/A" else ac.flight)
    && i.lastContact == (if ac.seen.Number? && IsInt(ac.seen.x) then ac.seen.x.Floor else 0)
    && i.altitude == Num(if ac.altitude.Null? then 99999.9
                         else if ac.altitude.Number? && IsInt(ac.altitude.x) then ac.altitude.x * 0.3048 else 0.0)
    && i.heading == Num(if ac.track.Number? then ac.track.x else 0.0)
    && i.velocity.Num? && i.verticalVel.Num?
    && (if ac.speed.Null? then i.velocity.r == 99999.9
        else NearestWhole(if ac.speed.Number? then ac.speed.x * 1.852 else 0.0, i.velocity.r))
    && NearestWhole(if ac.climb.Number? then ac.climb.x * 0.00508 else 0.0, i.verticalVel.r)
    && GivenFields(ac, i) && (i.Has(Callsign) <==> ac.flight != "" || ac.leftover.Has(Callsign))
  }

  /** The number is an `int`. */
  ghost predicate IsInt(x: real) {
    x == x.Floor as real && -0x8000_0000 <= x.Floor < 0x8000_0000
  }

  /** The fields every record gives; the alert stays what the uninitialised record holds. */
  ghost predicate GivenFields(ac: Aircraft, i: Info) {
    && i.Has(Location) && i.Has(Distance) && i.Has(LastContact) && i.Has(Altitude) && i.Has(Velocity)
    && i.Has(Heading) && i.Has(VerticalVel)
    && i.alert == ac.leftover.alert && (i.Has(Alert) <==> ac.leftover.Has(Alert))
  }

  lemma FlagsGive(flags: Flags)
    ensures var given := MotionFlags(With(With(With(flags, Location), Distance), Altitude));
      given == flags + {2, 3, 4, 6, 7, 8}
    ensures var given := MotionFlags(With(With(With(With(flags, Location), Distance), Callsign), Altitude));
      given == flags + {1, 2, 3, 4, 6, 7, 8}
  {
  }

  lemma SdrInfoGives(ac: Aircraft, cfg: Settings)
    requires ac.hex.Some?
    ensures GivenFields(ac, SdrInfo(ac, cfg))
    ensures SdrInfo(ac, cfg).Has(Callsign) <==> ac.flight != "" || ac.leftover.Has(Callsign)
  {
    FlagsGive(ac.leftover.flags);
  }

  lemma SdrInfoSays(ac: Aircraft, cfg: Settings)
    requires ac.hex.Some?
    ensures SdrSays(ac, cfg, SdrInfo(ac, cfg))
  {
    SdrInfoGives(ac, cfg);
    RoundIsNearest(ac.speed.ToDouble() * 1.852);
    RoundIsNearest(ac.climb.ToDouble() * 0.00508);
    RoundIsNearest(0.0);
  }

  /** Field by field, what a record of the internet feed says. */
  ghost predicate InternetSays(ac: Aircraft, cfg: Settings, i: Info) {
    && ac.hex == Some(i.icao)
    && i.lat == Num(if ac.lat.Number? then ac.lat.x else 0.0)
    && i.lon == Num(if ac.lon.Number? then ac.lon.x else 0.0)
    && i.lat.Num? && i.lon.Num? && i.distance == Num(cfg.distance(i.lat.r, i.lon.r))
    && i.callsign == (if ac.flight == "" then "N/A" else ac.flight)
    && i.lastContact == (if ac.seen.Number? && IsInt(ac.seen.x) then ac.seen.x.Floor else 0)
    && i.altitude == Num(if ac.altitude.Number? && ac.altitude.x != 0.0 then ac.altitude.x else 99999.9)
    && i.velocity == Num(if ac.speed.Number? && ac.speed.x != 0.0 then ac.speed.x * 3.6 else 99999.9)
    && i.heading == Num(if ac.track.Number? then ac.track.x else 0.0)
    && i.verticalVel == Num(if ac.climb.Number? then ac.climb.x else 0.0)
    && GivenFields(ac, i) && i.Has(Callsign)
  }

  lemma InternetInfoSays(ac: Aircraft, cfg: Settings)
    requires ac.hex.Some?
    ensures InternetSays(ac, cfg, InternetInfo(ac, cfg))
  {
  }

  /** The limit is in metres, of which whole kilometres count. */
  ghost predicate WithinLimit(distance: real, metres: int) {
    if metres >= 0 then distance * 1000.0 <= (metres - metres % 1000) as real
    else distance * 1000.0 <= (metres + (-metres) % 1000) as real
  }

  /** Which aircraft the SDR loop lets through; 16 feet are less than 5 metres, 17 are more. */
  lemma SdrAcceptsIff(ac: Aircraft, cfg: Settings)
    ensures SdrAccepts(ac, cfg) <==>
      && ac.hex.Some? && ac.lat != Null && ac.lon != Null
      && WithinLimit(cfg.distance(if ac.lat.Number? then ac.lat.x else 0.0, if ac.lon.Number? then ac.lon.x else 0.0), cfg.limit)
      && (cfg.unknownZeroAlt || (ac.altitude.Number? && IsInt(ac.altitude.x) && ac.altitude.x >= 17.0))
  {
    if ac.altitude.Number? && IsInt(ac.altitude.x) {
      assert ac.altitude.ToInt() as real == ac.altitude.x;
      assert ac.altitude.x.Floor >= 17 || ac.altitude.x.Floor <= 16;
    }
    LimitInKilometres(cfg.distance(ac.lat.ToDouble(), ac.lon.ToDouble()), cfg);
  }

  lemma LimitInKilometres(distance: real, cfg: Settings)
    ensures distance <= cfg.MaxDistance() <==> WithinLimit(distance, cfg.limit)
  {
    var n := if cfg.limit >= 0 then cfg.limit else -cfg.limit;
    assert n - n % 1000 == 1000 * (n / 1000);
    assert ((n - n % 1000) as real) == 1000.0 * ((n / 1000) as real);
  }

  /** Which the internet loop lets through: no distance test, and a known altitude is any but 0. */
  lemma InternetAcceptsIff(ac: Aircraft, cfg: Settings)
    ensures InternetAccepts(ac, cfg) <==>
      && ac.hex.Some? && ac.lat != Null && ac.lon != Null
      && (cfg.unknownZeroAlt || (ac.altitude.Number? && ac.altitude.x >= 5.0))
  {
  }

  // ------------------------------------------------------------------ what the feeds promise the store

  /** Every accepted aircraft is emitted, at the place its rank among the accepted ones gives it. */
  lemma {:induction false} SdrEmitsInOrder(crafts: seq<Aircraft>, cfg: Settings, i: nat)
    requires i < |crafts| && SdrAccepts(crafts[i], cfg)
    ensures var rank := |SdrEmits(crafts[..i], cfg)|;
      rank < |SdrEmits(crafts, cfg)| && SdrEmits(crafts, cfg)[rank] == SdrInfo(crafts[i], cfg)
  {
    var rest := crafts[..|crafts| - 1];
    if i < |rest| {
      assert rest[..i] == crafts[..i];
      SdrEmitsInOrder(rest, cfg, i);
    }
  }

  lemma {:induction false} InternetEmitsInOrder(crafts: seq<Aircraft>, cfg: Settings, i: nat)
    requires i < |crafts| && InternetAccepts(crafts[i], cfg)
    ensures var rank := |InternetEmits(crafts[..i], cfg)|;
      rank < |InternetEmits(crafts, cfg)| && InternetEmits(crafts, cfg)[rank] == InternetInfo(crafts[i], cfg)
  {
    var rest := crafts[..|crafts| - 1];
    if i < |rest| {
      assert rest[..i] == crafts[..i];
      InternetEmitsInOrder(rest, cfg, i);
    }
  }

  /** Whatever the flags held before, everything emitted passes the manager's location gate. */
  lemma {:induction false} EmittedIsLocated(crafts: seq<Aircraft>, cfg: Settings)
    ensures forall info <- SdrEmits(crafts, cfg) :: info.Has(Location)
    ensures forall info <- InternetEmits(crafts, cfg) :: info.Has(Location)
  {
    if crafts != [] {
      EmittedIsLocated(crafts[..|crafts| - 1], cfg);
    }
  }

  /** An absent position is not a missing one: it is taken for 0 degrees, in either feed. */
  lemma AbsentPositionIsZero(ac: Aircraft, cfg: Settings)
    ensures var absent, zero := ac.(lat := Undefined, lon := Undefined), ac.(lat := Number(0.0), lon := Number(0.0));
      && (SdrAccepts(absent, cfg) <==> SdrAccepts(zero, cfg))
      && (InternetAccepts(absent, cfg) <==> InternetAccepts(zero, cfg))
      && (ac.hex.Some? ==> SdrInfo(absent, cfg) == SdrInfo(zero, cfg) && InternetInfo(absent, cfg) == InternetInfo(zero, cfg))
  {
  }

  /** The emitted records as they reach the manager, one after the other. */
  function Delivered(infos: seq<Info>, garbage: nat -> Data, clock: nat -> int): seq<Event> {
    seq(|infos|, k requires 0 <= k < |infos| => Report(infos[k], garbage(k), clock(k)))
  }

  /** An aircraft the SDR feed accepts ends up listed exactly if no clear found it alive before. */
  lemma SdrEndsUpListedIff(h: seq<Event>, crafts: seq<Aircraft>, cfg: Settings, garbage: nat -> Data,
                           clock: nat -> int, i: nat)
    requires i < |crafts| && SdrAccepts(crafts[i], cfg)
    ensures var a := crafts[i].hex.value;
      a in After(h + Delivered(SdrEmits(crafts, cfg), garbage, clock)).listed <==> !ClearedWhileAlive(h, a)
  {
    EmittedIsLocated(crafts, cfg);
    SdrEmitsInOrder(crafts, cfg, i);
    BatchLeavesListedIff(h, Delivered(SdrEmits(crafts, cfg), garbage, clock), |SdrEmits(crafts[..i], cfg)|);
  }

  /** So does one the internet feed accepts. */
  lemma InternetEndsUpListedIff(h: seq<Event>, crafts: seq<Aircraft>, cfg: Settings, garbage: nat -> Data,
                                clock: nat -> int, i: nat)
    requires i < |crafts| && InternetAccepts(crafts[i], cfg)
    ensures var a := crafts[i].hex.value;
      a in After(h + Delivered(InternetEmits(crafts, cfg), garbage, clock)).listed <==> !ClearedWhileAlive(h, a)
  {
    EmittedIsLocated(crafts, cfg);
    InternetEmitsInOrder(crafts, cfg, i);
    BatchLeavesListedIff(h, Delivered(InternetEmits(crafts, cfg), garbage, clock), |InternetEmits(crafts[..i], cfg)|);
  }

  /** No accepted aircraft behind number `i` has its address. */
  ghost predicate LastSdr(crafts: seq<Aircraft>, cfg: Settings, i: nat)
    requires i < |crafts|
  {
    SdrAccepts(crafts[i], cfg) && forall j | i < j < |crafts| :: SdrAccepts(crafts[j], cfg) ==> crafts[j].hex != crafts[i].hex
  }

  /** Behind its record no other of the address is emitted. */
  lemma {:induction false} LastSdrRecord(crafts: seq<Aircraft>, cfg: Settings, i: nat)
    requires i < |crafts| && LastSdr(crafts, cfg, i)
    ensures var infos, rank := SdrEmits(crafts, cfg), |SdrEmits(crafts[..i], cfg)|;
      && rank < |infos| && infos[rank] == SdrInfo(crafts[i], cfg)
      && forall k | rank < k < |infos| :: infos[k].icao != infos[rank].icao
  {
    var rest := crafts[..|crafts| - 1];
    if i < |rest| {
      assert rest[..i] == crafts[..i];
      assert forall j | i < j < |rest| :: rest[j] == crafts[j];
      LastSdrRecord(rest, cfg, i);
    }
  }

  ghost predicate LastInternet(crafts: seq<Aircraft>, cfg: Settings, i: nat)
    requires i < |crafts|
  {
    && InternetAccepts(crafts[i], cfg)
    && forall j | i < j < |crafts| :: InternetAccepts(crafts[j], cfg) ==> crafts[j].hex != crafts[i].hex
  }

  lemma {:induction false} LastInternetRecord(crafts: seq<Aircraft>, cfg: Settings, i: nat)
    requires i < |crafts| && LastInternet(crafts, cfg, i)
    ensures var infos, rank := InternetEmits(crafts, cfg), |InternetEmits(crafts[..i], cfg)|;
      && rank < |infos| && infos[rank] == InternetInfo(crafts[i], cfg)
      && forall k | rank < k < |infos| :: infos[k].icao != infos[rank].icao
  {
    var rest := crafts[..|crafts| - 1];
    if i < |rest| {
      assert rest[..i] == crafts[..i];
      assert forall j | i < j < |rest| :: rest[j] == crafts[j];
      LastInternetRecord(rest, cfg, i);
    }
  }

  /** Whatever was held before, the store holds what the last record of an address says, from when it came. */
  lemma DeliveredIsHeld(h: seq<Event>, infos: seq<Info>, garbage: nat -> Data, clock: nat -> int, rank: nat)
    requires rank < |infos| && (forall info <- infos :: info.Has(Location))
    requires forall k | rank < k < |infos| :: infos[k].icao != infos[rank].icao
    ensures var known := After(h + Delivered(infos, garbage, clock)).known;
      infos[rank].icao in known && Shows(known[infos[rank].icao], infos[rank]) && known[infos[rank].icao].seen == clock(rank)
  {
    var batch, a := Delivered(infos, garbage, clock), infos[rank].icao;
    assert forall k | 0 <= k < |infos| :: batch[k] == Report(infos[k], garbage(k), clock(k)) && infos[k] in infos;
    LastReportIn(h, batch, rank);
    BatchLeavesAlive(h, batch, rank);
    ListedIff(h + batch, a);
  }

  /** So after delivery the store holds of an address what the last accepted aircraft of the SDR feed says. */
  lemma SdrIsHeld(h: seq<Event>, crafts: seq<Aircraft>, cfg: Settings, garbage: nat -> Data, clock: nat -> int, i: nat)
    returns (said: Info)
    requires i < |crafts| && LastSdr(crafts, cfg, i)
    ensures SdrSays(crafts[i], cfg, said)
    ensures var known := After(h + Delivered(SdrEmits(crafts, cfg), garbage, clock)).known;
      said.icao in known && Shows(known[said.icao], said)
  {
    said := SdrInfo(crafts[i], cfg);
    SdrInfoSays(crafts[i], cfg);
    EmittedIsLocated(crafts, cfg);
    LastSdrRecord(crafts, cfg, i);
    DeliveredIsHeld(h, SdrEmits(crafts, cfg), garbage, clock, |SdrEmits(crafts[..i], cfg)|);
  }

  lemma InternetIsHeld(h: seq<Event>, crafts: seq<Aircraft>, cfg: Settings, garbage: nat -> Data, clock: nat -> int, i: nat)
    returns (said: Info)
    requires i < |crafts| && LastInternet(crafts, cfg, i)
    ensures InternetSays(crafts[i], cfg, said)
    ensures var known := After(h + Delivered(InternetEmits(crafts, cfg), garbage, clock)).known;
      said.icao in known && Shows(known[said.icao], said)
  {
    said := InternetInfo(crafts[i], cfg);
    InternetInfoSays(crafts[i], cfg);
    EmittedIsLocated(crafts, cfg);
    LastInternetRecord(crafts, cfg, i);
    DeliveredIsHeld(h, InternetEmits(crafts, cfg), garbage, clock, |InternetEmits(crafts[..i], cfg)|);
  }
}
