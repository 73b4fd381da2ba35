/** `handle_set_wifi`, which checks its modes between the messages it sends. */
module SetWifi {
  import opened Prelude
  import opened Decimals
  import opened OptionParsing
  import opened ParamSending

  datatype WifiOption = WifiTarget | Mode | Hotspot | HsIface | ClIface | ClSsid | ClPw

  function WifiName(k: WifiOption): string {
    match k
    case WifiTarget => "--target"
    case Mode => "--mode"
    case Hotspot => "--hotspot"
    case HsIface => "--hs-iface"
    case ClIface => "--cl-iface"
    case ClSsid => "--cl-ssid"
    case ClPw => "--cl-pw"
  }

  function WifiKind(k: WifiOption): Kind {
    Text
  }

  function WifiTable(): Table<WifiOption> {
    arg =>
      if arg == "--target" then Some((WifiTarget, Text))
      else if arg == "--mode" then Some((Mode, Text))
      else if arg == "--hotspot" then Some((Hotspot, Text))
      else if arg == "--hs-iface" then Some((HsIface, Text))
      else if arg == "--cl-iface" then Some((ClIface, Text))
      else if arg == "--cl-ssid" then Some((ClSsid, Text))
      else if arg == "--cl-pw" then Some((ClPw, Text))
      else None
  }

  function ModeNumber(mode: string): Option<nat> {
    if mode == "off" then Some(0) else if mode == "hotspot" then Some(1) else if mode == "client" then Some(2) else None
  }

  function HotspotNumber(mode: string): Option<nat> {
    if mode == "auto" then Some(0) else if mode == "off" then Some(1) else if mode == "on" then Some(2) else None
  }

  function Printed(n: Option<nat>): Option<string> {
    if n.Some? then Some(Decimal(n.value)) else None
  }

  predicate ModeKnown(opts: map<WifiOption, Value>) {
    TextOf(opts, Mode).Some? ==> ModeNumber(TextOf(opts, Mode).value).Some?
  }

  predicate HotspotKnown(opts: map<WifiOption, Value>) {
    TextOf(opts, Hotspot).Some? ==> HotspotNumber(TextOf(opts, Hotspot).value).Some?
  }

  function NumberOf(opts: map<WifiOption, Value>, k: WifiOption, number: string -> Option<nat>): Option<string> {
    if TextOf(opts, k).Some? then Printed(number(TextOf(opts, k).value)) else None
  }

  function ClientParams(opts: map<WifiOption, Value>, ps: seq<Param>): seq<Param> {
    var p1 := Add(ps, TextOf(opts, HsIface), "WIFI_HS_IFACE", Custom);
    var p2 := Add(p1, TextOf(opts, ClIface), "WIFI_CL_IFACE", Custom);
    var p3 := Add(p2, TextOf(opts, ClSsid), "WIFI_CL_SSID", Custom);
    Add(p3, TextOf(opts, ClPw), "WIFI_CL_PW", Custom)
  }

  /** What is attempted: nothing with an unknown mode, the mode alone with an unknown hotspot mode. */
  function WifiParams(opts: map<WifiOption, Value>): seq<Param> {
    if !ModeKnown(opts) then []
    else
      var p1 := Add([], NumberOf(opts, Mode, ModeNumber), "WIFI_MODE", Int32);
      if !HotspotKnown(opts) then p1
      else ClientParams(opts, Add(p1, NumberOf(opts, Hotspot, HotspotNumber), "WIFI_HOTSPOT_E", Int32))
  }

  function TargetOf(opts: map<WifiOption, Value>): Option<Target> {
    if TextOf(opts, WifiTarget).Some? then ParseTarget(TextOf(opts, WifiTarget).value) else None
  }

  /** The exit code is 0 only if every mode was known and everything attempted got through. */
  method HandleSetWifi(sender: MavlinkSender, argv: seq<string>) returns (r: Outcome<int>)
    modifies sender
    ensures match ParseFrom(WifiTable(), argv, 1, map[]) {
      case Exit(ReturnOne) => r == Done(1) && sender.attempts == old(sender.attempts)
      case Exit(Terminated) => r == Exit(Terminated) && sender.attempts == old(sender.attempts)
      case Done(opts) =>
        var target := TargetOf(opts);
        if target.None? then r == Done(1) && sender.attempts == old(sender.attempts)
        else
          && sender.attempts == old(sender.attempts) + Messages(target.value, WifiParams(opts))
          && r == Done(if ModeKnown(opts) && HotspotKnown(opts) &&
                          AllDelivered(sender.delivered, |old(sender.attempts)|, |sender.attempts|) then 0 else 1)
    }
  {
    var parsed := ParseOptions(WifiTable(), argv);
    if parsed.Exit? {
      return if parsed.status == ReturnOne then Done(1) else Exit(Terminated);
    }
    var target := TargetOf(parsed.value);
    if target.None? {
      return Done(1);
    }
    var code := SendWifi(sender, target.value, parsed.value);
    return Done(code);
  }

  /** Lines 381 to 416. */
  method SendWifi(sender: MavlinkSender, target: Target, opts: map<WifiOption, Value>) returns (code: int)
    modifies sender
    ensures sender.attempts == old(sender.attempts) + Messages(target, WifiParams(opts))
    ensures code == if ModeKnown(opts) && HotspotKnown(opts) &&
                       AllDelivered(sender.delivered, |old(sender.attempts)|, |sender.attempts|) then 0 else 1
  {
    ghost var start := sender.attempts;
    ghost var p0: seq<Param> := [];
    assert Messages(target, p0) == [] && start + [] == start;
    if !ModeKnown(opts) {
      return 1;
    }
    var mode := NumberOf(opts, Mode, ModeNumber);
    var s := SendIf(sender, target, mode, "WIFI_MODE", Int32, true, start, [], p0);
    ghost var p1 := Add(p0, mode, "WIFI_MODE", Int32);
    if !HotspotKnown(opts) {
      return 1;
    }
    var hotspot := NumberOf(opts, Hotspot, HotspotNumber);
    s := SendIf(sender, target, hotspot, "WIFI_HOTSPOT_E", Int32, s, start, [], p1);
    s := SendClientParams(sender, target, opts, s, start, Add(p1, hotspot, "WIFI_HOTSPOT_E", Int32));
    return if s then 0 else 1;
  }

  /** Lines 398 to 409. */
  method SendClientParams(sender: MavlinkSender, target: Target, opts: map<WifiOption, Value>, success: bool,
                          ghost start: seq<Message>, ghost ps: seq<Param>) returns (s: bool)
    requires Progress(sender, start, [], target, ps, success)
    modifies sender
    ensures Progress(sender, start, [], target, ClientParams(opts, ps), s)
  {
    s := SendIf(sender, target, TextOf(opts, HsIface), "WIFI_HS_IFACE", Custom, success, start, [], ps);
    ghost var p1 := Add(ps, TextOf(opts, HsIface), "WIFI_HS_IFACE", Custom);
    s := SendIf(sender, target, TextOf(opts, ClIface), "WIFI_CL_IFACE", Custom, s, start, [], p1);
    ghost var p2 := Add(p1, TextOf(opts, ClIface), "WIFI_CL_IFACE", Custom);
    s := SendIf(sender, target, TextOf(opts, ClSsid), "WIFI_CL_SSID", Custom, s, start, [], p2);
    ghost var p3 := Add(p2, TextOf(opts, ClSsid), "WIFI_CL_SSID", Custom);
    s := SendIf(sender, target, TextOf(opts, ClPw), "WIFI_CL_PW", Custom, s, start, [], p3);
  }

  lemma WifiNamed()
    ensures Named(WifiTable(), WifiName, WifiKind)
  {
  }

  lemma WifiRoundTrip(order: seq<WifiOption>, record: map<WifiOption, Value>)
    requires forall k :: k in order <==> k in record
    requires forall k <- record :: HasKind(record[k], WifiKind(k))
    ensures ParseFrom(WifiTable(), ["set-wifi"] + Print(WifiName, WifiKind, Settings(order, record)), 1, map[]) == Done(record)
  {
    WifiNamed();
    RecordRoundTrip(WifiTable(), WifiName, WifiKind, "set-wifi", order, record);
  }

  // ------------------------------------------------------------------ from any argument vector to the parameters

  const MODES := OneOf("off", "hotspot", "client")
  const HOTSPOTS := OneOf("auto", "off", "on")

  const WIFI_WIRES: seq<Wire> := [
    Wire("--mode", MODES, "WIFI_MODE", Int32),
    Wire("--hotspot", HOTSPOTS, "WIFI_HOTSPOT_E", Int32),
    Wire("--hs-iface", Plain, "WIFI_HS_IFACE", Custom),
    Wire("--cl-iface", Plain, "WIFI_CL_IFACE", Custom),
    Wire("--cl-ssid", Plain, "WIFI_CL_SSID", Custom),
    Wire("--cl-pw", Plain, "WIFI_CL_PW", Custom)]

  ghost function WifiSaid(settings: seq<Setting<WifiOption>>): string -> Option<string> {
    flag => Said(WifiName, settings, flag)
  }

  /** A word is said that is none of the three. */
  predicate Unknown(meaning: Meaning, said: Option<string>) {
    said.Some? && Meant(meaning, said.value).None?
  }

  /** An unknown mode stops everything, an unknown hotspot mode everything behind the mode. */
  function WifiWires(mode: Option<string>, hotspot: Option<string>): seq<Wire> {
    if Unknown(MODES, mode) then [] else if Unknown(HOTSPOTS, hotspot) then WIFI_WIRES[..1] else WIFI_WIRES
  }

  lemma WifiTexts(settings: seq<Setting<WifiOption>>, opts: map<WifiOption, Value>, k: WifiOption)
    requires Applied(WifiKind, settings, map[]) == Done(opts)
    ensures TextOf(opts, k) == WifiSaid(settings)(WifiName(k))
  {
    WifiNamed();
    TextIsCarried(WifiTable(), WifiName, WifiKind, settings, opts, k, Wire(WifiName(k), Plain, "", Custom));
  }

  /** The numbers of the modes, as they are written. */
  lemma ModesAre(mode: string)
    ensures Printed(ModeNumber(mode)) == Meant(MODES, mode) && Printed(HotspotNumber(mode)) == Meant(HOTSPOTS, mode)
  {
    assert Decimal(0) == "0" && Decimal(1) == "1" && Decimal(2) == "2";
  }

  lemma ModesAreCarried(settings: seq<Setting<WifiOption>>, opts: map<WifiOption, Value>)
    requires Applied(WifiKind, settings, map[]) == Done(opts)
    ensures var said := WifiSaid(settings);
      && (ModeKnown(opts) <==> !Unknown(MODES, said("--mode")))
      && (HotspotKnown(opts) <==> !Unknown(HOTSPOTS, said("--hotspot")))
      && NumberOf(opts, Mode, ModeNumber) == Carried(WIFI_WIRES[0], said("--mode"))
      && NumberOf(opts, Hotspot, HotspotNumber) == Carried(WIFI_WIRES[1], said("--hotspot"))
  {
    WifiTexts(settings, opts, Mode);
    WifiTexts(settings, opts, Hotspot);
    if TextOf(opts, Mode).Some? {
      ModesAre(TextOf(opts, Mode).value);
    }
    if TextOf(opts, Hotspot).Some? {
      ModesAre(TextOf(opts, Hotspot).value);
    }
  }

  lemma ClientTexts(settings: seq<Setting<WifiOption>>, opts: map<WifiOption, Value>)
    requires Applied(WifiKind, settings, map[]) == Done(opts)
    ensures var said, w := WifiSaid(settings), WIFI_WIRES;
      && TextOf(opts, HsIface) == Carried(w[2], said("--hs-iface")) && TextOf(opts, ClIface) == Carried(w[3], said("--cl-iface"))
      && TextOf(opts, ClSsid) == Carried(w[4], said("--cl-ssid")) && TextOf(opts, ClPw) == Carried(w[5], said("--cl-pw"))
  {
    WifiTexts(settings, opts, HsIface);
    WifiTexts(settings, opts, ClIface);
    WifiTexts(settings, opts, ClSsid);
    WifiTexts(settings, opts, ClPw);
  }

  lemma WifiParamsAreWired(settings: seq<Setting<WifiOption>>, opts: map<WifiOption, Value>)
    requires Applied(WifiKind, settings, map[]) == Done(opts)
    ensures var said := WifiSaid(settings);
      WifiParams(opts) == Wired(WifiWires(said("--mode"), said("--hotspot")), said)
  {
    var said, w := WifiSaid(settings), WIFI_WIRES;
    ModesAreCarried(settings, opts);
    assert w[..0] == [];
    WiredPrefix(w, said, 0);
    WiredPrefix(w, said, 1);
    if ModeKnown(opts) && HotspotKnown(opts) {
      ClientParamsAreWired(settings, opts, Wired(w[..2], said));
    }
  }

  lemma ClientParamsAreWired(settings: seq<Setting<WifiOption>>, opts: map<WifiOption, Value>, ps: seq<Param>)
    requires Applied(WifiKind, settings, map[]) == Done(opts) && ps == Wired(WIFI_WIRES[..2], WifiSaid(settings))
    ensures ClientParams(opts, ps) == Wired(WIFI_WIRES, WifiSaid(settings))
  {
    var said, w := WifiSaid(settings), WIFI_WIRES;
    ClientTexts(settings, opts);
    WiredPrefix(w, said, 2);
    WiredPrefix(w, said, 3);
    WiredPrefix(w, said, 4);
    WiredPrefix(w, said, 5);
    assert w[..6] == w;
  }

  lemma WifiNothingElse()
    ensures NothingElse(WifiTable(), WifiName)
  {
  }

  /**
    Every argument vector of set-wifi, by its words alone: it is always read, goes nowhere without a target
    that is air or ground, and stops at an unknown mode.
   */
  lemma WifiVector(args: seq<string>) returns (items: seq<Item<WifiOption>>, tail: seq<string>)
    ensures Reads(WifiTable(), items, tail) && args == PrintItems(WifiName, WifiKind, items) + tail
    ensures var said, r := WifiSaid(SettingsIn(items)), ParseFrom(WifiTable(), ["set-wifi"] + args, 1, map[]);
      && r.Done?
      && TargetOf(r.value) == (if said("--target") == Some("air") then Some(Target(101, 191))
                               else if said("--target") == Some("ground") then Some(Target(100, 191)) else None)
      && WifiParams(r.value) == Wired(WifiWires(said("--mode"), said("--hotspot")), said)
      && (ModeKnown(r.value) && HotspotKnown(r.value) <==>
          !Unknown(MODES, said("--mode")) && !Unknown(HOTSPOTS, said("--hotspot")))
  {
    WifiNamed();
    WifiNothingElse();
    items, tail := EveryVectorIsItems(WifiTable(), WifiName, WifiKind, args);
    var settings := SettingsIn(items);
    ItemsAreReadBack(WifiTable(), WifiName, WifiKind, ["set-wifi"], items, tail, map[]);
    assert ["set-wifi"] + args == ["set-wifi"] + PrintItems(WifiName, WifiKind, items) + tail;
    FailsIff(WifiKind, settings, map[]);
    var opts := Applied(WifiKind, settings, map[]).value;
    WifiTexts(settings, opts, WifiTarget);
    TargetsAre(if TextOf(opts, WifiTarget).Some? then TextOf(opts, WifiTarget).value else "");
    ModesAreCarried(settings, opts);
    WifiParamsAreWired(settings, opts);
  }
}
