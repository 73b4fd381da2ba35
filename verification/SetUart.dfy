/** `handle_set_uart`: the same, with a target of its own and parameters only the ground takes. */
module SetUart {
  import opened Prelude
  import opened ParamEncoding
  import opened OptionParsing
  import opened ParamSending

  datatype UartOption =
    | UartTarget | UartAirOnly | Device | Enable | Baud | Flow | PrioRc | PrioOhd | PrioFc
    | TrackerDevice | TrackerBaud | TrackerFlow

  function UartName(k: UartOption): string {
    match k
    case UartTarget => "--target"
    case UartAirOnly => "--air-only"
    case Device => "--device"
    case Enable => "--enable"
    case Baud => "--baud"
    case Flow => "--flow"
    case PrioRc => "--prio-rc"
    case PrioOhd => "--prio-ohd"
    case PrioFc => "--prio-fc"
    case TrackerDevice => "--tracker-device"
    case TrackerBaud => "--tracker-baud"
    case TrackerFlow => "--tracker-flow"
  }

  function UartKind(k: UartOption): Kind {
    match k
    case UartAirOnly => Bare
    case Enable => OnOff
    case Flow => OnOff
    case TrackerFlow => OnOff
    case _ => Text
  }

  function UartTable(): Table<UartOption> {
    arg =>
      if arg == "--target" then Some((UartTarget, Text))
      else if arg == "--air-only" then Some((UartAirOnly, Bare))
      else if arg == "--device" then Some((Device, Text))
      else if arg == "--enable" then Some((Enable, OnOff))
      else if arg == "--baud" then Some((Baud, Text))
      else if arg == "--flow" then Some((Flow, OnOff))
      else if arg == "--prio-rc" then Some((PrioRc, Text))
      else if arg == "--prio-ohd" then Some((PrioOhd, Text))
      else if arg == "--prio-fc" then Some((PrioFc, Text))
      else if arg == "--tracker-device" then Some((TrackerDevice, Text))
      else if arg == "--tracker-baud" then Some((TrackerBaud, Text))
      else if arg == "--tracker-flow" then Some((TrackerFlow, OnOff))
      else None
  }

  /** `None` for a target that is neither air nor ground. */
  function UartTargets(opts: map<UartOption, Value>): Option<seq<Target>> {
    var name := TextOf(opts, UartTarget);
    if name.None? then Some(DefaultLinkTargets(UartAirOnly !in opts))
    else
      var target := ParseTarget(name.value);
      if target.None? then None else Some([target.value])
  }

  /** What every target takes. */
  function PortParams(opts: map<UartOption, Value>): seq<Param> {
    var p1 := Add([], TextOf(opts, Device), "OHD_UART_TLM", Custom);
    var p2 := Add(p1, TextOf(opts, Enable), "OHD_UART_EN", Int32);
    var p3 := Add(p2, TextOf(opts, Baud), "OHD_UART_BAUD", Int32);
    var p4 := Add(p3, TextOf(opts, Flow), "OHD_UART_FLW", Int32);
    var p5 := Add(p4, TextOf(opts, PrioRc), "UART_PRI_RC", Int32);
    var p6 := Add(p5, TextOf(opts, PrioOhd), "UART_PRI_OHD", Int32);
    Add(p6, TextOf(opts, PrioFc), "UART_PRI_FC", Int32)
  }

  /** What system 100 takes besides. */
  function TrackerParams(opts: map<UartOption, Value>, ps: seq<Param>): seq<Param> {
    var p1 := Add(ps, TextOf(opts, TrackerDevice), "TRACKER_UART_OUT", Custom);
    var p2 := Add(p1, TextOf(opts, TrackerBaud), "TRACK_UART_BAUD", Int32);
    Add(p2, TextOf(opts, TrackerFlow), "TRACK_UART_FLOW", Int32)
  }

  function UartParams(opts: map<UartOption, Value>): Target -> seq<Param> {
    (target: Target) => if target.system == 100 then TrackerParams(opts, PortParams(opts)) else PortParams(opts)
  }

  /** Exactly the plan is attempted whatever fails; nothing at all if an argument is not understood. */
  method HandleSetUart(sender: MavlinkSender, argv: seq<string>) returns (r: Outcome<int>)
    modifies sender
    ensures match ParseFrom(UartTable(), argv, 1, map[]) {
      case Exit(ReturnOne) => r == Done(1) && sender.attempts == old(sender.attempts)
      case Exit(Terminated) => r == Exit(Terminated) && sender.attempts == old(sender.attempts)
      case Done(opts) =>
        var targets := UartTargets(opts);
        if targets.None? then r == Done(1) && sender.attempts == old(sender.attempts)
        else
          && sender.attempts == old(sender.attempts) + Plan(targets.value, UartParams(opts))
          && r == Done(if AllDelivered(sender.delivered, |old(sender.attempts)|, |sender.attempts|) then 0 else 1)
    }
  {
    var parsed := ParseOptions(UartTable(), argv);
    if parsed.Exit? {
      return if parsed.status == ReturnOne then Done(1) else Exit(Terminated);
    }
    var targets := UartTargets(parsed.value);
    if targets.None? {
      return Done(1);
    }
    var success := SendUart(sender, targets.value, parsed.value);
    return Done(if success then 0 else 1);
  }

  /** Lines 486 to 501. */
  method SendUart(sender: MavlinkSender, targets: seq<Target>, opts: map<UartOption, Value>) returns (success: bool)
    modifies sender
    ensures sender.attempts == old(sender.attempts) + Plan(targets, UartParams(opts))
    ensures success <==> AllDelivered(sender.delivered, |old(sender.attempts)|, |sender.attempts|)
  {
    ghost var start, params := sender.attempts, UartParams(opts);
    success := true;
    var n := 0;
    while n < |targets|
      invariant 0 <= n <= |targets|
      invariant sender.attempts == start + Plan(targets[..n], params)
      invariant success <==> AllDelivered(sender.delivered, |start|, |sender.attempts|)
    {
      ghost var plan := Plan(targets[..n], params);
      success := SendPortParams(sender, targets[n], opts, success, start, plan);
      if targets[n].system == 100 {
        success := SendTrackerParams(sender, targets[n], opts, success, start, plan, PortParams(opts));
      }
      PlanGrows(start, targets, params, n, sender.attempts);
      n := n + 1;
    }
    assert targets[..n] == targets;
  }

  /** Lines 488 to 494. */
  method SendPortParams(sender: MavlinkSender, target: Target, opts: map<UartOption, Value>, success: bool,
                        ghost start: seq<Message>, ghost plan: seq<Message>) returns (s: bool)
    requires sender.attempts == start + plan
    requires success <==> AllDelivered(sender.delivered, |start|, |sender.attempts|)
    modifies sender
    ensures Progress(sender, start, plan, target, PortParams(opts), s)
  {
    ghost var p0: seq<Param> := [];
    assert Messages(target, p0) == [];
    s := SendIf(sender, target, TextOf(opts, Device), "OHD_UART_TLM", Custom, success, start, plan, p0);
    ghost var p1 := Add(p0, TextOf(opts, Device), "OHD_UART_TLM", Custom);
    s := SendIf(sender, target, TextOf(opts, Enable), "OHD_UART_EN", Int32, s, start, plan, p1);
    ghost var p2 := Add(p1, TextOf(opts, Enable), "OHD_UART_EN", Int32);
    s := SendIf(sender, target, TextOf(opts, Baud), "OHD_UART_BAUD", Int32, s, start, plan, p2);
    ghost var p3 := Add(p2, TextOf(opts, Baud), "OHD_UART_BAUD", Int32);
    s := SendIf(sender, target, TextOf(opts, Flow), "OHD_UART_FLW", Int32, s, start, plan, p3);
    ghost var p4 := Add(p3, TextOf(opts, Flow), "OHD_UART_FLW", Int32);
    s := SendIf(sender, target, TextOf(opts, PrioRc), "UART_PRI_RC", Int32, s, start, plan, p4);
    ghost var p5 := Add(p4, TextOf(opts, PrioRc), "UART_PRI_RC", Int32);
    s := SendIf(sender, target, TextOf(opts, PrioOhd), "UART_PRI_OHD", Int32, s, start, plan, p5);
    ghost var p6 := Add(p5, TextOf(opts, PrioOhd), "UART_PRI_OHD", Int32);
    s := SendIf(sender, target, TextOf(opts, PrioFc), "UART_PRI_FC", Int32, s, start, plan, p6);
  }

  /** Lines 497 to 499. */
  method SendTrackerParams(sender: MavlinkSender, target: Target, opts: map<UartOption, Value>, success: bool,
                           ghost start: seq<Message>, ghost plan: seq<Message>, ghost ps: seq<Param>)
    returns (s: bool)
    requires Progress(sender, start, plan, target, ps, success)
    modifies sender
    ensures Progress(sender, start, plan, target, TrackerParams(opts, ps), s)
  {
    s := SendIf(sender, target, TextOf(opts, TrackerDevice), "TRACKER_UART_OUT", Custom, success, start, plan, ps);
    ghost var p1 := Add(ps, TextOf(opts, TrackerDevice), "TRACKER_UART_OUT", Custom);
    s := SendIf(sender, target, TextOf(opts, TrackerBaud), "TRACK_UART_BAUD", Int32, s, start, plan, p1);
    ghost var p2 := Add(p1, TextOf(opts, TrackerBaud), "TRACK_UART_BAUD", Int32);
    s := SendIf(sender, target, TextOf(opts, TrackerFlow), "TRACK_UART_FLOW", Int32, s, start, plan, p2);
  }

  lemma UartNamed()
    ensures Named(UartTable(), UartName, UartKind)
  {
  }

  /** Every record of UART options, printed in any order behind the command word, is read back as it was. */
  lemma UartRoundTrip(order: seq<UartOption>, record: map<UartOption, Value>)
    requires forall k :: k in order <==> k in record
    requires forall k <- record :: HasKind(record[k], UartKind(k))
    ensures ParseFrom(UartTable(), ["set-uart"] + Print(UartName, UartKind, Settings(order, record)), 1, map[]) == Done(record)
  {
    UartNamed();
    RecordRoundTrip(UartTable(), UartName, UartKind, "set-uart", order, record);
  }

  const TRACKER_NAMES: seq<string> := ["TRACKER_UART_OUT", "TRACK_UART_BAUD", "TRACK_UART_FLOW"]
  const PORT_NAMES: seq<string> :=
    ["OHD_UART_TLM", "OHD_UART_EN", "OHD_UART_BAUD", "OHD_UART_FLW", "UART_PRI_RC", "UART_PRI_OHD", "UART_PRI_FC"]

  lemma PortNames(opts: map<UartOption, Value>)
    ensures forall p <- PortParams(opts) :: p.name in PORT_NAMES
  {
  }

  /** Every tracker option given is among the parameters, under its name. */
  predicate AllTrackerParams(opts: map<UartOption, Value>, params: seq<Param>) {
    var device, baud, flow := TextOf(opts, TrackerDevice), TextOf(opts, TrackerBaud), TextOf(opts, TrackerFlow);
    && (device.Some? ==> Param("TRACKER_UART_OUT", device.value, Custom) in params)
    && (baud.Some? ==> Param("TRACK_UART_BAUD", baud.value, Int32) in params)
    && (flow.Some? ==> Param("TRACK_UART_FLOW", flow.value, Int32) in params)
  }

  lemma TrackerNames(opts: map<UartOption, Value>, ps: seq<Param>)
    ensures forall p <- TrackerParams(opts, ps) :: p in ps || p.name in TRACKER_NAMES
    ensures forall p <- ps :: p in TrackerParams(opts, ps)
    ensures AllTrackerParams(opts, TrackerParams(opts, ps))
  {
  }

  lemma PortNameIs(name: string)
    requires name in PORT_NAMES
    ensures NUL !in name && 0 < |name| < ID_SIZE && name[0] != 'T'
  {
  }

  lemma TrackerNameIs(name: string)
    requires name in TRACKER_NAMES
    ensures NUL !in name && 0 < |name| <= ID_SIZE && name[0] == 'T'
    ensures |name| == ID_SIZE <==> name == "TRACKER_UART_OUT"
  {
  }

  /** The tracker parameters reach system 100 alone, and reach it whenever they are given. */
  lemma TrackerOnlyForGround(opts: map<UartOption, Value>, target: Target)
    ensures target.system != 100 ==> forall p <- UartParams(opts)(target) :: p.name !in TRACKER_NAMES
    ensures target.system == 100 ==> AllTrackerParams(opts, UartParams(opts)(target))
    ensures forall p <- PortParams(opts) :: p in UartParams(opts)(target)
  {
    var ps := PortParams(opts);
    PortNames(opts);
    TrackerNames(opts, ps);
    forall p | p in ps ensures p.name !in TRACKER_NAMES {
      PortNameIs(p.name);
      if p.name in TRACKER_NAMES {
        TrackerNameIs(p.name);
        assert false;
      }
    }
  }

  lemma CutIfTooLong(name: string)
    requires NUL !in name && |name| <= ID_SIZE
    ensures WireName(name) == name <==> |name| < ID_SIZE
  {
    NameIntactIff(name);
  }

  /** Of all the names, the one for the tracker device is the one too long to arrive whole. */
  lemma OnlyTrackerDeviceIsCut(opts: map<UartOption, Value>, target: Target, p: Param)
    requires p in UartParams(opts)(target)
    ensures WireName(p.name) == p.name <==> p.name != "TRACKER_UART_OUT"
  {
    var ps := PortParams(opts);
    PortNames(opts);
    TrackerNames(opts, ps);
    if p in ps {
      PortNameIs(p.name);
    } else {
      TrackerNameIs(p.name);
    }
    CutIfTooLong(p.name);
  }

  // ------------------------------------------------------------------ from any argument vector to the parameters

  const PORT_WIRES: seq<Wire> := [
    Wire("--device", Plain, "OHD_UART_TLM", Custom),
    Wire("--enable", Switch, "OHD_UART_EN", Int32),
    Wire("--baud", Plain, "OHD_UART_BAUD", Int32),
    Wire("--flow", Switch, "OHD_UART_FLW", Int32),
    Wire("--prio-rc", Plain, "UART_PRI_RC", Int32),
    Wire("--prio-ohd", Plain, "UART_PRI_OHD", Int32),
    Wire("--prio-fc", Plain, "UART_PRI_FC", Int32)]

  const TRACKER_WIRES: seq<Wire> := [
    Wire("--tracker-device", Plain, "TRACKER_UART_OUT", Custom),
    Wire("--tracker-baud", Plain, "TRACK_UART_BAUD", Int32),
    Wire("--tracker-flow", Switch, "TRACK_UART_FLOW", Int32)]

  function UartWires(system: nat): seq<Wire> {
    if system == 100 then PORT_WIRES + TRACKER_WIRES else PORT_WIRES
  }

  ghost function UartSaid(settings: seq<Setting<UartOption>>): string -> Option<string> {
    flag => Said(UartName, settings, flag)
  }

  /** The text of option `k` is what wire `w` carries. */
  lemma UartCarries(settings: seq<Setting<UartOption>>, opts: map<UartOption, Value>, k: UartOption, w: Wire)
    requires Applied(UartKind, settings, map[]) == Done(opts)
    requires UartName(k) == w.flag && w.meaning == (if UartKind(k) == OnOff then Switch else Plain) && UartKind(k) != Bare
    ensures TextOf(opts, k) == Carried(w, UartSaid(settings)(w.flag))
  {
    UartNamed();
    TextIsCarried(UartTable(), UartName, UartKind, settings, opts, k, w);
  }

  lemma PortTexts(settings: seq<Setting<UartOption>>, opts: map<UartOption, Value>)
    requires Applied(UartKind, settings, map[]) == Done(opts)
    ensures var said, w := UartSaid(settings), PORT_WIRES;
      && TextOf(opts, Device) == Carried(w[0], said("--device")) && TextOf(opts, Enable) == Carried(w[1], said("--enable"))
      && TextOf(opts, Baud) == Carried(w[2], said("--baud")) && TextOf(opts, Flow) == Carried(w[3], said("--flow"))
      && TextOf(opts, PrioRc) == Carried(w[4], said("--prio-rc")) && TextOf(opts, PrioOhd) == Carried(w[5], said("--prio-ohd"))
      && TextOf(opts, PrioFc) == Carried(w[6], said("--prio-fc"))
  {
    var w := PORT_WIRES;
    UartCarries(settings, opts, Device, w[0]);
    UartCarries(settings, opts, Enable, w[1]);
    UartCarries(settings, opts, Baud, w[2]);
    UartCarries(settings, opts, Flow, w[3]);
    UartCarries(settings, opts, PrioRc, w[4]);
    UartCarries(settings, opts, PrioOhd, w[5]);
    UartCarries(settings, opts, PrioFc, w[6]);
  }

  lemma FirstPortsAreWired(settings: seq<Setting<UartOption>>, opts: map<UartOption, Value>) returns (ps: seq<Param>)
    requires Applied(UartKind, settings, map[]) == Done(opts)
    ensures ps == Wired(PORT_WIRES[..4], UartSaid(settings))
    ensures var p1 := Add([], TextOf(opts, Device), "OHD_UART_TLM", Custom);
      var p2 := Add(p1, TextOf(opts, Enable), "OHD_UART_EN", Int32);
      var p3 := Add(p2, TextOf(opts, Baud), "OHD_UART_BAUD", Int32);
      ps == Add(p3, TextOf(opts, Flow), "OHD_UART_FLW", Int32)
  {
    var said, w := UartSaid(settings), PORT_WIRES;
    PortTexts(settings, opts);
    assert w[..0] == [];
    WiredPrefix(w, said, 0);
    WiredPrefix(w, said, 1);
    WiredPrefix(w, said, 2);
    WiredPrefix(w, said, 3);
    ps := Wired(w[..4], said);
  }

  lemma PortParamsAreWired(settings: seq<Setting<UartOption>>, opts: map<UartOption, Value>)
    requires Applied(UartKind, settings, map[]) == Done(opts)
    ensures PortParams(opts) == Wired(PORT_WIRES, UartSaid(settings))
  {
    var said, w := UartSaid(settings), PORT_WIRES;
    var p4 := FirstPortsAreWired(settings, opts);
    PortTexts(settings, opts);
    WiredPrefix(w, said, 4);
    WiredPrefix(w, said, 5);
    WiredPrefix(w, said, 6);
    assert w[..7] == w;
  }

  lemma TrackerParamsAreWired(settings: seq<Setting<UartOption>>, opts: map<UartOption, Value>)
    requires Applied(UartKind, settings, map[]) == Done(opts)
    ensures TrackerParams(opts, PortParams(opts)) == Wired(PORT_WIRES + TRACKER_WIRES, UartSaid(settings))
  {
    var said, w := UartSaid(settings), PORT_WIRES + TRACKER_WIRES;
    UartCarries(settings, opts, TrackerDevice, w[7]);
    UartCarries(settings, opts, TrackerBaud, w[8]);
    UartCarries(settings, opts, TrackerFlow, w[9]);
    PortParamsAreWired(settings, opts);
    WiredPrefix(w, said, 7);
    WiredPrefix(w, said, 8);
    WiredPrefix(w, said, 9);
    assert w[..10] == w && w[..7] == PORT_WIRES;
  }

  /** Where the messages go, by what is said; `None` for a target that is neither air nor ground. */
  function SaidTargets(target: Option<string>, airOnly: Option<string>): Option<seq<Target>> {
    if target == Some("air") then Some([Target(101, 191)])
    else if target == Some("ground") then Some([Target(100, 191)])
    else if target.Some? then None
    else if airOnly.Some? then Some([Target(101, 191)])
    else Some([Target(101, 191), Target(100, 191)])
  }

  lemma UartTargetsAreSaid(settings: seq<Setting<UartOption>>, opts: map<UartOption, Value>)
    requires Applied(UartKind, settings, map[]) == Done(opts)
    ensures UartTargets(opts) == SaidTargets(UartSaid(settings)("--target"), UartSaid(settings)("--air-only"))
  {
    UartNamed();
    UartCarries(settings, opts, UartTarget, Wire("--target", Plain, "", Custom));
    SaidIsRead(UartTable(), UartName, UartKind, settings, opts, UartAirOnly);
    if TextOf(opts, UartTarget).Some? {
      TargetsAre(TextOf(opts, UartTarget).value);
    } else {
      TargetsAre("");
    }
  }

  /** The setting is a switch that is set to neither on nor off. */
  ghost predicate BadSwitch(s: Setting<UartOption>) {
    UartName(s.key) in ["--enable", "--flow", "--tracker-flow"] && s.arg !in ON_WORDS && s.arg !in OFF_WORDS
  }

  lemma BadSwitchIs(s: Setting<UartOption>)
    ensures var r := Read(UartKind(s.key), s.arg);
      (r.Exit? <==> BadSwitch(s)) && (r.Exit? ==> r.status == ReturnOne)
  {
    ReadIs(s.arg);
  }

  lemma UartFailsIff(settings: seq<Setting<UartOption>>)
    ensures Applied(UartKind, settings, map[]).Exit? <==> exists s <- settings :: BadSwitch(s)
    ensures Applied(UartKind, settings, map[]).Exit? ==> Applied(UartKind, settings, map[]).status == ReturnOne
  {
    FailsIff(UartKind, settings, map[]);
    var r := Applied(UartKind, settings, map[]);
    if r.Exit? {
      var s :| s in settings && Read(UartKind(s.key), s.arg) == Exit(r.status);
      BadSwitchIs(s);
    }
    if s :| s in settings && BadSwitch(s) {
      BadSwitchIs(s);
    }
  }

  lemma UartNothingElse()
    ensures NothingElse(UartTable(), UartName)
  {
  }

  /**
    Every argument vector of set-uart, by its words alone: which fail, where the messages of the others go,
    and which parameters with which values each target is sent in which order.
   */
  lemma UartVector(args: seq<string>) returns (items: seq<Item<UartOption>>, tail: seq<string>)
    ensures Reads(UartTable(), items, tail) && args == PrintItems(UartName, UartKind, items) + tail
    ensures var settings, r := SettingsIn(items), ParseFrom(UartTable(), ["set-uart"] + args, 1, map[]);
      && (r.Exit? <==> exists s <- settings :: BadSwitch(s))
      && (r.Exit? ==> r.status == ReturnOne)
      && (r.Done? ==>
            && UartTargets(r.value) == SaidTargets(UartSaid(settings)("--target"), UartSaid(settings)("--air-only"))
            && forall t: Target :: UartParams(r.value)(t) == Wired(UartWires(t.system), UartSaid(settings)))
  {
    UartNamed();
    UartNothingElse();
    items, tail := EveryVectorIsItems(UartTable(), UartName, UartKind, args);
    var settings := SettingsIn(items);
    ItemsAreReadBack(UartTable(), UartName, UartKind, ["set-uart"], items, tail, map[]);
    assert ["set-uart"] + args == ["set-uart"] + PrintItems(UartName, UartKind, items) + tail;
    UartFailsIff(settings);
    var r := Applied(UartKind, settings, map[]);
    if r.Done? {
      UartTargetsAreSaid(settings, r.value);
      PortParamsAreWired(settings, r.value);
      TrackerParamsAreWired(settings, r.value);
    }
  }

  /** Each message attempted, by the words of the vector. */
  lemma UartMessages(args: seq<string>, m: Message) returns (items: seq<Item<UartOption>>, tail: seq<string>)
    ensures Reads(UartTable(), items, tail) && args == PrintItems(UartName, UartKind, items) + tail
    ensures var said, r := UartSaid(SettingsIn(items)), ParseFrom(UartTable(), ["set-uart"] + args, 1, map[]);
      r.Done? && UartTargets(r.value).Some? ==>
        (m in Plan(UartTargets(r.value).value, UartParams(r.value)) <==>
         exists t, w, v :: t in UartTargets(r.value).value && Sends(UartWires(t.system), said, t, w, v, m))
  {
    items, tail := UartVector(args);
    var said, r := UartSaid(SettingsIn(items)), ParseFrom(UartTable(), ["set-uart"] + args, 1, map[]);
    if r.Done? && UartTargets(r.value).Some? {
      AttemptedIff(UartTargets(r.value).value, UartParams(r.value), (t: Target) => UartWires(t.system), said, m);
    }
  }

  /** Each parameter every target takes, and the option it comes from. */
  lemma PortParamsIff(opts: map<UartOption, Value>, p: Param)
    ensures p in PortParams(opts) <==>
      || (p.name == "OHD_UART_TLM" && p.type_ == Custom && TextOf(opts, Device) == Some(p.value))
      || (p.name == "OHD_UART_EN" && p.type_ == Int32 && TextOf(opts, Enable) == Some(p.value))
      || (p.name == "OHD_UART_BAUD" && p.type_ == Int32 && TextOf(opts, Baud) == Some(p.value))
      || (p.name == "OHD_UART_FLW" && p.type_ == Int32 && TextOf(opts, Flow) == Some(p.value))
      || (p.name == "UART_PRI_RC" && p.type_ == Int32 && TextOf(opts, PrioRc) == Some(p.value))
      || (p.name == "UART_PRI_OHD" && p.type_ == Int32 && TextOf(opts, PrioOhd) == Some(p.value))
      || (p.name == "UART_PRI_FC" && p.type_ == Int32 && TextOf(opts, PrioFc) == Some(p.value))
  {
    var p1 := Add([], TextOf(opts, Device), "OHD_UART_TLM", Custom);
    var p2 := Add(p1, TextOf(opts, Enable), "OHD_UART_EN", Int32);
    var p3 := Add(p2, TextOf(opts, Baud), "OHD_UART_BAUD", Int32);
    var p4 := Add(p3, TextOf(opts, Flow), "OHD_UART_FLW", Int32);
    var p5 := Add(p4, TextOf(opts, PrioRc), "UART_PRI_RC", Int32);
    var p6 := Add(p5, TextOf(opts, PrioOhd), "UART_PRI_OHD", Int32);
    AddedIff([], TextOf(opts, Device), "OHD_UART_TLM", Custom, p);
    AddedIff(p1, TextOf(opts, Enable), "OHD_UART_EN", Int32, p);
    AddedIff(p2, TextOf(opts, Baud), "OHD_UART_BAUD", Int32, p);
    AddedIff(p3, TextOf(opts, Flow), "OHD_UART_FLW", Int32, p);
    AddedIff(p4, TextOf(opts, PrioRc), "UART_PRI_RC", Int32, p);
    AddedIff(p5, TextOf(opts, PrioOhd), "UART_PRI_OHD", Int32, p);
    AddedIff(p6, TextOf(opts, PrioFc), "UART_PRI_FC", Int32, p);
  }
}
