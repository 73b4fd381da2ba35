/** `handle_set_link`: from an argument vector to the messages attempted, in order, and the exit code. */
module SetLink {
  import opened Prelude
  import opened Decimals
  import opened ParamEncoding
  import opened OptionParsing
  import opened ParamSending

  datatype LinkOption = Frequency | Bandwidth | Mcs | TxPower | TxPowerArmed | Card | RedundantTx | LinkAirOnly

  function LinkName(k: LinkOption): string {
    match k
    case Frequency => "--frequency"
    case Bandwidth => "--bandwidth"
    case Mcs => "--mcs"
    case TxPower => "--tx-power"
    case TxPowerArmed => "--tx-power-armed"
    case Card => "--card"
    case RedundantTx => "--redundant-tx"
    case LinkAirOnly => "--air-only"
  }

  function LinkKind(k: LinkOption): Kind {
    match k
    case Card => Number
    case RedundantTx => OnOff
    case LinkAirOnly => Bare
    case _ => Text
  }

  function LinkTable(): Table<LinkOption> {
    arg =>
      if arg == "--frequency" then Some((Frequency, Text))
      else if arg == "--bandwidth" then Some((Bandwidth, Text))
      else if arg == "--mcs" then Some((Mcs, Text))
      else if arg == "--tx-power" then Some((TxPower, Text))
      else if arg == "--tx-power-armed" then Some((TxPowerArmed, Text))
      else if arg == "--card" then Some((Card, Number))
      else if arg == "--redundant-tx" then Some((RedundantTx, OnOff))
      else if arg == "--air-only" then Some((LinkAirOnly, Bare))
      else None
  }

  function CardIndex(opts: map<LinkOption, Value>): int {
    if Card in opts && opts[Card].Num? then opts[Card].n else -1
  }

  function TxPowerName(card: int): string {
    if card >= 0 then "TX_POWER_MW_" + Decimal(card) else "TX_POWER_MW"
  }

  function TxPowerArmedName(card: int): string {
    if card >= 0 then "TX_POWER_MWA_" + Decimal(card) else "TX_POWER_MW_ARM"
  }

  function LinkParams(opts: map<LinkOption, Value>): seq<Param> {
    var p1 := Add([], TextOf(opts, Frequency), "WB_FREQUENCY", Real32);
    var p2 := Add(p1, TextOf(opts, Bandwidth), "WB_CHANNEL_W", Real32);
    var p3 := Add(p2, TextOf(opts, Mcs), "WB_MCS_INDEX", Int32);
    var p4 := Add(p3, TextOf(opts, TxPower), TxPowerName(CardIndex(opts)), Int32);
    var p5 := Add(p4, TextOf(opts, TxPowerArmed), TxPowerArmedName(CardIndex(opts)), Int32);
    Add(p5, TextOf(opts, RedundantTx), "WB_RED_TX", Int32)
  }

  /** Every target gets the same parameters. */
  function EveryTarget(opts: map<LinkOption, Value>): Target -> seq<Param> {
    _ => LinkParams(opts)
  }

  ghost function LinkPlan(opts: map<LinkOption, Value>): seq<Message> {
    Plan(DefaultLinkTargets(LinkAirOnly !in opts), EveryTarget(opts))
  }

  /** Exactly the plan is attempted whatever fails, and 0 is returned only if all of it got through. */
  method HandleSetLink(sender: MavlinkSender, argv: seq<string>) returns (r: Outcome<int>)
    modifies sender
    ensures match ParseFrom(LinkTable(), argv, 1, map[]) {
      case Exit(ReturnOne) => r == Done(1) && sender.attempts == old(sender.attempts)
      case Exit(Terminated) => r == Exit(Terminated) && sender.attempts == old(sender.attempts)
      case Done(opts) =>
        && sender.attempts == old(sender.attempts) + LinkPlan(opts)
        && r == Done(if AllDelivered(sender.delivered, |old(sender.attempts)|, |sender.attempts|) then 0 else 1)
    }
  {
    var parsed := ParseOptions(LinkTable(), argv);
    if parsed.Exit? {
      return if parsed.status == ReturnOne then Done(1) else Exit(Terminated);
    }
    var success := SendLink(sender, parsed.value);
    return Done(if success then 0 else 1);
  }

  /** Lines 196 to 216. */
  method SendLink(sender: MavlinkSender, opts: map<LinkOption, Value>) returns (success: bool)
    modifies sender
    ensures sender.attempts == old(sender.attempts) + LinkPlan(opts)
    ensures success <==> AllDelivered(sender.delivered, |old(sender.attempts)|, |sender.attempts|)
  {
    var targets := DefaultLinkTargets(LinkAirOnly !in opts);
    ghost var start, params := sender.attempts, EveryTarget(opts);
    success := true;
    var n := 0;
    while n < |targets|
      invariant 0 <= n <= |targets|
      invariant sender.attempts == start + Plan(targets[..n], params)
      invariant success <==> AllDelivered(sender.delivered, |start|, |sender.attempts|)
    {
      ghost var plan := Plan(targets[..n], params);
      success := SendLinkParams(sender, targets[n], opts, success, start, plan);
      PlanGrows(start, targets, params, n, sender.attempts);
      n := n + 1;
    }
    assert targets[..n] == targets;
  }

  /** Lines 199 to 215. */
  method SendLinkParams(sender: MavlinkSender, target: Target, opts: map<LinkOption, Value>, success: bool,
                        ghost start: seq<Message>, ghost plan: seq<Message>) returns (s: bool)
    requires sender.attempts == start + plan
    requires success <==> AllDelivered(sender.delivered, |start|, |sender.attempts|)
    modifies sender
    ensures Progress(sender, start, plan, target, LinkParams(opts), s)
  {
    ghost var p0: seq<Param> := [];
    assert Messages(target, p0) == [];
    s := SendIf(sender, target, TextOf(opts, Frequency), "WB_FREQUENCY", Real32, success, start, plan, p0);
    ghost var p1 := Add(p0, TextOf(opts, Frequency), "WB_FREQUENCY", Real32);
    s := SendIf(sender, target, TextOf(opts, Bandwidth), "WB_CHANNEL_W", Real32, s, start, plan, p1);
    ghost var p2 := Add(p1, TextOf(opts, Bandwidth), "WB_CHANNEL_W", Real32);
    s := SendIf(sender, target, TextOf(opts, Mcs), "WB_MCS_INDEX", Int32, s, start, plan, p2);
    ghost var p3 := Add(p2, TextOf(opts, Mcs), "WB_MCS_INDEX", Int32);
    s := SendIf(sender, target, TextOf(opts, TxPower), TxPowerName(CardIndex(opts)), Int32, s, start, plan, p3);
    ghost var p4 := Add(p3, TextOf(opts, TxPower), TxPowerName(CardIndex(opts)), Int32);
    s := SendIf(sender, target, TextOf(opts, TxPowerArmed), TxPowerArmedName(CardIndex(opts)), Int32, s, start, plan, p4);
    ghost var p5 := Add(p4, TextOf(opts, TxPowerArmed), TxPowerArmedName(CardIndex(opts)), Int32);
    s := SendIf(sender, target, TextOf(opts, RedundantTx), "WB_RED_TX", Int32, s, start, plan, p5);
  }

  lemma LinkNamed()
    ensures Named(LinkTable(), LinkName, LinkKind)
  {
  }

  /** Every record of link options, printed in any order behind the command word, is read back as it was. */
  lemma LinkRoundTrip(order: seq<LinkOption>, record: map<LinkOption, Value>)
    requires forall k :: k in order <==> k in record
    requires forall k <- record :: HasKind(record[k], LinkKind(k))
    ensures ParseFrom(LinkTable(), ["set-link"] + Print(LinkName, LinkKind, Settings(order, record)), 1, map[]) == Done(record)
  {
    LinkNamed();
    RecordRoundTrip(LinkTable(), LinkName, LinkKind, "set-link", order, record);
  }

  // ------------------------------------------------------------------ what the receiver makes of the names

  /** A number for each parameter, told from the name as it arrives. */
  function Rank(wire: string): int {
    if |wire| < 5 then -1
    else if wire[3] == 'F' then 1
    else if wire[3] == 'C' then 2
    else if wire[3] == 'M' then 3
    else if wire[3] == 'R' then 6
    else if |wire| == 11 || (|wire| > 12 && wire[11] == '_' && wire[12] != 'A') then 4
    else 5
  }

  /** The names of `ps` arrive with increasing ranks, all below `bound`. */
  ghost predicate Ranked(ps: seq<Param>, bound: int) {
    && (forall k | 0 <= k < |ps| :: Rank(WireName(ps[k].name)) < bound)
    && (forall j, k | 0 <= j < k < |ps| :: Rank(WireName(ps[j].name)) < Rank(WireName(ps[k].name)))
  }

  lemma AddRanked(ps: seq<Param>, value: Option<string>, name: string, type_: ParamType, rank: int)
    requires Ranked(ps, rank) && Rank(WireName(name)) == rank
    ensures Ranked(Add(ps, value, name, type_), rank + 1)
  {
    if value.Some? {
      var ps' := Add(ps, value, name, type_);
      assert forall k | 0 <= k < |ps| :: ps'[k] == ps[k];
      assert ps'[|ps|].name == name;
    }
  }

  /** A name that fits arrives with the rank it has. */
  lemma AddIntact(ps: seq<Param>, value: Option<string>, name: string, type_: ParamType, rank: int)
    requires |name| <= ID_SIZE - 1 && NUL !in name && Rank(name) == rank && Ranked(ps, rank)
    ensures Ranked(Add(ps, value, name, type_), rank + 1)
  {
    NameIntactIff(name);
    AddRanked(ps, value, name, type_, rank);
  }

  /** A per-card name does too, cut or not. */
  lemma AddPerCard(ps: seq<Param>, value: Option<string>, prefix: string, room: nat, card: nat, rank: int)
    requires prefix == (if rank == 4 then "TX_POWER_MW_" else "TX_POWER_MWA_") && (rank == 4 || rank == 5)
    requires room == 7 - rank && Ranked(ps, rank)
    ensures Ranked(Add(ps, value, prefix + Decimal(card), Int32), rank + 1)
  {
    CardNameOnWire(prefix, room, card);
    PerCardRank(prefix, LeadingDigits(card, room), rank);
    AddRanked(ps, value, prefix + Decimal(card), Int32, rank);
  }

  lemma PerCardRank(prefix: string, n: nat, rank: int)
    requires prefix == (if rank == 4 then "TX_POWER_MW_" else "TX_POWER_MWA_") && (rank == 4 || rank == 5)
    ensures Rank(prefix + Decimal(n)) == rank
  {
    var digits := Decimal(n);
    DecimalIsDigits(n);
    assert digits[0] in digits;
    var wire := prefix + digits;
    assert wire[3] == prefix[3];
    assert wire[11] == prefix[11] && wire[12] == if rank == 4 then digits[0] else prefix[12];
  }

  lemma AddTxPower(ps: seq<Param>, value: Option<string>, card: int)
    requires Ranked(ps, 4)
    ensures Ranked(Add(ps, value, TxPowerName(card), Int32), 5)
  {
    if card >= 0 {
      AddPerCard(ps, value, "TX_POWER_MW_", 3, card, 4);
    } else {
      AddIntact(ps, value, "TX_POWER_MW", Int32, 4);
    }
  }

  lemma AddTxPowerArmed(ps: seq<Param>, value: Option<string>, card: int)
    requires Ranked(ps, 5)
    ensures Ranked(Add(ps, value, TxPowerArmedName(card), Int32), 6)
  {
    if card >= 0 {
      AddPerCard(ps, value, "TX_POWER_MWA_", 2, card, 5);
    } else {
      AddIntact(ps, value, "TX_POWER_MW_ARM", Int32, 5);
    }
  }

  /**
    No two parameters of one command are taken for each other, whatever the card index and however much of
    a name is cut off.
   */
  lemma LinkNamesStayDistinct(opts: map<LinkOption, Value>, j: nat, k: nat)
    requires j < k < |LinkParams(opts)|
    ensures WireName(LinkParams(opts)[j].name) != WireName(LinkParams(opts)[k].name)
  {
    var ps := LinkParams(opts);
    LinkRanked(opts);
    RankedDiffer(ps, 7, j, k);
  }

  lemma RankedDiffer(ps: seq<Param>, bound: int, j: nat, k: nat)
    requires Ranked(ps, bound) && j < k < |ps|
    ensures WireName(ps[j].name) != WireName(ps[k].name)
  {
  }

  lemma AddFrequency(ps: seq<Param>, value: Option<string>)
    requires Ranked(ps, 1)
    ensures Ranked(Add(ps, value, "WB_FREQUENCY", Real32), 2)
  {
    AddIntact(ps, value, "WB_FREQUENCY", Real32, 1);
  }

  lemma AddBandwidth(ps: seq<Param>, value: Option<string>)
    requires Ranked(ps, 2)
    ensures Ranked(Add(ps, value, "WB_CHANNEL_W", Real32), 3)
  {
    AddIntact(ps, value, "WB_CHANNEL_W", Real32, 2);
  }

  lemma AddMcs(ps: seq<Param>, value: Option<string>)
    requires Ranked(ps, 3)
    ensures Ranked(Add(ps, value, "WB_MCS_INDEX", Int32), 4)
  {
    AddIntact(ps, value, "WB_MCS_INDEX", Int32, 3);
  }

  lemma AddRedundantTx(ps: seq<Param>, value: Option<string>)
    requires Ranked(ps, 6)
    ensures Ranked(Add(ps, value, "WB_RED_TX", Int32), 7)
  {
    AddIntact(ps, value, "WB_RED_TX", Int32, 6);
  }

  lemma LinkRanked(opts: map<LinkOption, Value>)
    ensures Ranked(LinkParams(opts), 7)
  {
    var card := CardIndex(opts);
    var p1 := Add([], TextOf(opts, Frequency), "WB_FREQUENCY", Real32);
    var p2 := Add(p1, TextOf(opts, Bandwidth), "WB_CHANNEL_W", Real32);
    var p3 := Add(p2, TextOf(opts, Mcs), "WB_MCS_INDEX", Int32);
    var p4 := Add(p3, TextOf(opts, TxPower), TxPowerName(card), Int32);
    var p5 := Add(p4, TextOf(opts, TxPowerArmed), TxPowerArmedName(card), Int32);
    AddFrequency([], TextOf(opts, Frequency));
    AddBandwidth(p1, TextOf(opts, Bandwidth));
    AddMcs(p2, TextOf(opts, Mcs));
    AddTxPower(p3, TextOf(opts, TxPower), card);
    AddTxPowerArmed(p4, TextOf(opts, TxPowerArmed), card);
    AddRedundantTx(p5, TextOf(opts, RedundantTx));
  }

  // ------------------------------------------------------------------ from any argument vector to the parameters

  /** With a card, the two powers go to parameters of that card. */
  function LinkWires(card: int): seq<Wire> {
    [Wire("--frequency", Plain, "WB_FREQUENCY", Real32),
     Wire("--bandwidth", Plain, "WB_CHANNEL_W", Real32),
     Wire("--mcs", Plain, "WB_MCS_INDEX", Int32),
     Wire("--tx-power", Plain, if card < 0 then "TX_POWER_MW" else "TX_POWER_MW_" + Decimal(card), Int32),
     Wire("--tx-power-armed", Plain, if card < 0 then "TX_POWER_MW_ARM" else "TX_POWER_MWA_" + Decimal(card), Int32),
     Wire("--redundant-tx", Switch, "WB_RED_TX", Int32)]
  }

  ghost function LinkSaid(settings: seq<Setting<LinkOption>>): string -> Option<string> {
    flag => Said(LinkName, settings, flag)
  }

  /** The card that is said, or -1. */
  function SaidCard(card: Option<string>): int {
    if card.Some? && StoI(card.value).Some? then StoI(card.value).value else -1
  }

  lemma LinkCarries(settings: seq<Setting<LinkOption>>, opts: map<LinkOption, Value>, k: LinkOption, w: Wire)
    requires Applied(LinkKind, settings, map[]) == Done(opts)
    requires LinkName(k) == w.flag && w.meaning == (if LinkKind(k) == OnOff then Switch else Plain)
    requires LinkKind(k) == OnOff || LinkKind(k) == Text
    ensures TextOf(opts, k) == Carried(w, LinkSaid(settings)(w.flag))
  {
    LinkNamed();
    TextIsCarried(LinkTable(), LinkName, LinkKind, settings, opts, k, w);
  }

  lemma CardIsSaid(settings: seq<Setting<LinkOption>>, opts: map<LinkOption, Value>)
    requires Applied(LinkKind, settings, map[]) == Done(opts)
    ensures CardIndex(opts) == SaidCard(LinkSaid(settings)("--card"))
  {
    LinkNamed();
    SaidIsRead(LinkTable(), LinkName, LinkKind, settings, opts, Card);
    if Card in opts {
      ReadIs(LinkSaid(settings)("--card").value);
    }
  }

  lemma LinkTexts(settings: seq<Setting<LinkOption>>, opts: map<LinkOption, Value>, card: int)
    requires Applied(LinkKind, settings, map[]) == Done(opts)
    ensures var said, w := LinkSaid(settings), LinkWires(card);
      && TextOf(opts, Frequency) == Carried(w[0], said("--frequency"))
      && TextOf(opts, Bandwidth) == Carried(w[1], said("--bandwidth"))
      && TextOf(opts, Mcs) == Carried(w[2], said("--mcs"))
      && TextOf(opts, TxPower) == Carried(w[3], said("--tx-power"))
      && TextOf(opts, TxPowerArmed) == Carried(w[4], said("--tx-power-armed"))
      && TextOf(opts, RedundantTx) == Carried(w[5], said("--redundant-tx"))
  {
    var w := LinkWires(card);
    LinkCarries(settings, opts, Frequency, w[0]);
    LinkCarries(settings, opts, Bandwidth, w[1]);
    LinkCarries(settings, opts, Mcs, w[2]);
    LinkCarries(settings, opts, TxPower, w[3]);
    LinkCarries(settings, opts, TxPowerArmed, w[4]);
    LinkCarries(settings, opts, RedundantTx, w[5]);
  }

  lemma FirstLinkParamsAreWired(settings: seq<Setting<LinkOption>>, opts: map<LinkOption, Value>, card: int)
    returns (ps: seq<Param>)
    requires Applied(LinkKind, settings, map[]) == Done(opts)
    ensures ps == Wired(LinkWires(card)[..3], LinkSaid(settings))
    ensures var p1 := Add([], TextOf(opts, Frequency), "WB_FREQUENCY", Real32);
      var p2 := Add(p1, TextOf(opts, Bandwidth), "WB_CHANNEL_W", Real32);
      ps == Add(p2, TextOf(opts, Mcs), "WB_MCS_INDEX", Int32)
  {
    var said, w := LinkSaid(settings), LinkWires(card);
    LinkTexts(settings, opts, card);
    assert w[..0] == [];
    WiredPrefix(w, said, 0);
    WiredPrefix(w, said, 1);
    WiredPrefix(w, said, 2);
    ps := Wired(w[..3], said);
  }

  lemma LinkParamsAreWired(settings: seq<Setting<LinkOption>>, opts: map<LinkOption, Value>)
    requires Applied(LinkKind, settings, map[]) == Done(opts)
    ensures LinkParams(opts) == Wired(LinkWires(SaidCard(LinkSaid(settings)("--card"))), LinkSaid(settings))
  {
    CardIsSaid(settings, opts);
    var said, card := LinkSaid(settings), CardIndex(opts);
    var w := LinkWires(card);
    var p3 := FirstLinkParamsAreWired(settings, opts, card);
    LinkTexts(settings, opts, card);
    WiredPrefix(w, said, 3);
    WiredPrefix(w, said, 4);
    WiredPrefix(w, said, 5);
    assert w[..6] == w;
  }

  /** The argument behind the option cannot be read: a switch neither on nor off, or a card that is no number. */
  ghost predicate BadLinkSetting(s: Setting<LinkOption>, status: Status) {
    || (LinkName(s.key) == "--redundant-tx" && s.arg !in ON_WORDS && s.arg !in OFF_WORDS && status == ReturnOne)
    || (LinkName(s.key) == "--card" && StoI(s.arg).None? && status == Terminated)
  }

  lemma BadLinkSettingIs(s: Setting<LinkOption>, status: Status)
    ensures Read(LinkKind(s.key), s.arg) == Exit(status) <==> BadLinkSetting(s, status)
  {
    ReadIs(s.arg);
    match s.key
    case Card =>
    case RedundantTx =>
    case LinkAirOnly =>
    case _ =>
  }

  lemma LinkFailsIff(settings: seq<Setting<LinkOption>>)
    ensures Applied(LinkKind, settings, map[]).Exit? <==> exists s, status :: s in settings && BadLinkSetting(s, status)
    ensures var r := Applied(LinkKind, settings, map[]);
      r.Exit? ==> exists s :: s in settings && BadLinkSetting(s, r.status)
  {
    FailsIff(LinkKind, settings, map[]);
    var r := Applied(LinkKind, settings, map[]);
    if r.Exit? {
      var s :| s in settings && Read(LinkKind(s.key), s.arg) == Exit(r.status);
      BadLinkSettingIs(s, r.status);
    }
    if s, status :| s in settings && BadLinkSetting(s, status) {
      BadLinkSettingIs(s, status);
      assert Read(LinkKind(s.key), s.arg).Exit?;
    }
  }

  lemma LinkNothingElse()
    ensures NothingElse(LinkTable(), LinkName)
  {
  }

  lemma LinkTargetsAreSaid(settings: seq<Setting<LinkOption>>, opts: map<LinkOption, Value>)
    requires Applied(LinkKind, settings, map[]) == Done(opts)
    ensures DefaultLinkTargets(LinkAirOnly !in opts) ==
            if LinkSaid(settings)("--air-only").Some? then [Target(101, 191)] else [Target(101, 191), Target(100, 191)]
  {
    LinkNamed();
    SaidIsRead(LinkTable(), LinkName, LinkKind, settings, opts, LinkAirOnly);
    TargetsAre("");
  }

  /** Every argument vector of set-link, by its words alone. */
  lemma LinkVector(args: seq<string>) returns (items: seq<Item<LinkOption>>, tail: seq<string>)
    ensures Reads(LinkTable(), items, tail) && args == PrintItems(LinkName, LinkKind, items) + tail
    ensures var settings, r := SettingsIn(items), ParseFrom(LinkTable(), ["set-link"] + args, 1, map[]);
      var said := LinkSaid(settings);
      && (r.Exit? <==> exists s, status :: s in settings && BadLinkSetting(s, status))
      && (r.Exit? ==> exists s :: s in settings && BadLinkSetting(s, r.status))
      && (r.Done? ==>
            && DefaultLinkTargets(LinkAirOnly !in r.value) ==
               (if said("--air-only").Some? then [Target(101, 191)] else [Target(101, 191), Target(100, 191)])
            && LinkParams(r.value) == Wired(LinkWires(SaidCard(said("--card"))), said))
  {
    LinkNamed();
    LinkNothingElse();
    items, tail := EveryVectorIsItems(LinkTable(), LinkName, LinkKind, args);
    var settings := SettingsIn(items);
    ItemsAreReadBack(LinkTable(), LinkName, LinkKind, ["set-link"], items, tail, map[]);
    assert ["set-link"] + args == ["set-link"] + PrintItems(LinkName, LinkKind, items) + tail;
    LinkFailsIff(settings);
    var r := Applied(LinkKind, settings, map[]);
    if r.Done? {
      LinkParamsAreWired(settings, r.value);
      LinkTargetsAreSaid(settings, r.value);
    }
  }

  /** Each message attempted, by the words of the vector. */
  lemma LinkMessages(args: seq<string>, m: Message) returns (items: seq<Item<LinkOption>>, tail: seq<string>)
    ensures Reads(LinkTable(), items, tail) && args == PrintItems(LinkName, LinkKind, items) + tail
    ensures var said, r := LinkSaid(SettingsIn(items)), ParseFrom(LinkTable(), ["set-link"] + args, 1, map[]);
      r.Done? ==>
        (m in LinkPlan(r.value) <==>
         exists t, w, v :: t in DefaultLinkTargets(LinkAirOnly !in r.value) &&
                           Sends(LinkWires(SaidCard(said("--card"))), said, t, w, v, m))
  {
    items, tail := LinkVector(args);
    var said, r := LinkSaid(SettingsIn(items)), ParseFrom(LinkTable(), ["set-link"] + args, 1, map[]);
    if r.Done? {
      AttemptedIff(DefaultLinkTargets(LinkAirOnly !in r.value), EveryTarget(r.value),
                   (_: Target) => LinkWires(SaidCard(said("--card"))), said, m);
    }
  }
}
