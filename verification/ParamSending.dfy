/** What the commands of integration/openhd_mavlink_tool.cpp share: targets, messages, and the sending of them. */
module ParamSending {
  import opened Prelude
  import opened Decimals
  import opened ParamEncoding
  import opened OptionParsing

  datatype Target = Target(system: nat, component: nat)

  const ONBOARD_COMPUTER := 191
  const AIR := Target(101, ONBOARD_COMPUTER)
  const GROUND := Target(100, ONBOARD_COMPUTER)

  datatype ParamType = Custom | Real32 | Int32

  datatype Param = Param(name: string, value: string, type_: ParamType)

  /** PARAM_EXT_SET as it leaves the tool. */
  datatype Message = Message(target: Target, paramId: string, paramValue: string, type_: ParamType)

  ghost function Build(target: Target, p: Param): Message {
    Message(target, Encoded(p.name, ID_SIZE), Encoded(p.value, VALUE_SIZE), p.type_)
  }

  function DefaultLinkTargets(mirrorGround: bool): seq<Target> {
    if mirrorGround then [AIR, GROUND] else [AIR]
  }

  function ParseTarget(name: string): Option<Target> {
    if name == "air" then Some(AIR) else if name == "ground" then Some(GROUND) else None
  }

  /** An option that holds a string. */
  function TextOf<K>(opts: map<K, Value>, k: K): Option<string> {
    if k in opts && opts[k].Str? then Some(opts[k].s) else None
  }

  // ------------------------------------------------------------------ sending

  /** The socket: every attempt is recorded, and attempt number `n` gets through or not. */
  class MavlinkSender {
    var attempts: seq<Message>
    const delivered: nat -> bool

    constructor (delivered: nat -> bool)
      ensures attempts == [] && this.delivered == delivered
    {
      attempts := [];
      this.delivered := delivered;
    }

    method Send(msg: Message) returns (ok: bool)
      modifies this
      ensures attempts == old(attempts) + [msg] && ok == delivered(|old(attempts)|)
    {
      ok := delivered(|attempts|);
      attempts := attempts + [msg];
    }
  }

  method SendParamSet(sender: MavlinkSender, target: Target, p: Param) returns (ok: bool)
    modifies sender
    ensures sender.attempts == old(sender.attempts) + [Build(target, p)]
    ensures ok == sender.delivered(|old(sender.attempts)|)
  {
    var id := EncodeField(p.name, ID_SIZE);
    var value := EncodeField(p.value, VALUE_SIZE);
    ok := sender.Send(Message(target, id[..], value[..], p.type_));
  }

  ghost predicate AllDelivered(delivered: nat -> bool, from: nat, to: nat) {
    forall k | from <= k < to :: delivered(k)
  }

  /** A parameter for every option present, in order. */
  function Add(ps: seq<Param>, value: Option<string>, name: string, type_: ParamType): seq<Param> {
    if value.Some? then ps + [Param(name, value.value, type_)] else ps
  }

  lemma AddedIff(ps: seq<Param>, value: Option<string>, name: string, type_: ParamType, p: Param)
    ensures p in Add(ps, value, name, type_) <==> p in ps || (p.name == name && p.type_ == type_ && value == Some(p.value))
  {
  }

  ghost function Messages(target: Target, ps: seq<Param>): (ms: seq<Message>)
    ensures |ms| == |ps| && forall k | 0 <= k < |ps| :: ms[k] == Build(target, ps[k])
  {
    seq(|ps|, k requires 0 <= k < |ps| => Build(target, ps[k]))
  }

  /** Since handling began, exactly `plan` and then `ps` for `target` was attempted; `success` says if all of it got through. */
  ghost predicate Progress(sender: MavlinkSender, start: seq<Message>, plan: seq<Message>, target: Target,
                           ps: seq<Param>, success: bool)
    reads sender
  {
    && sender.attempts == start + plan + Messages(target, ps)
    && (success <==> AllDelivered(sender.delivered, |start|, |sender.attempts|))
  }

  /** `if (value) success &= send_param_set(...)`: a failure never suppresses a later attempt. */
  method SendIf(sender: MavlinkSender, target: Target, value: Option<string>, name: string, type_: ParamType,
                success: bool, ghost start: seq<Message>, ghost plan: seq<Message>, ghost ps: seq<Param>)
    returns (success': bool)
    requires Progress(sender, start, plan, target, ps, success)
    modifies sender
    ensures Progress(sender, start, plan, target, Add(ps, value, name, type_), success')
  {
    success' := success;
    if value.Some? {
      var ok := SendParamSet(sender, target, Param(name, value.value, type_));
      success' := success' && ok;
      assert Messages(target, Add(ps, value, name, type_)) == Messages(target, ps) + [Build(target, Param(name, value.value, type_))];
    }
  }

  /** For each target in turn, its parameters in order. */
  ghost function Plan(targets: seq<Target>, params: Target -> seq<Param>): seq<Message> {
    if targets == [] then []
    else
      var last := targets[|targets| - 1];
      Plan(targets[..|targets| - 1], params) + Messages(last, params(last))
  }

  lemma PlanGrows(start: seq<Message>, targets: seq<Target>, params: Target -> seq<Param>, n: nat,
                  attempts: seq<Message>)
    requires n < |targets|
    requires attempts == start + Plan(targets[..n], params) + Messages(targets[n], params(targets[n]))
    ensures attempts == start + Plan(targets[..n + 1], params)
  {
    assert targets[..n + 1][..n] == targets[..n];
  }

  /** Nothing but a present option of a target is sent, and every one is. */
  lemma {:induction false} PlanHolds(targets: seq<Target>, params: Target -> seq<Param>, m: Message)
    ensures m in Plan(targets, params) <==> exists t, k ::
              t in targets && 0 <= k < |params(t)| && m == Build(t, params(t)[k])
  {
    if targets != [] {
      var rest, last := targets[..|targets| - 1], targets[|targets| - 1];
      PlanHolds(rest, params, m);
      assert forall t :: t in targets <==> t in rest || t == last;
      if m in Messages(last, params(last)) {
        var k :| 0 <= k < |params(last)| && Messages(last, params(last))[k] == m;
        assert last in targets && m == Build(last, params(last)[k]);
      }
      if m in Plan(rest, params) {
        var t, k :| t in rest && 0 <= k < |params(t)| && m == Build(t, params(t)[k]);
        assert t in targets;
      }
      if t, k :| t in targets && 0 <= k < |params(t)| && m == Build(t, params(t)[k]) {
        if t == last {
          assert Messages(last, params(last))[k] == m;
        }
      }
    }
  }

  /** Target number `i` gets its parameters as one block, behind those of the targets before it. */
  lemma {:induction false} PlanInOrder(targets: seq<Target>, params: Target -> seq<Param>, i: nat)
    requires i < |targets|
    ensures var from := |Plan(targets[..i], params)|;
      && from + |params(targets[i])| <= |Plan(targets, params)|
      && Plan(targets, params)[from..from + |params(targets[i])|] == Messages(targets[i], params(targets[i]))
  {
    var rest := targets[..|targets| - 1];
    if i < |rest| {
      assert rest[..i] == targets[..i];
      PlanInOrder(rest, params, i);
    }
  }

  // ------------------------------------------------------------------ which option goes into which parameter

  /** How an argument is put into a parameter: as it is, as a switch, or as the number of one of three words. */
  datatype Meaning = Plain | Switch | OneOf(zero: string, one: string, two: string)

  function Meant(meaning: Meaning, arg: string): Option<string> {
    match meaning
    case Plain => Some(arg)
    case Switch => if arg in ON_WORDS then Some("1") else if arg in OFF_WORDS then Some("0") else None
    case OneOf(zero, one, two) =>
      if arg == zero then Some("0") else if arg == one then Some("1") else if arg == two then Some("2") else None
  }

  /** An option by its spelling, and the parameter it is sent as. */
  datatype Wire = Wire(flag: string, meaning: Meaning, param: string, type_: ParamType)

  /** What a wire carries, given what is said for each option. */
  function Carried(w: Wire, said: Option<string>): Option<string> {
    if said.None? then None else Meant(w.meaning, said.value)
  }

  /** The parameters a list of wires makes of what is said, in the order of the wires. */
  ghost function Wired(wires: seq<Wire>, said: string -> Option<string>): seq<Param> {
    if wires == [] then []
    else
      var w := wires[|wires| - 1];
      Add(Wired(wires[..|wires| - 1], said), Carried(w, said(w.flag)), w.param, w.type_)
  }

  lemma WiredPrefix(wires: seq<Wire>, said: string -> Option<string>, n: nat)
    requires n < |wires|
    ensures Wired(wires[..n + 1], said) ==
            Add(Wired(wires[..n], said), Carried(wires[n], said(wires[n].flag)), wires[n].param, wires[n].type_)
  {
    assert wires[..n + 1][..n] == wires[..n];
  }

  /** A parameter is among them exactly if its wire carries its value. */
  lemma {:induction false} WiredIff(wires: seq<Wire>, said: string -> Option<string>, p: Param)
    ensures p in Wired(wires, said) <==>
            exists w <- wires :: w.param == p.name && w.type_ == p.type_ && Carried(w, said(w.flag)) == Some(p.value)
  {
    if wires != [] {
      var init, last := wires[..|wires| - 1], wires[|wires| - 1];
      WiredIff(init, said, p);
      assert forall w :: w in wires <==> w in init || w == last;
      if p in Wired(init, said) {
        var w :| w in init && w.param == p.name && w.type_ == p.type_ && Carried(w, said(w.flag)) == Some(p.value);
        assert w in wires;
      }
    }
  }

  /** Message `m` is what wire `w` makes of value `v` for target `t`. */
  ghost predicate Sends(wires: seq<Wire>, said: string -> Option<string>, t: Target, w: Wire, v: string, m: Message) {
    w in wires && Carried(w, said(w.flag)) == Some(v) && m == Build(t, Param(w.param, v, w.type_))
  }

  lemma SendsIff(wires: seq<Wire>, said: string -> Option<string>, t: Target, m: Message)
    ensures (exists p :: p in Wired(wires, said) && m == Build(t, p)) <==> exists w, v :: Sends(wires, said, t, w, v, m)
  {
    if p :| p in Wired(wires, said) && m == Build(t, p) {
      WiredIff(wires, said, p);
      var w :| w in wires && w.param == p.name && w.type_ == p.type_ && Carried(w, said(w.flag)) == Some(p.value);
      assert Sends(wires, said, t, w, p.value, m);
    }
    if w, v :| Sends(wires, said, t, w, v, m) {
      WiredIff(wires, said, Param(w.param, v, w.type_));
    }
  }

  lemma PlanHoldsParam(targets: seq<Target>, params: Target -> seq<Param>, m: Message)
    ensures m in Plan(targets, params) <==> exists t, p :: t in targets && p in params(t) && m == Build(t, p)
  {
    PlanHolds(targets, params, m);
    if t, p :| t in targets && p in params(t) && m == Build(t, p) {
      var k :| 0 <= k < |params(t)| && params(t)[k] == p;
    }
    if t, k :| t in targets && 0 <= k < |params(t)| && m == Build(t, params(t)[k]) {
      assert params(t)[k] in params(t);
    }
  }

  /** Exactly these messages are attempted: what each wire of each target makes of what is said for it. */
  lemma AttemptedIff(targets: seq<Target>, params: Target -> seq<Param>, wires: Target -> seq<Wire>,
                     said: string -> Option<string>, m: Message)
    requires forall t: Target :: params(t) == Wired(wires(t), said)
    ensures m in Plan(targets, params) <==> exists t, w, v :: t in targets && Sends(wires(t), said, t, w, v, m)
  {
    PlanHoldsParam(targets, params, m);
    if t, p :| t in targets && p in params(t) && m == Build(t, p) {
      SendsIff(wires(t), said, t, m);
    }
    if t, w, v :| t in targets && Sends(wires(t), said, t, w, v, m) {
      SendsIff(wires(t), said, t, m);
    }
  }

  /** The string an option holds is the one its wire carries. */
  lemma TextIsCarried<K(!new)>(table: Table<K>, name: K -> string, kind: K -> Kind, settings: seq<Setting<K>>,
                               opts: map<K, Value>, k: K, w: Wire)
    requires Named(table, name, kind) && Applied(kind, settings, map[]) == Done(opts)
    requires name(k) == w.flag && w.meaning == (if kind(k) == OnOff then Switch else Plain)
    requires kind(k) == OnOff || kind(k) == Text
    ensures TextOf(opts, k) == Carried(w, Said(name, settings, w.flag))
  {
    SaidIsRead(table, name, kind, settings, opts, k);
    if k in opts {
      ReadIs(Said(name, settings, w.flag).value);
    }
  }

  /** What the receiver reads: at most 15 characters of the name and 127 of the value, each before its first NUL. */
  lemma BuiltIsRead(target: Target, p: Param)
    ensures var m := Build(target, p);
      && m.target == target && m.type_ == p.type_ && |m.paramId| == 16 && |m.paramValue| == 128
      && Decoded(m.paramId) == FirstOf(CString(p.name), 15) && Decoded(m.paramValue) == FirstOf(CString(p.value), 127)
  {
    DecodedOfEncoded(p.name, ID_SIZE);
    DecodedOfEncoded(p.value, VALUE_SIZE);
  }

  /** Air is system 101, ground 100, both at component 191; the default is air, then ground unless told otherwise. */
  lemma TargetsAre(name: string)
    ensures DefaultLinkTargets(true) == [Target(101, 191), Target(100, 191)]
    ensures DefaultLinkTargets(false) == [Target(101, 191)]
    ensures ParseTarget(name) == if name == "air" then Some(Target(101, 191))
                                 else if name == "ground" then Some(Target(100, 191)) else None
  {
  }
}
