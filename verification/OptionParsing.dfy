/**
  The option loops of `handle_set_link`, `handle_set_uart` and `handle_set_wifi`.  The three loops differ
  only in the options they know, so they are one loop over a table; the optional locals they fill are one
  map from option to value.
 */
module OptionParsing {
  import opened Prelude
  import opened Decimals

  /** What an option takes: a string, on/off, a number, or nothing. */
  datatype Kind = Text | OnOff | Number | Bare

  datatype Value = Str(s: string) | Num(n: int) | Set

  const ON_WORDS: seq<string> := ["on", "enable", "1", "yes", "true"]
  const OFF_WORDS: seq<string> := ["off", "disable", "0", "no", "false"]

  /** `parse_bool_flag`. */
  function ParseBoolFlag(value: string): (flag: Option<string>)
    ensures flag == Some("1") <==> value in ON_WORDS
    ensures flag == Some("0") <==> value in OFF_WORDS
    ensures flag.None? <==> value !in ON_WORDS && value !in OFF_WORDS
  {
    if value == "on" || value == "enable" || value == "1" || value == "yes" || value == "true" then Some("1")
    else if value == "off" || value == "disable" || value == "0" || value == "no" || value == "false" then Some("0")
    else None
  }

  /** Reads the argument behind an option: a bad on/off value returns 1, a bad number throws. */
  function Read(kind: Kind, arg: string): Outcome<Value> {
    match kind
    case Text => Done(Str(arg))
    case OnOff =>
      var flag := ParseBoolFlag(arg);
      if flag.Some? then Done(Str(flag.value)) else Exit(ReturnOne)
    case Number =>
      var n := StoI(arg);
      if n.Some? then Done(Num(n.value)) else Exit(Terminated)
    case Bare => Done(Set)
  }

  /** The options of one command, by name. */
  type Table<!K> = string -> Option<(K, Kind)>

  /** The loop from index `i` on, with `opts` filled so far. */
  function ParseFrom<K>(table: Table<K>, argv: seq<string>, i: nat, opts: map<K, Value>): Outcome<map<K, Value>>
    decreases |argv| - i
  {
    if i >= |argv| then Done(opts)
    else
      var known := table(argv[i]);
      if known.None? then ParseFrom(table, argv, i + 1, opts)
      else
        var (k, kind) := known.value;
        if kind == Bare then ParseFrom(table, argv, i + 1, opts[k := Set])
        else if i + 1 < |argv| then
          var v := Read(kind, argv[i + 1]);
          if v.Exit? then Exit(v.status) else ParseFrom(table, argv, i + 2, opts[k := v.value])
        else ParseFrom(table, argv, i + 1, opts)
  }

  /** `for (int i = 1; i < argc; ++i)` over the arguments behind the command word. */
  method ParseOptions<K(==)>(table: Table<K>, argv: seq<string>) returns (r: Outcome<map<K, Value>>)
    ensures r == ParseFrom(table, argv, 1, map[])
  {
    var opts: map<K, Value> := map[];
    var i := 1;
    while i < |argv|
      invariant i >= 1 && ParseFrom(table, argv, i, opts) == ParseFrom(table, argv, 1, map[])
    {
      var arg := argv[i];
      var known := table(arg);
      if known.Some? {
        var (k, kind) := known.value;
        if kind == Bare {
          opts := opts[k := Set];
        } else if i + 1 < |argv| {
          i := i + 1;
          var v := Read(kind, argv[i]);
          if v.Exit? {
            return Exit(v.status);
          }
          opts := opts[k := v.value];
        }
      }
      i := i + 1;
    }
    return Done(opts);
  }

  // ------------------------------------------------------------------ printing and reading back

  /** One option with the argument behind it, if it takes one. */
  datatype Setting<K> = Setting(key: K, arg: string)

  /** The table names exactly these options. */
  ghost predicate Named<K(!new)>(table: Table<K>, name: K -> string, kind: K -> Kind) {
    forall k: K :: table(name(k)) == Some((k, kind(k)))
  }

  function PrintOne<K>(name: K -> string, kind: K -> Kind, s: Setting<K>): seq<string> {
    if kind(s.key) == Bare then [name(s.key)] else [name(s.key), s.arg]
  }

  function Print<K>(name: K -> string, kind: K -> Kind, settings: seq<Setting<K>>): seq<string> {
    if settings == [] then []
    else PrintOne(name, kind, settings[0]) + Print(name, kind, settings[1..])
  }

  /** What the settings mean: each in turn, a later one for the same option replacing an earlier one. */
  function Applied<K>(kind: K -> Kind, settings: seq<Setting<K>>, opts: map<K, Value>): Outcome<map<K, Value>>
    decreases settings
  {
    if settings == [] then Done(opts)
    else
      var v := Read(kind(settings[0].key), settings[0].arg);
      if v.Exit? then Exit(v.status) else Applied(kind, settings[1..], opts[settings[0].key := v.value])
  }

  /** One setting in front of whatever follows. */
  lemma SettingRead<K(!new)>(table: Table<K>, name: K -> string, kind: K -> Kind, before: seq<string>, s: Setting<K>,
                             after: seq<string>, opts: map<K, Value>)
    requires Named(table, name, kind)
    ensures var argv, i := before + PrintOne(name, kind, s) + after, |before + PrintOne(name, kind, s)|;
      var v := Read(kind(s.key), s.arg);
      ParseFrom(table, argv, |before|, opts) ==
      if v.Exit? then Exit(v.status) else ParseFrom(table, argv, i, opts[s.key := v.value])
  {
    var one := PrintOne(name, kind, s);
    var argv := before + one + after;
    assert argv[|before|] == one[0] == name(s.key);
    assert table(name(s.key)) == Some((s.key, kind(s.key)));
    if kind(s.key) != Bare {
      assert argv[|before| + 1] == one[1] == s.arg;
    }
  }

  /**
    Printed settings are read back as what they mean, in any order, with repetitions, whatever the
    arguments look like, and with the same failure at the first bad one.
   */
  lemma {:induction false} PrintedIsReadBack<K(!new)>(table: Table<K>, name: K -> string, kind: K -> Kind,
                                              before: seq<string>, settings: seq<Setting<K>>, opts: map<K, Value>)
    requires Named(table, name, kind)
    ensures ParseFrom(table, before + Print(name, kind, settings), |before|, opts) == Applied(kind, settings, opts)
    decreases settings
  {
    if settings != [] {
      var s, rest := settings[0], settings[1..];
      var one, v := PrintOne(name, kind, s), Read(kind(s.key), s.arg);
      Regrouped(before, one, Print(name, kind, rest), []);
      assert before + Print(name, kind, settings) + [] == before + Print(name, kind, settings);
      assert (before + one) + Print(name, kind, rest) + [] == (before + one) + Print(name, kind, rest);
      SettingRead(table, name, kind, before, s, Print(name, kind, rest), opts);
      if v.Done? {
        PrintedIsReadBack(table, name, kind, before + one, rest, opts[s.key := v.value]);
      }
    }
  }

  // ------------------------------------------------------------------ any argument vector

  /** What stands in a vector: a setting, or a word that is no option. */
  datatype Item<K> = Given(setting: Setting<K>) | Stray(word: string)

  function PrintItem<K>(name: K -> string, kind: K -> Kind, item: Item<K>): seq<string> {
    match item
    case Given(s) => PrintOne(name, kind, s)
    case Stray(word) => [word]
  }

  function PrintItems<K>(name: K -> string, kind: K -> Kind, items: seq<Item<K>>): seq<string> {
    if items == [] then [] else PrintItem(name, kind, items[0]) + PrintItems(name, kind, items[1..])
  }

  function SettingsIn<K>(items: seq<Item<K>>): seq<Setting<K>> {
    if items == [] then []
    else (if items[0].Given? then [items[0].setting] else []) + SettingsIn(items[1..])
  }

  /** The strays are no options, and at most one option that takes an argument stands at the end without one. */
  ghost predicate Reads<K>(table: Table<K>, items: seq<Item<K>>, tail: seq<string>) {
    && (forall item <- items :: item.Stray? ==> table(item.word).None?)
    && (tail == [] || (|tail| == 1 && table(tail[0]).Some? && table(tail[0]).value.1 != Bare))
  }

  lemma StrayRead<K>(table: Table<K>, before: seq<string>, word: string, after: seq<string>, opts: map<K, Value>)
    requires table(word).None?
    ensures ParseFrom(table, before + [word] + after, |before|, opts) ==
            ParseFrom(table, before + [word] + after, |before + [word]|, opts)
  {
    assert (before + [word] + after)[|before|] == word;
  }

  lemma TailRead<K>(table: Table<K>, before: seq<string>, tail: seq<string>, opts: map<K, Value>)
    requires Reads(table, [], tail)
    ensures ParseFrom(table, before + tail, |before|, opts) == Done(opts)
  {
    if tail != [] {
      assert (before + tail)[|before|] == tail[0];
    }
  }

  lemma ItemsSplit<K>(name: K -> string, kind: K -> Kind, before: seq<string>, items: seq<Item<K>>, tail: seq<string>)
    ensures items == [] ==> before + PrintItems(name, kind, items) + tail == before + tail
    ensures items != [] ==>
              var one, after := PrintItem(name, kind, items[0]), PrintItems(name, kind, items[1..]);
              && before + PrintItems(name, kind, items) + tail == before + one + (after + tail)
              && before + PrintItems(name, kind, items) + tail == (before + one) + after + tail
  {
    if items == [] {
      assert before + [] == before;
    } else {
      Regrouped(before, PrintItem(name, kind, items[0]), PrintItems(name, kind, items[1..]), tail);
    }
  }

  lemma Regrouped<A>(a: seq<A>, b: seq<A>, c: seq<A>, d: seq<A>)
    ensures a + (b + c) + d == a + b + (c + d)
    ensures a + (b + c) + d == (a + b) + c + d
  {
  }

  /** Words that are no options are skipped, and so is an option that takes an argument but has none behind it. */
  lemma {:induction false} ItemsAreReadBack<K(!new)>(table: Table<K>, name: K -> string, kind: K -> Kind, before: seq<string>,
                                              items: seq<Item<K>>, tail: seq<string>, opts: map<K, Value>)
    requires Named(table, name, kind) && Reads(table, items, tail)
    ensures ParseFrom(table, before + PrintItems(name, kind, items) + tail, |before|, opts) ==
            Applied(kind, SettingsIn(items), opts)
    decreases items
  {
    ItemsSplit(name, kind, before, items, tail);
    if items == [] {
      TailRead(table, before, tail, opts);
    } else {
      var one, rest := PrintItem(name, kind, items[0]), items[1..];
      var after := PrintItems(name, kind, rest) + tail;
      assert items[0] in items && forall item <- rest :: item in items;
      match items[0]
      case Stray(word) =>
        assert SettingsIn(items) == SettingsIn(rest);
        StrayRead(table, before, word, after, opts);
        ItemsAreReadBack(table, name, kind, before + one, rest, tail, opts);
      case Given(s) =>
        var v := Read(kind(s.key), s.arg);
        AppliedNext(kind, s, SettingsIn(rest), opts);
        SettingRead(table, name, kind, before, s, after, opts);
        if v.Done? {
          ItemsAreReadBack(table, name, kind, before + one, rest, tail, opts[s.key := v.value]);
        }
    }
  }

  lemma AppliedNext<K>(kind: K -> Kind, s: Setting<K>, rest: seq<Setting<K>>, opts: map<K, Value>)
    ensures Applied(kind, [s] + rest, opts) ==
            var v := Read(kind(s.key), s.arg);
            if v.Exit? then Exit(v.status) else Applied(kind, rest, opts[s.key := v.value])
  {
    assert ([s] + rest)[1..] == rest;
  }

  /** The table knows no other words. */
  ghost predicate NothingElse<K>(table: Table<K>, name: K -> string) {
    forall word: string :: table(word).Some? ==> word == name(table(word).value.0)
  }

  /** And that is every argument vector. */
  lemma {:induction false} EveryVectorIsItems<K(!new)>(table: Table<K>, name: K -> string, kind: K -> Kind, args: seq<string>)
    returns (items: seq<Item<K>>, tail: seq<string>)
    requires Named(table, name, kind) && NothingElse(table, name)
    ensures Reads(table, items, tail) && args == PrintItems(name, kind, items) + tail
    decreases |args|
  {
    items, tail := [], [];
    if args != [] {
      var known := table(args[0]);
      if known.None? {
        items, tail := EveryVectorIsItems(table, name, kind, args[1..]);
        items := [Stray(args[0])] + items;
        ItemsNext(table, name, kind, items[0], items[1..], tail);
      } else {
        var k := known.value.0;
        assert args[0] == name(k) && known.value.1 == kind(k);
        if kind(k) == Bare {
          items, tail := EveryVectorIsItems(table, name, kind, args[1..]);
          items := [Given(Setting(k, ""))] + items;
          ItemsNext(table, name, kind, items[0], items[1..], tail);
        } else if |args| == 1 {
          tail := args;
        } else {
          items, tail := EveryVectorIsItems(table, name, kind, args[2..]);
          items := [Given(Setting(k, args[1]))] + items;
          ItemsNext(table, name, kind, items[0], items[1..], tail);
        }
      }
    }
  }

  lemma ItemsNext<K>(table: Table<K>, name: K -> string, kind: K -> Kind, item: Item<K>, items: seq<Item<K>>,
                     tail: seq<string>)
    requires Reads(table, items, tail) && (item.Stray? ==> table(item.word).None?)
    ensures Reads(table, [item] + items, tail)
    ensures PrintItems(name, kind, [item] + items) + tail == PrintItem(name, kind, item) + (PrintItems(name, kind, items) + tail)
  {
    assert ([item] + items)[1..] == items;
  }

  /** Setting number `n` is the first that cannot be read. */
  ghost predicate FailsAt<K>(kind: K -> Kind, settings: seq<Setting<K>>, n: nat, status: Status) {
    && n < |settings|
    && Read(kind(settings[n].key), settings[n].arg) == Exit(status)
    && forall j | 0 <= j < n :: Read(kind(settings[j].key), settings[j].arg).Done?
  }

  /** Reading fails at the first setting that cannot be read, with its failure. */
  lemma {:induction false} AppliedFailsIff<K>(kind: K -> Kind, settings: seq<Setting<K>>, opts: map<K, Value>, status: Status)
    ensures Applied(kind, settings, opts) == Exit(status) <==> exists n: nat :: FailsAt(kind, settings, n, status)
    decreases settings
  {
    if settings != [] {
      var v, rest := Read(kind(settings[0].key), settings[0].arg), settings[1..];
      if v.Done? {
        var opts' := opts[settings[0].key := v.value];
        AppliedFailsIff(kind, rest, opts', status);
        if Applied(kind, rest, opts') == Exit(status) {
          var n: nat :| FailsAt(kind, rest, n, status);
          assert forall j | 0 < j <= n + 1 :: settings[j] == rest[j - 1];
          assert FailsAt(kind, settings, n + 1, status);
        }
        if n: nat :| FailsAt(kind, settings, n, status) {
          assert forall j | 0 <= j < n :: rest[j] == settings[j + 1];
          assert FailsAt(kind, rest, n - 1, status);
        }
      } else if v.status == status {
        assert FailsAt(kind, settings, 0, status);
      }
    }
  }

  lemma FailsIff<K>(kind: K -> Kind, settings: seq<Setting<K>>, opts: map<K, Value>)
    ensures Applied(kind, settings, opts).Exit? <==> exists s <- settings :: Read(kind(s.key), s.arg).Exit?
    ensures var r := Applied(kind, settings, opts);
      r.Exit? ==> exists s <- settings :: Read(kind(s.key), s.arg) == Exit(r.status)
    decreases settings
  {
    if settings != [] {
      var s, rest := settings[0], settings[1..];
      var v := Read(kind(s.key), s.arg);
      assert s in settings && forall x :: x in settings <==> x == s || x in rest;
      if v.Done? {
        FailsIff(kind, rest, opts[s.key := v.value]);
      }
    }
  }

  /** What the argument of an option may be, and what it is taken for. */
  lemma ReadIs(arg: string)
    ensures Read(Text, arg) == Done(Str(arg)) && Read(Bare, arg) == Done(Set)
    ensures Read(OnOff, arg) == if arg in ON_WORDS then Done(Str("1")) else if arg in OFF_WORDS then Done(Str("0"))
                                else Exit(ReturnOne)
    ensures Read(Number, arg) == if StoI(arg).Some? then Done(Num(StoI(arg).value)) else Exit(Terminated)
  {
  }

  /** The last setting for an option, or -1. */
  function LastFor<K(==)>(settings: seq<Setting<K>>, k: K): (n: int)
    ensures -1 <= n < |settings|
  {
    if settings == [] then -1
    else if settings[|settings| - 1].key == k then |settings| - 1
    else LastFor(settings[..|settings| - 1], k)
  }

  lemma {:induction false} AppliedSplit<K>(kind: K -> Kind, settings: seq<Setting<K>>, opts: map<K, Value>)
    requires settings != []
    ensures var init, last := settings[..|settings| - 1], settings[|settings| - 1];
      Applied(kind, settings, opts) ==
      match Applied(kind, init, opts) {
        case Exit(status) => Exit(status)
        case Done(m) =>
          var v := Read(kind(last.key), last.arg);
          if v.Exit? then Exit(v.status) else Done(m[last.key := v.value])
      }
    decreases settings
  {
    var rest := settings[1..];
    var v := Read(kind(settings[0].key), settings[0].arg);
    if |settings| == 1 {
      assert settings[..0] == [] && rest == [];
    } else if v.Done? {
      assert settings[..|settings| - 1][1..] == rest[..|rest| - 1];
      AppliedSplit(kind, rest, opts[settings[0].key := v.value]);
    }
  }

  /** Repeated options resolve to the last one. */
  lemma {:induction false} LastOneWins<K>(kind: K -> Kind, settings: seq<Setting<K>>, opts: map<K, Value>, k: K)
    requires Applied(kind, settings, opts).Done?
    ensures var m, n := Applied(kind, settings, opts).value, LastFor(settings, k);
      if n < 0 then (k in m <==> k in opts) && (k in m ==> m[k] == opts[k])
      else k in m && Read(kind(k), settings[n].arg) == Done(m[k])
    ensures LastFor(settings, k) >= 0 ==> settings[LastFor(settings, k)].key == k
    decreases settings
  {
    if settings != [] {
      AppliedSplit(kind, settings, opts);
      LastOneWins(kind, settings[..|settings| - 1], opts, k);
    }
  }

  /** The argument behind the last option that is spelled `flag`, if there is one. */
  ghost function Said<K>(name: K -> string, settings: seq<Setting<K>>, flag: string): Option<string> {
    if settings == [] then None
    else
      var last := settings[|settings| - 1];
      if name(last.key) == flag then Some(last.arg) else Said(name, settings[..|settings| - 1], flag)
  }

  lemma {:induction false} SaidIsLast<K(!new)>(table: Table<K>, name: K -> string, kind: K -> Kind, settings: seq<Setting<K>>, k: K)
    requires Named(table, name, kind)
    ensures var n := LastFor(settings, k);
      Said(name, settings, name(k)) == if n < 0 then None else Some(settings[n].arg)
  {
    if settings != [] {
      var last := settings[|settings| - 1];
      assert name(last.key) == name(k) ==> table(name(last.key)) == table(name(k));
      SaidIsLast(table, name, kind, settings[..|settings| - 1], k);
    }
  }

  /** Every option has the value its last spelling says. */
  lemma SaidIsRead<K(!new)>(table: Table<K>, name: K -> string, kind: K -> Kind, settings: seq<Setting<K>>,
                            opts: map<K, Value>, k: K)
    requires Named(table, name, kind) && Applied(kind, settings, map[]) == Done(opts)
    ensures var said := Said(name, settings, name(k));
      && (k in opts <==> said.Some?)
      && (k in opts ==> Read(kind(k), said.value) == Done(opts[k]))
  {
    SaidIsLast(table, name, kind, settings, k);
    LastOneWins(kind, settings, map[], k);
  }

  ghost predicate Says<K(!new)>(settings: seq<Setting<K>>, k: K) {
    exists s :: s in settings && s.key == k
  }

  /** Settings that say nothing but what the record says leave it for every option they name. */
  lemma {:induction false} SpelledIsRead<K(!new)>(kind: K -> Kind, settings: seq<Setting<K>>, record: map<K, Value>,
                                         opts: map<K, Value>)
    requires forall s <- settings :: s.key in record && Read(kind(s.key), s.arg) == Done(record[s.key])
    ensures Applied(kind, settings, opts).Done?
    ensures var m := Applied(kind, settings, opts).value;
      forall k :: (k in m <==> k in opts || Says(settings, k)) &&
                  (k in m ==> m[k] == if Says(settings, k) then record[k] else opts[k])
    decreases settings
  {
    if settings != [] {
      var s := settings[0];
      assert s in settings;
      forall k ensures Says(settings, k) <==> k == s.key || Says(settings[1..], k) {
        assert forall x :: x in settings <==> x == s || x in settings[1..];
      }
      SpelledIsRead(kind, settings[1..], record, opts[s.key := record[s.key]]);
    }
  }

  /** Values an option of this kind can have. */
  predicate HasKind(v: Value, kind: Kind) {
    match kind
    case Text => v.Str?
    case OnOff => v == Str("1") || v == Str("0")
    case Number => v.Num? && -0x8000_0000 <= v.n < 0x8000_0000
    case Bare => v == Set
  }

  /** An argument that says a value. */
  function ArgOf(v: Value): string {
    match v
    case Str(s) => s
    case Num(n) => ToString(n)
    case Set => ""
  }

  lemma ArgIsRead(v: Value, kind: Kind)
    requires HasKind(v, kind)
    ensures Read(kind, ArgOf(v)) == Done(v)
  {
    if kind == Number {
      StoIOfToString(v.n);
    }
  }

  /** The options of a record, in a given order. */
  function Settings<K>(order: seq<K>, record: map<K, Value>): seq<Setting<K>>
    requires forall k <- order :: k in record
  {
    seq(|order|, i requires 0 <= i < |order| => Setting(order[i], ArgOf(record[order[i]])))
  }

  /**
    Every record of options, with any strings in it, survives being printed in any order and parsed.
   */
  lemma RecordRoundTrip<K(!new)>(table: Table<K>, name: K -> string, kind: K -> Kind, command: string,
                                 order: seq<K>, record: map<K, Value>)
    requires Named(table, name, kind)
    requires forall k :: k in order <==> k in record
    requires forall k <- record :: HasKind(record[k], kind(k))
    ensures ParseFrom(table, [command] + Print(name, kind, Settings(order, record)), 1, map[]) == Done(record)
  {
    var settings := Settings(order, record);
    forall s | s in settings ensures s.key in record && Read(kind(s.key), s.arg) == Done(record[s.key]) {
      var i :| 0 <= i < |settings| && settings[i] == s;
      assert order[i] in order;
      ArgIsRead(record[s.key], kind(s.key));
    }
    forall k | k in record ensures Says(settings, k) {
      var i :| 0 <= i < |order| && order[i] == k;
      assert settings[i] in settings;
    }
    PrintedIsReadBack(table, name, kind, [command], settings, map[]);
    SpelledIsRead(kind, settings, record, map[]);
    var m := Applied(kind, settings, map[]).value;
    assert forall k :: k in m <==> k in record;
    assert m == record;
  }
}
