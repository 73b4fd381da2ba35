/** `parse_endpoint`: the options for all commands, stripped by moving the argument vector on. */
module Endpoints {
  import opened Prelude
  import opened Decimals

  datatype Endpoint = Endpoint(host: string, port: int)

  const DEFAULT := Endpoint("127.0.0.1", 14550)

  predicate IsFlag(arg: string) {
    arg == "--host" || arg == "--port"
  }

  /** The option and argument pairs the loop takes out of the arguments, wherever they stand. */
  function Taken(args: seq<string>): (pairs: seq<(string, string)>)
    ensures 2 * |pairs| <= |args|
    ensures forall p <- pairs :: IsFlag(p.0)
  {
    if |args| < 2 then []
    else if IsFlag(args[0]) then [(args[0], args[1])] + Taken(args[2..])
    else Taken(args[1..])
  }

  /** The positions of the arguments it does not take, counted from `at`. */
  function Kept(args: seq<string>, at: nat): seq<nat> {
    if args == [] then []
    else if |args| >= 2 && IsFlag(args[0]) then Kept(args[2..], at + 2)
    else [at] + Kept(args[1..], at + 1)
  }

  /** How many pairs stand in front of everything else. */
  function InFront(args: seq<string>): nat {
    if |args| >= 2 && IsFlag(args[0]) then 1 + InFront(args[2..]) else 0
  }

  /** One pair; `--port` is cast to 16 bits, and a bad number throws. */
  function UsedOne(flag: string, arg: string, ep: Endpoint): Outcome<Endpoint> {
    if flag == "--host" then Done(ep.(host := arg))
    else
      var n := StoI(arg);
      if n.None? then Exit(Terminated) else Done(ep.(port := n.value % 0x1_0000))
  }

  /** One pair after the other. */
  function Used(pairs: seq<(string, string)>, ep: Endpoint): Outcome<Endpoint>
    decreases pairs
  {
    if pairs == [] then Done(ep)
    else
      var one := UsedOne(pairs[0].0, pairs[0].1, ep);
      if one.Exit? then one else Used(pairs[1..], one.value)
  }

  /** The loop from index `i` on. */
  function LoopFrom(argv: seq<string>, i: nat, ep: Endpoint, shift: nat): Outcome<(Endpoint, nat)>
    decreases |argv| - i
  {
    if i >= |argv| then Done((ep, shift))
    else if i + 1 < |argv| && IsFlag(argv[i]) then
      var one := UsedOne(argv[i], argv[i + 1], ep);
      if one.Exit? then Exit(one.status) else LoopFrom(argv, i + 2, one.value, shift + 2)
    else LoopFrom(argv, i + 1, ep, shift)
  }

  lemma {:induction false} LoopTakes(argv: seq<string>, i: nat, ep: Endpoint, shift: nat)
    requires i <= |argv|
    ensures var pairs := Taken(argv[i..]);
      LoopFrom(argv, i, ep, shift) ==
      (if Used(pairs, ep).Exit? then Exit(Used(pairs, ep).status) else Done((Used(pairs, ep).value, shift + 2 * |pairs|)))
    decreases |argv| - i
  {
    if i < |argv| {
      TakenFrom(argv, i);
      if i + 1 < |argv| && IsFlag(argv[i]) {
        UsedNext(argv[i], argv[i + 1], Taken(argv[i + 2..]), ep);
        var used := UsedOne(argv[i], argv[i + 1], ep);
        if used.Done? {
          LoopTakes(argv, i + 2, used.value, shift + 2);
        }
      } else {
        LoopTakes(argv, i + 1, ep, shift);
      }
    }
  }

  lemma UsedNext(flag: string, arg: string, rest: seq<(string, string)>, ep: Endpoint)
    ensures Used([(flag, arg)] + rest, ep) ==
            if UsedOne(flag, arg, ep).Exit? then UsedOne(flag, arg, ep) else Used(rest, UsedOne(flag, arg, ep).value)
  {
    assert ([(flag, arg)] + rest)[1..] == rest;
  }

  /** What the loop takes from position `i` on, by the argument there. */
  lemma TakenFrom(argv: seq<string>, i: nat)
    requires i < |argv|
    ensures Taken(argv[i..]) ==
            if i + 1 < |argv| && IsFlag(argv[i]) then [(argv[i], argv[i + 1])] + Taken(argv[i + 2..])
            else Taken(argv[i + 1..])
  {
    assert argv[i..][1..] == argv[i + 1..];
    if i + 1 < |argv| {
      assert argv[i..][2..] == argv[i + 2..];
    }
  }

  /** The endpoint, and the argument vector moved on by what was taken, from its front. */
  method ParseEndpoint(argv: seq<string>) returns (r: Outcome<(Endpoint, seq<string>)>)
    requires argv != []
    ensures var pairs := Taken(argv[1..]);
      match Used(pairs, DEFAULT) {
        case Exit(status) => r == Exit(status)
        case Done(ep) => r == Done((ep, argv[2 * |pairs|..]))
      }
  {
    var ep := DEFAULT;
    var shift := 0;
    LoopTakes(argv, 1, ep, shift);
    ghost var whole := LoopFrom(argv, 1, ep, shift);
    var i := 1;
    while i < |argv|
      invariant 1 <= i <= |argv|
      invariant LoopFrom(argv, i, ep, shift) == whole
    {
      var arg := argv[i];
      if arg == "--host" && i + 1 < |argv| {
        ep := ep.(host := argv[i + 1]);
        shift := shift + 2;
        i := i + 1;
      } else if arg == "--port" && i + 1 < |argv| {
        var n := StoI(argv[i + 1]);
        if n.None? {
          return Exit(Terminated);
        }
        ep := ep.(port := n.value % 0x1_0000);
        shift := shift + 2;
        i := i + 1;
      }
      i := i + 1;
    }
    return Done((ep, argv[shift..]));
  }

  // ------------------------------------------------------------------ what is left of the command line

  lemma {:induction false} NothingTaken(args: seq<string>, at: nat)
    requires Taken(args) == []
    ensures |Kept(args, at)| == |args| && forall k | 0 <= k < |args| :: Kept(args, at)[k] == at + k
  {
    if args != [] {
      assert !(|args| >= 2 && IsFlag(args[0]));
      NothingTaken(args[1..], at + 1);
    }
  }

  lemma {:induction false} KeptCount(args: seq<string>, at: nat)
    ensures |Kept(args, at)| == |args| - 2 * |Taken(args)|
    ensures forall k <- Kept(args, at) :: k >= at
  {
    if |args| >= 2 && IsFlag(args[0]) {
      KeptCount(args[2..], at + 2);
    } else if args != [] {
      KeptCount(args[1..], at + 1);
    }
  }

  /** The arguments that survive the move are those from position `from` on. */
  ghost predicate KeptFrom(args: seq<string>, at: nat, from: nat) {
    && |Kept(args, at)| == at + |args| - from
    && forall k | 0 <= k < |Kept(args, at)| :: Kept(args, at)[k] == from + k
  }

  /**
    Moving the vector on drops exactly the option pairs if and only if all of them stand in front: then
    the command and its arguments are left, otherwise arguments are lost in their place.
   */
  lemma {:induction false} StripsRightIffInFront(args: seq<string>, at: nat)
    ensures InFront(args) <= |Taken(args)|
    ensures KeptFrom(args, at, at + 2 * |Taken(args)|) <==> InFront(args) == |Taken(args)|
  {
    KeptCount(args, at);
    if |args| >= 2 && IsFlag(args[0]) {
      StripsRightIffInFront(args[2..], at + 2);
    } else if Taken(args) == [] {
      NothingTaken(args, at);
    } else {
      assert Kept(args, at)[0] == at;
    }
  }

  /**
    The argument count is checked before the move: no command is left behind it exactly if every argument
    was taken.
   */
  lemma NoCommandLeftIff(argv: seq<string>)
    requires |argv| >= 2
    ensures |argv[2 * |Taken(argv[1..])|..]| < 2 <==> Kept(argv[1..], 1) == []
  {
    KeptCount(argv[1..], 1);
  }

  function Flat(pairs: seq<(string, string)>): seq<string> {
    if pairs == [] then [] else [pairs[0].0, pairs[0].1] + Flat(pairs[1..])
  }

  lemma {:induction false} FlatLength(pairs: seq<(string, string)>)
    ensures |Flat(pairs)| == 2 * |pairs|
  {
    if pairs != [] {
      FlatLength(pairs[1..]);
    }
  }

  lemma TakenNext(flag: string, arg: string, rest: seq<string>)
    requires IsFlag(flag)
    ensures Taken([flag, arg] + rest) == [(flag, arg)] + Taken(rest)
  {
    assert ([flag, arg] + rest)[2..] == rest;
  }

  lemma {:induction false} TakenInFront(pairs: seq<(string, string)>, command: seq<string>)
    requires (forall p <- pairs :: IsFlag(p.0)) && Taken(command) == []
    ensures Taken(Flat(pairs) + command) == pairs
  {
    if pairs == [] {
      assert Flat(pairs) + command == command;
    } else {
      assert pairs[0] in pairs && forall p <- pairs[1..] :: p in pairs;
      TakenInFront(pairs[1..], command);
      TakenNext(pairs[0].0, pairs[0].1, Flat(pairs[1..]) + command);
      assert Flat(pairs) + command == [pairs[0].0, pairs[0].1] + (Flat(pairs[1..]) + command);
      assert pairs == [pairs[0]] + pairs[1..];
    }
  }

  /** Global options in front, with any arguments, are understood and leave exactly the command behind. */
  lemma GlobalOptionsFirst(program: string, pairs: seq<(string, string)>, command: seq<string>)
    requires (forall p <- pairs :: IsFlag(p.0)) && Taken(command) == []
    ensures var argv := [program] + (Flat(pairs) + command);
      && Taken(argv[1..]) == pairs
      && 2 * |pairs| < |argv|
      && argv[2 * |pairs|..][1..] == command
  {
    var argv := [program] + (Flat(pairs) + command);
    assert argv[1..] == Flat(pairs) + command;
    TakenInFront(pairs, command);
    FlatLength(pairs);
  }

  function LastOf(pairs: seq<(string, string)>, flag: string): (n: int)
    ensures -1 <= n < |pairs|
  {
    if pairs == [] then -1
    else if pairs[|pairs| - 1].0 == flag then |pairs| - 1
    else LastOf(pairs[..|pairs| - 1], flag)
  }

  lemma {:induction false} UsedSplit(pairs: seq<(string, string)>, ep: Endpoint)
    requires pairs != []
    ensures var init, last := pairs[..|pairs| - 1], pairs[|pairs| - 1];
      Used(pairs, ep) ==
      (if Used(init, ep).Exit? then Used(init, ep) else UsedOne(last.0, last.1, Used(init, ep).value))
    decreases pairs
  {
    if |pairs| == 1 {
      assert pairs[..0] == [] && pairs[1..] == [];
    } else {
      var one := UsedOne(pairs[0].0, pairs[0].1, ep);
      assert pairs[..|pairs| - 1][1..] == pairs[1..][..|pairs| - 2];
      if one.Done? {
        UsedSplit(pairs[1..], one.value);
      }
    }
  }

  /** The last host wins, and the last port, modulo 65536. */
  lemma {:induction false} LastOnesWin(pairs: seq<(string, string)>, ep: Endpoint)
    requires (forall p <- pairs :: IsFlag(p.0)) && Used(pairs, ep).Done?
    ensures var u, h := Used(pairs, ep).value, LastOf(pairs, "--host");
      u.host == if h < 0 then ep.host else pairs[h].1
    ensures var u, p := Used(pairs, ep).value, LastOf(pairs, "--port");
      if p < 0 then u.port == ep.port
      else StoI(pairs[p].1).Some? && u.port == StoI(pairs[p].1).value % 0x1_0000
  {
    if pairs != [] {
      var init, last := pairs[..|pairs| - 1], pairs[|pairs| - 1];
      assert last in pairs && forall p <- init :: p in pairs;
      UsedSplit(pairs, ep);
      LastOnesWin(init, ep);
    }
  }

  ghost predicate NoFlags(args: seq<string>) {
    forall a <- args :: !IsFlag(a)
  }

  /** What is no option is left alone, and so is an option at the very end. */
  lemma {:induction false} TakesNothing(args: seq<string>)
    requires NoFlags(args)
    ensures Taken(args) == []
    ensures forall flag :: Taken(args + [flag]) == []
  {
    if args != [] {
      assert args[0] in args && NoFlags(args[1..]) by {
        assert forall a <- args[1..] :: a in args;
      }
      TakesNothing(args[1..]);
      forall flag: string | true ensures Taken(args + [flag]) == [] {
        assert (args + [flag])[1..] == args[1..] + [flag];
      }
    }
  }

  /** The next option is taken wherever it stands, with whatever stands behind it. */
  lemma {:induction false} TakesNext(front: seq<string>, flag: string, arg: string, rest: seq<string>, at: nat)
    requires NoFlags(front) && IsFlag(flag)
    ensures Taken(front + ([flag, arg] + rest)) == [(flag, arg)] + Taken(rest)
    ensures Kept(front + ([flag, arg] + rest), at) ==
            seq(|front|, k requires 0 <= k < |front| => at + k) + Kept(rest, at + |front| + 2)
  {
    var args := front + ([flag, arg] + rest);
    if front == [] {
      assert args == [flag, arg] + rest && args[2..] == rest;
    } else {
      assert front[0] in front && NoFlags(front[1..]) by {
        assert forall a <- front[1..] :: a in front;
      }
      assert args[1..] == front[1..] + ([flag, arg] + rest);
      TakesNext(front[1..], flag, arg, rest, at + 1);
    }
  }

  /** Without options it is this host's port 14550; a port that is no number ends the program. */
  lemma PairsDecide(pairs: seq<(string, string)>)
    requires forall p <- pairs :: IsFlag(p.0)
    ensures pairs == [] ==> Used(pairs, DEFAULT) == Done(Endpoint("127.0.0.1", 14550))
    ensures Used(pairs, DEFAULT).Exit? <==> exists p <- pairs :: p.0 == "--port" && StoI(p.1).None?
    ensures Used(pairs, DEFAULT).Exit? ==> Used(pairs, DEFAULT).status == Terminated
  {
    BadPortEnds(pairs, DEFAULT);
  }

  lemma {:induction false} BadPortEnds(pairs: seq<(string, string)>, ep: Endpoint)
    requires forall p <- pairs :: IsFlag(p.0)
    ensures Used(pairs, ep).Exit? <==> exists p <- pairs :: p.0 == "--port" && StoI(p.1).None?
    ensures Used(pairs, ep).Exit? ==> Used(pairs, ep).status == Terminated
    decreases pairs
  {
    if pairs != [] {
      var one := UsedOne(pairs[0].0, pairs[0].1, ep);
      assert pairs[0] in pairs && forall p :: p in pairs <==> p == pairs[0] || p in pairs[1..];
      if one.Done? {
        BadPortEnds(pairs[1..], one.value);
      }
    }
  }
}
