// The command line of dnc: main's getopt switch over the options "-l",
// "-n" and "-p PORT", the checks on the arguments left after the options,
// and the exit status of dnc_usage and of main.
//
// getopt itself is not modelled: main is given the options getopt returns,
// in order, and the operands left after them (argv[optind..argc-1]).
// inet_pton is a parameter that says which strings are IPv4 addresses.

module Cli {
  import opened Port
  import Relay
  import RelayLemmas

  /** What one call of getopt(argc, argv, ":lnp:") returns. */
  datatype Opt =
    | Listen                    // 'l'
    | NoResolve                 // 'n'
    | PortArg(arg: string)      // 'p', with optarg
    | MissingArgument(opt: char)  // ':', with optopt
    | Unrecognized(opt: char)     // '?', with optopt

  /** Why main called dnc_usage. */
  datatype Usage =
    | InvalidPort(text: string)
    | OptionRequiresArgument(opt: char)
    | UnrecognizedOption(opt: char)
    | ListenRequiresPort
    | ExtraArguments
    | MissingArguments
    | InvalidAddress(text: string, hostnamesNote: bool)

  /** How main ends: in dnc_usage, or by calling dnc_listen or dnc_connect with the address it built. */
  datatype Launch =
    | UsageExit(why: Usage)
    | ListenOn(port: uint16)
    | ConnectTo(host: string, port: uint16)

  /**
   * The variables the option loop updates: the DNC_F_LISTEN flag, resolve,
   * haveport, and the port stored in dnc_addr (zero after the bzero).
   */
  datatype Options = Options(listen: bool, resolve: bool, havePort: bool, port: uint16)

  const Initial := Options(false, true, false, 0)

  datatype Scan = Scanned(opts: Options) | Rejected(why: Usage)

  /** One case of the getopt switch. */
  function ApplyOption(o: Options, x: Opt): (r: Scan)
    ensures r.Scanned? <==> x.Listen? || x.NoResolve? || (x.PortArg? && PortParse(x.arg, o.port).rc == 0)
    ensures r.Scanned? ==> r.opts.port == if x.PortArg? then PortParse(x.arg, o.port).port else o.port
  {
    match x
    case Listen => Scanned(o.(listen := true))
    case NoResolve => Scanned(o.(resolve := false))
    case PortArg(arg) =>
      var r := PortParse(arg, o.port);
      if r.rc != 0 then Rejected(InvalidPort(arg)) else Scanned(o.(havePort := true, port := r.port))
    case MissingArgument(c) => Rejected(OptionRequiresArgument(c))
    case Unrecognized(c) => Rejected(UnrecognizedOption(c))
  }

  /** The getopt loop: the options in order, up to the first that sends main to dnc_usage. */
  function ScanOptions(o: Options, xs: seq<Opt>): (r: Scan)
    decreases |xs|
    ensures r.Rejected? ==> r.why.InvalidPort? || r.why.OptionRequiresArgument? || r.why.UnrecognizedOption?
  {
    if xs == [] then Scanned(o)
    else match ApplyOption(o, xs[0])
      case Rejected(why) => Rejected(why)
      case Scanned(o') => ScanOptions(o', xs[1..])
  }

  /** The checks after the loop, in listen mode and in connect mode. */
  function Decide(o: Options, operands: seq<string>, isIpv4: string -> bool): (r: Launch)
    ensures r.ListenOn? ==> o.listen && o.havePort && operands == [] && r.port == o.port
    ensures r.ConnectTo? ==>
      && !o.listen && |operands| == 2 && r.host == operands[0] && isIpv4(r.host)
      && PortParse(operands[1], o.port) == PortOut(0, r.port)
  {
    if o.listen then
      if !o.havePort then UsageExit(ListenRequiresPort)
      else if |operands| != 0 then UsageExit(ExtraArguments)
      else ListenOn(o.port)
    else if |operands| < 2 then UsageExit(MissingArguments)
    else if |operands| > 2 then UsageExit(ExtraArguments)
    else if !isIpv4(operands[0]) then UsageExit(InvalidAddress(operands[0], o.resolve))
    else
      var r := PortParse(operands[1], o.port);
      if r.rc != 0 then UsageExit(InvalidPort(operands[1])) else ConnectTo(operands[0], r.port)
  }

  /** main, from its options and operands to the way it ends. */
  function Launcher(xs: seq<Opt>, operands: seq<string>, isIpv4: string -> bool): (r: Launch)
    ensures ScanOptions(Initial, xs).Rejected? ==> r.UsageExit?
    ensures !r.UsageExit? ==> ScanOptions(Initial, xs).Scanned? && (r.ListenOn? <==> ScanOptions(Initial, xs).opts.listen)
  {
    match ScanOptions(Initial, xs)
    case Rejected(why) => UsageExit(why)
    case Scanned(o) => Decide(o, operands, isIpv4)
  }

  /**
   * main: the getopt loop over the options, then the checks on the
   * operands. Every call of dnc_usage ends main at once.
   */
  method DncMain(xs: seq<Opt>, operands: seq<string>, isIpv4: string -> bool) returns (launch: Launch)
    ensures launch == Launcher(xs, operands, isIpv4)
  {
    var listen, resolve, havePort := false, true, false;
    var port: uint16 := 0;
    for i := 0 to |xs|
      invariant ScanOptions(Initial, xs) == ScanOptions(Options(listen, resolve, havePort, port), xs[i..])
    {
      assert xs[i..][1..] == xs[i + 1..];
      match xs[i]
      case Listen =>
        listen := true;
      case NoResolve =>
        resolve := false;
      case PortArg(arg) =>
        havePort := true;
        var r := PortParse(arg, port);
        if r.rc != 0 {
          launch := UsageExit(InvalidPort(arg));
          return;
        }
        port := r.port;
      case MissingArgument(c) =>
        launch := UsageExit(OptionRequiresArgument(c));
        return;
      case Unrecognized(c) =>
        launch := UsageExit(UnrecognizedOption(c));
        return;
    }

    if listen {
      if !havePort {
        launch := UsageExit(ListenRequiresPort);
        return;
      }
      if |operands| != 0 {
        launch := UsageExit(ExtraArguments);
        return;
      }
      launch := ListenOn(port);
      return;
    }

    if |operands| < 2 {
      launch := UsageExit(MissingArguments);
      return;
    } else if |operands| > 2 {
      launch := UsageExit(ExtraArguments);
      return;
    }
    if !isIpv4(operands[0]) {
      launch := UsageExit(InvalidAddress(operands[0], resolve));
      return;
    }
    var r := PortParse(operands[1], port);
    if r.rc != 0 {
      launch := UsageExit(InvalidPort(operands[1]));
      return;
    }
    launch := ConnectTo(operands[0], r.port);
  }

  // ---------------------------------------------------------------------
  // Exit status

  const USAGE_STATUS := 2

  /**
   * The status the process exits with: 2 from dnc_usage, otherwise main's
   * return value rv, of which the exit status keeps the low eight bits.
   */
  function ExitStatus(l: Launch, rv: int): (code: int)
    ensures 0 <= code < 256
  {
    if l.UsageExit? then USAGE_STATUS else rv % 256
  }

  // ---------------------------------------------------------------------
  // Properties

  /** The usage line: "-l -p LISTEN_PORT" with no operand, or "HOST PORT". */
  predicate ShapeOk(listen: bool, havePort: bool, operands: nat)
  {
    if listen then havePort && operands == 0 else operands == 2
  }

  predicate IsShapeError(u: Usage)
  {
    u.ListenRequiresPort? || u.ExtraArguments? || u.MissingArguments?
  }

  /**
   * After the options, main rejects the arguments for their shape exactly
   * when they do not follow the usage line, and then exits with status 2.
   */
  lemma ShapeRule(o: Options, operands: seq<string>, isIpv4: string -> bool, rv: int)
    ensures var l := Decide(o, operands, isIpv4);
      && (l.UsageExit? && IsShapeError(l.why) <==> !ShapeOk(o.listen, o.havePort, |operands|))
      && (!ShapeOk(o.listen, o.havePort, |operands|) ==> ExitStatus(l, rv) == 2)
  {
  }

  /**
   * main listens exactly when every option was accepted, -l and a valid -p
   * were among them, and no operand is left; it listens on the port the
   * option loop kept, which ScanLastPort shows is that of the last -p.
   */
  lemma ListenLaunch(xs: seq<Opt>, operands: seq<string>, isIpv4: string -> bool)
    ensures Launcher(xs, operands, isIpv4).ListenOn? <==>
      ScanOptions(Initial, xs).Scanned? && ScanOptions(Initial, xs).opts.listen &&
      ScanOptions(Initial, xs).opts.havePort && operands == []
    ensures Launcher(xs, operands, isIpv4).ListenOn? ==>
      Launcher(xs, operands, isIpv4).port == ScanOptions(Initial, xs).opts.port
  {
  }

  /**
   * main connects exactly when every option was accepted, -l was not among
   * them, and the two operands are an IPv4 address and a port
   * dnc_port_parse accepts; it connects to that address and port.
   */
  lemma ConnectLaunch(xs: seq<Opt>, operands: seq<string>, isIpv4: string -> bool, host: string, port: uint16)
    ensures Launcher(xs, operands, isIpv4) == ConnectTo(host, port) <==>
      && ScanOptions(Initial, xs).Scanned? && !ScanOptions(Initial, xs).opts.listen
      && |operands| == 2 && operands[0] == host && isIpv4(host)
      && PortParse(operands[1], 0) == PortOut(0, port)
  {
    if ScanOptions(Initial, xs).Scanned? && |operands| == 2 {
      var o := ScanOptions(Initial, xs).opts;
      PortParseIgnoresOld(operands[1], o.port, 0);
    }
  }

  /** Whether dnc_port_parse accepts a string, and the port it gives, do not depend on the old *portp. */
  lemma PortParseIgnoresOld(s: string, p: uint16, q: uint16)
    ensures PortParse(s, p).rc == PortParse(s, q).rc
    ensures PortParse(s, p).rc == 0 ==> PortParse(s, p) == PortParse(s, q)
  {
  }

  /** The loop stops at the first option that sends main to dnc_usage; the options after it are never looked at. */
  lemma {:induction false} ScanAppend(o: Options, xs: seq<Opt>, ys: seq<Opt>)
    ensures ScanOptions(o, xs + ys) ==
            match ScanOptions(o, xs)
            case Rejected(why) => Rejected(why)
            case Scanned(o') => ScanOptions(o', ys)
    decreases |xs|
  {
    if xs == [] {
      assert xs + ys == ys;
    } else {
      assert (xs + ys)[0] == xs[0] && (xs + ys)[1..] == xs[1..] + ys;
      match ApplyOption(o, xs[0])
      case Rejected(why) =>
      case Scanned(o') => ScanAppend(o', xs[1..], ys);
    }
  }

  /**
   * When the loop accepts all options, -l was given iff listen is set, -n
   * iff resolve is cleared, and a -p iff haveport is set.
   */
  lemma {:induction false} ScanFlags(o: Options, xs: seq<Opt>)
    requires ScanOptions(o, xs).Scanned?
    ensures var r := ScanOptions(o, xs).opts;
      && (r.listen <==> o.listen || Listen in xs)
      && (r.resolve <==> o.resolve && NoResolve !in xs)
      && (r.havePort <==> o.havePort || exists i :: 0 <= i < |xs| && xs[i].PortArg?)
    decreases |xs|
  {
    if xs != [] {
      var o' := ApplyOption(o, xs[0]).opts;
      ApplyFlags(o, xs[0]);
      ScanFlags(o', xs[1..]);
      assert xs == [xs[0]] + xs[1..];
      assert (exists i :: 0 <= i < |xs| && xs[i].PortArg?) <==>
             xs[0].PortArg? || exists i :: 0 <= i < |xs[1..]| && xs[1..][i].PortArg? by {
        if exists i :: 0 <= i < |xs| && xs[i].PortArg? {
          var i :| 0 <= i < |xs| && xs[i].PortArg?;
          if i > 0 {
            assert xs[1..][i - 1].PortArg?;
          }
        }
        if exists i :: 0 <= i < |xs[1..]| && xs[1..][i].PortArg? {
          var i :| 0 <= i < |xs[1..]| && xs[1..][i].PortArg?;
          assert xs[i + 1].PortArg?;
        }
      }
    }
  }

  /** The flags one accepted option leaves behind. */
  lemma ApplyFlags(o: Options, x: Opt)
    requires ApplyOption(o, x).Scanned?
    ensures var r := ApplyOption(o, x).opts;
      && (r.listen <==> o.listen || x == Listen)
      && (r.resolve <==> o.resolve && x != NoResolve)
      && (r.havePort <==> o.havePort || x.PortArg?)
  {
  }

  /**
   * When the loop accepts all options, every option was -l, -n or -p, and
   * every -p carried a port dnc_port_parse accepts.
   */
  lemma {:induction false} ScanAcceptsOnly(o: Options, xs: seq<Opt>)
    requires ScanOptions(o, xs).Scanned?
    ensures forall i :: 0 <= i < |xs| ==> xs[i].Listen? || xs[i].NoResolve? || xs[i].PortArg?
    ensures forall i :: 0 <= i < |xs| && xs[i].PortArg? ==> PortParse(xs[i].arg, 0).rc == 0
    decreases |xs|
  {
    if xs != [] {
      if xs[0].PortArg? {
        PortParseIgnoresOld(xs[0].arg, o.port, 0);
      }
      ScanAcceptsOnly(ApplyOption(o, xs[0]).opts, xs[1..]);
      forall i | 1 <= i < |xs|
        ensures xs[i] == xs[1..][i - 1]
      {
      }
    }
  }

  /**
   * When the loop accepts all options, the port kept is the one of the
   * last -p, or the initial one when there is no -p.
   */
  lemma {:induction false} ScanLastPort(o: Options, xs: seq<Opt>)
    requires ScanOptions(o, xs).Scanned?
    ensures var r := ScanOptions(o, xs).opts;
      && ((forall i :: 0 <= i < |xs| ==> !xs[i].PortArg?) ==> r.port == o.port)
      && (forall i :: 0 <= i < |xs| && xs[i].PortArg? && (forall j :: i < j < |xs| ==> !xs[j].PortArg?) ==>
            r.port == PortParse(xs[i].arg, 0).port)
    decreases |xs|
  {
    if xs != [] {
      var o' := ApplyOption(o, xs[0]).opts;
      if xs[0].PortArg? {
        PortParseIgnoresOld(xs[0].arg, o.port, 0);
      }
      ScanLastPort(o', xs[1..]);
      forall i | 1 <= i < |xs|
        ensures xs[i] == xs[1..][i - 1]
      {
      }
    }
  }

  /**
   * When dnc_connection fails, dnc_connect returns -1 to main, and main's
   * -1 makes the process exit with status 255.
   */
  lemma RelayFailureExits255(env: Relay.Env, host: string, port: uint16)
    ensures var r := Relay.Run(env, Relay.Start);
      r.status.Failed? ==> ExitStatus(ConnectTo(host, port), RelayLemmas.ReturnValue(r.status)) == 255
  {
  }
}
