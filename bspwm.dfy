/**
 * The daemon's own helpers in src/bspwm.c: the colour decoder
 * get_color_pixel, the command-line options, the default configuration
 * path, the argument vector of a restart, one pass of the main loop over
 * the descriptors select() reported ready, and cleanup.
 *
 * The X server, manage_window and handle_event are outside the model:
 * the pixel of black, what manage_window answers for a pending rule and
 * the events the display connection delivers are inputs, and every event
 * or command handed on is recorded in the daemon's log of actions.
 * WM_NAME, CONFIG_NAME, CONFIG_HOME_ENV and VERSION come from a header that
 * is not part of this model and are parameters (`Build`).
 */
module Daemon {
  import opened Wrappers
  import Numeric
  import Helpers
  import Parse
  import Subscribe
  import Bspc

  /** MAXLEN, the size of the path buffers. */
  const MaxLen: nat := 256

  /** BUFSIZ of the C library, the size of the message buffer. */
  const BufSiz: nat := 8192

  /** A C `int`. */
  type Int32 = i: int | -0x8000_0000 <= i < 0x8000_0000

  /** The names a build of the daemon is configured with. */
  datatype Build = Build(wmName: string, configName: string, configHomeEnv: string, version: string)

  // ---------------------------------------------------------------------
  // get_color_pixel
  // ---------------------------------------------------------------------

  /** One "%02x" conversion of sscanf: one or two hexadecimal digits. */
  function HexField(t: string): (r: Option<Parse.Scanned>)
    ensures r.None? <==> |t| == 0 || !Numeric.IsHexDigit(t[0])
    ensures r.Some? ==> 1 <= r.value.used <= 2 && r.value.used <= |t| && 0 <= r.value.value < 256
    ensures r.Some? ==> Numeric.AllBaseDigits(t[..r.value.used], 16)
    ensures r.Some? ==> r.value.value == Numeric.ValueOf(t[..r.value.used], 16)
  {
    var k := Helpers.Min(Numeric.RunLength(t, 0, 16), 2);
    if k == 0 then None
    else
      var d := t[..k];
      assert Numeric.AllBaseDigits(d, 16);
      assert Numeric.ValueOf(d, 16) < 256 by {
        ValueBound(d);
        assert Numeric.Pow(16, 2) == 256;
      }
      Some(Parse.Scanned(Numeric.ValueOf(d, 16), k))
  }

  /** A number of n hexadecimal digits is below 16^n. */
  lemma {:induction false} ValueBound(d: string)
    requires Numeric.AllBaseDigits(d, 16)
    ensures Numeric.ValueOf(d, 16) < Numeric.Pow(16, |d|)
  {
    if |d| > 0 {
      ValueBound(d[..|d| - 1]);
    }
  }

  /** sscanf(t, "%02x%02x%02x", &red, &green, &blue) == 3: the three channels. */
  function ColorFields(t: string): (r: Option<(nat, nat, nat)>)
    ensures r.Some? ==> r.value.0 < 256 && r.value.1 < 256 && r.value.2 < 256
  {
    match HexField(t)
    case None => None
    case Some(red) =>
      var t1 := t[red.used..];
      match HexField(t1)
      case None => None
      case Some(green) =>
        var t2 := t1[green.used..];
        match HexField(t2)
        case None => None
        case Some(blue) => Some((red.value as nat, green.value as nat, blue.value as nat))
  }

  /** (0xFF << 24) | (red << 16 | green << 8 | blue): an opaque pixel whose channels read back. */
  function Pixel(red: bv8, green: bv8, blue: bv8): (p: bv32)
    ensures p == 0xFF00_0000 + (red as bv32) * 0x1_0000 + (green as bv32) * 0x100 + (blue as bv32)
    ensures p >> 24 == 0xFF
    ensures (p >> 16) & 0xFF == red as bv32 && (p >> 8) & 0xFF == green as bv32 && p & 0xFF == blue as bv32
  {
    (0xFF << 24) | (((red as bv32) << 16) | ((green as bv32) << 8) | (blue as bv32))
  }

  /**
   * get_color_pixel(color): the pixel of the three fields after the first
   * character, black when they cannot be read (as whenever fewer than three
   * characters follow it).
   */
  function ColorPixel(color: string, blackPixel: bv32): (r: bv32)
    requires |color| >= 1
    ensures ColorFields(color[1..]).None? ==> r == blackPixel
    ensures ColorFields(color[1..]).Some? ==> r >> 24 == 0xFF
    ensures |color| < 4 ==> r == blackPixel
  {
    match ColorFields(color[1..])
    case None => blackPixel
    case Some((red, green, blue)) => Pixel(red as bv8, green as bv8, blue as bv8)
  }

  /** A colour is_hex_color accepts decodes to its three digit pairs. */
  lemma HexColorPixel(color: string, blackPixel: bv32)
    requires Helpers.HexColorSyntax(color)
    ensures Numeric.AllBaseDigits(color[1..3], 16) && Numeric.AllBaseDigits(color[3..5], 16)
      && Numeric.AllBaseDigits(color[5..7], 16)
    ensures Numeric.ValueOf(color[1..3], 16) < 256 && Numeric.ValueOf(color[3..5], 16) < 256
      && Numeric.ValueOf(color[5..7], 16) < 256
    ensures ColorPixel(color, blackPixel) == Pixel(Numeric.ValueOf(color[1..3], 16) as bv8,
      Numeric.ValueOf(color[3..5], 16) as bv8, Numeric.ValueOf(color[5..7], 16) as bv8)
  {
    var t := color[1..];
    assert HexField(t) == Some(Parse.Scanned(Numeric.ValueOf(color[1..3], 16), 2)) by {
      assert Numeric.RunLength(t, 0, 16) >= 2 by {
        assert Numeric.IsBaseDigit(t[0], 16) && Numeric.IsBaseDigit(t[1], 16);
        assert Numeric.RunLength(t, 0, 16) == 1 + Numeric.RunLength(t, 1, 16);
      }
      assert t[..2] == color[1..3];
    }
    var t1 := t[2..];
    assert HexField(t1) == Some(Parse.Scanned(Numeric.ValueOf(color[3..5], 16), 2)) by {
      assert Numeric.RunLength(t1, 0, 16) >= 2 by {
        assert Numeric.IsBaseDigit(t1[0], 16) && Numeric.IsBaseDigit(t1[1], 16);
        assert Numeric.RunLength(t1, 0, 16) == 1 + Numeric.RunLength(t1, 1, 16);
      }
      assert t1[..2] == color[3..5];
    }
    var t2 := t1[2..];
    assert HexField(t2) == Some(Parse.Scanned(Numeric.ValueOf(color[5..7], 16), 2)) by {
      assert Numeric.RunLength(t2, 0, 16) >= 2 by {
        assert Numeric.IsBaseDigit(t2[0], 16) && Numeric.IsBaseDigit(t2[1], 16);
        assert Numeric.RunLength(t2, 0, 16) == 1 + Numeric.RunLength(t2, 1, 16);
      }
      assert t2[..2] == color[5..7];
    }
  }

  /** A field may be a single digit: "#abcde" reads blue as 0xe. */
  lemma SingleDigitField()
    ensures ColorFields("#abcde"[1..]) == Some((0xab, 0xcd, 0xe))
  {
    assert HexField("e") == Some(Parse.Scanned(0xe, 1)) by {
      assert "e"[..1] == "e" && "e"[..1][..0] == [];
    }
    assert HexField("cde") == Some(Parse.Scanned(0xcd, 2)) by {
      assert Numeric.RunLength("cde", 1, 16) >= 1;
      assert "cde"[..2] == "cd" && "cd"[..1] == "c" && "c"[..0] == [];
    }
    assert HexField("abcde") == Some(Parse.Scanned(0xab, 2)) by {
      assert Numeric.RunLength("abcde", 1, 16) >= 1;
      assert "abcde"[..2] == "ab" && "ab"[..1] == "a" && "a"[..0] == [];
    }
    assert "abcde"[2..] == "cde" && "cde"[2..] == "e";
    assert "#abcde"[1..] == "abcde";
  }

  // ---------------------------------------------------------------------
  // Command-line options
  // ---------------------------------------------------------------------

  /** One option getopt(argc, argv, "hvc:s:o:") returned, with its argument ("" when it takes none). */
  datatype Opt = Opt(flag: char, arg: string)

  /** What the option loop leads to: an exit after printing, or the start-up settings. */
  datatype Startup =
    | Exit(out: string)
    | Start(configPath: string, statePath: string, sockFd: Int32, runLevel: bv8)

  /** The argument of the last option with `flag`. */
  function LastArg(opts: seq<Opt>, flag: char): (r: Option<string>)
    ensures r.None? <==> forall i | 0 <= i < |opts| :: opts[i].flag != flag
  {
    if |opts| == 0 then None
    else if opts[|opts| - 1].flag == flag then Some(opts[|opts| - 1].arg)
    else
      var init := opts[..|opts| - 1];
      assert forall i | 0 <= i < |init| :: init[i] == opts[i];
      LastArg(init, flag)
  }

  /** The argument found belongs to an option with `flag` that no later one overrides. */
  lemma {:induction false} LastArgIsLast(opts: seq<Opt>, flag: char)
    requires LastArg(opts, flag).Some?
    ensures exists i | 0 <= i < |opts| ::
      opts[i] == Opt(flag, LastArg(opts, flag).value) && forall j | i < j < |opts| :: opts[j].flag != flag
  {
    var n := |opts|;
    var v := LastArg(opts, flag).value;
    if opts[n - 1].flag != flag {
      var init := opts[..n - 1];
      assert LastArg(init, flag).value == v;
      LastArgIsLast(init, flag);
      var i :| 0 <= i < |init| && init[i] == Opt(flag, v) && forall j | i < j < |init| :: init[j].flag != flag;
      assert opts[i] == Opt(flag, v);
      assert forall j | i < j < n :: opts[j].flag != flag by {
        forall j | i < j < n
          ensures opts[j].flag != flag
        {
          if j < n - 1 {
            assert opts[j] == init[j];
          }
        }
      }
    } else {
      assert opts[n - 1] == Opt(flag, v);
    }
  }

  /** One more option changes the last argument of its own flag only. */
  lemma LastArgStep(opts: seq<Opt>, i: nat, f: char)
    requires i < |opts|
    ensures LastArg(opts[..i + 1], f) == if opts[i].flag == f then Some(opts[i].arg) else LastArg(opts[..i], f)
  {
    assert opts[..i + 1][..i] == opts[..i] && opts[..i + 1][i] == opts[i];
  }

  /** The value of a long stored in an int (two's complement wrap-around). */
  function ToInt32(v: int): (r: Int32)
    ensures (r - v) % 0x1_0000_0000 == 0
    ensures -0x8000_0000 <= v < 0x8000_0000 ==> r == v
  {
    (v + 0x8000_0000) % 0x1_0000_0000 - 0x8000_0000
  }

  /** -o: sock_fd = strtol(optarg, &end, 0), or -1 when characters are left over. */
  function SocketOption(arg: string): (fd: Int32)
    ensures Numeric.StrtolBase0(arg).consumed != |arg| ==> fd == -1
  {
    var c := Numeric.StrtolBase0(arg);
    if c.consumed != |arg| then -1 else ToInt32(c.value)
  }

  /** A descriptor printed with "%i" reads back through -o. */
  lemma SocketOptionReadsBack(fd: Int32)
    ensures SocketOption(Numeric.IntString(fd)) == fd
  {
    var s := Numeric.IntString(fd);
    if fd < 0 {
      var n: nat := -(fd as int);
      Numeric.StrtolNegative(n, []);
      assert s + [] == s;
    } else {
      Numeric.StrtolDecimal(fd, []);
      assert s + [] == s;
    }
  }

  /** Anything after the number leaves sock_fd at -1. */
  lemma SocketOptionRejects(fd: Int32, c: char)
    requires c != '\0' && !Numeric.IsHexDigit(c) && c != 'x' && c != 'X'
    ensures SocketOption(Numeric.IntString(fd) + [c]) == -1
  {
    if fd < 0 {
      var n: nat := -(fd as int);
      Numeric.StrtolNegative(n, [c]);
    } else {
      Numeric.StrtolDecimal(fd, [c]);
    }
  }

  /** An argument without a number leaves sock_fd at -1 too. */
  lemma SocketOptionNeedsDigits(c: char)
    requires c != '\0' && !Numeric.IsHexDigit(c)
    ensures SocketOption([c]) == -1
  {
    assert Numeric.SignLength([c]) <= 1;
  }

  /** The buffer a "%s" option argument is copied into, or "" when the option is absent. */
  function PathBuffer(arg: Option<string>): (r: string)
    ensures |r| < MaxLen
    ensures arg.None? ==> r == []
    ensures arg.Some? ==> r == Helpers.Truncated(arg.value, MaxLen)
  {
    if arg.None? then [] else Helpers.Truncated(arg.value, MaxLen)
  }

  /** sock_fd after the options: -1 unless -o was given. */
  function SocketBuffer(arg: Option<string>): Int32
  {
    if arg.None? then -1 else SocketOption(arg.value)
  }

  /** The options that print and exit: -h and -v. */
  predicate Exits(o: Opt)
  {
    o.flag == 'h' || o.flag == 'v'
  }

  /** What -h or -v prints. */
  function ExitText(o: Opt, b: Build): string
  {
    if o.flag == 'h' then b.wmName + " [-h|-v|-c CONFIG_PATH]\n" else b.version + "\n"
  }

  /** The settings the options up to the first -h or -v leave. */
  function Settings(opts: seq<Opt>): (r: Startup)
    ensures r.Start?
    ensures r.runLevel & 1 != 0 <==> exists i | 0 <= i < |opts| :: opts[i].flag == 's'
    ensures r.runLevel & 2 != 0 <==> exists i | 0 <= i < |opts| :: opts[i].flag == 'o'
    ensures r.runLevel & 0xFC == 0
  {
    var s, o := LastArg(opts, 's'), LastArg(opts, 'o');
    Start(PathBuffer(LastArg(opts, 'c')), PathBuffer(s), SocketBuffer(o),
          (if s.Some? then 1 else 0) | (if o.Some? then 2 else 0))
  }

  /** Options other than -h and -v, one step: the buffers and bits of main after it. */
  lemma SettingsStep(opts: seq<Opt>, i: nat)
    requires i < |opts| && !Exits(opts[i])
    ensures var o, before := opts[i], Settings(opts[..i]);
      Settings(opts[..i + 1]) ==
        if o.flag == 'c' then before.(configPath := Helpers.Truncated(o.arg, MaxLen))
        else if o.flag == 's' then before.(runLevel := before.runLevel | 1, statePath := Helpers.Truncated(o.arg, MaxLen))
        else if o.flag == 'o' then before.(runLevel := before.runLevel | 2, sockFd := SocketOption(o.arg))
        else before
  {
    LastArgStep(opts, i, 'c');
    LastArgStep(opts, i, 's');
    LastArgStep(opts, i, 'o');
  }

  /**
   * The getopt loop of main: -h and -v print and exit at once; -c copies
   * the configuration path, -s sets bit 0 of run_level and copies the state
   * path, -o sets bit 1 and reads the socket descriptor; the last of each
   * wins and any other option is ignored.
   */
  method ReadOptions(opts: seq<Opt>, b: Build) returns (r: Startup)
    ensures r.Exit? <==> exists i | 0 <= i < |opts| :: Exits(opts[i])
    ensures r.Exit? ==> exists i | 0 <= i < |opts| ::
      && Exits(opts[i])
      && (forall j | 0 <= j < i :: !Exits(opts[j]))
      && r.out == ExitText(opts[i], b)
    ensures r.Start? ==> r == Settings(opts)
  {
    var configPath, statePath, sockFd, runLevel := "", "", -1, 0 as bv8;
    var i := 0;
    while i < |opts|
      invariant i <= |opts|
      invariant forall j | 0 <= j < i :: !Exits(opts[j])
      invariant Start(configPath, statePath, sockFd, runLevel) == Settings(opts[..i])
    {
      var o := opts[i];
      if o.flag == 'h' {
        return Exit(b.wmName + " [-h|-v|-c CONFIG_PATH]\n");
      } else if o.flag == 'v' {
        return Exit(b.version + "\n");
      }
      configPath, statePath, sockFd, runLevel := ApplyOption(opts, i, configPath, statePath, sockFd, runLevel);
      i := i + 1;
    }
    assert opts[..i] == opts;
    return Start(configPath, statePath, sockFd, runLevel);
  }

  /** The switch of the getopt loop for an option other than -h and -v. */
  method ApplyOption(opts: seq<Opt>, i: nat, configPath: string, statePath: string, sockFd: Int32, runLevel: bv8)
    returns (configPath': string, statePath': string, sockFd': Int32, runLevel': bv8)
    requires i < |opts| && !Exits(opts[i])
    requires Start(configPath, statePath, sockFd, runLevel) == Settings(opts[..i])
    ensures Start(configPath', statePath', sockFd', runLevel') == Settings(opts[..i + 1])
  {
    SettingsStep(opts, i);
    configPath', statePath', sockFd', runLevel' := configPath, statePath, sockFd, runLevel;
    var o := opts[i];
    if o.flag == 'c' {
      configPath' := Helpers.Truncated(o.arg, MaxLen);
    } else if o.flag == 's' {
      runLevel' := runLevel | 1;
      statePath' := Helpers.Truncated(o.arg, MaxLen);
    } else if o.flag == 'o' {
      runLevel' := runLevel | 2;
      sockFd' := SocketOption(o.arg);
    }
  }

  /**
   * The configuration path after the options: the -c path when one was
   * given, else <$CONFIG_HOME_ENV>/WM_NAME/CONFIG_NAME, else
   * $HOME/.config/WM_NAME/CONFIG_NAME, cut to fit the buffer. An unset HOME
   * prints as "(null)", as the GNU C library does.
   */
  function ConfigPath(given: string, b: Build, configHome: Option<string>, home: Option<string>): (r: string)
    requires |given| < MaxLen
    ensures |r| < MaxLen
    ensures given != [] ==> r == given
    ensures given == [] ==> r == Helpers.Truncated(DefaultConfigFile(b, configHome, home), MaxLen)
  {
    if given != [] then given else Helpers.Truncated(DefaultConfigFile(b, configHome, home), MaxLen)
  }

  /** The full default configuration file name, before it is cut to the buffer. */
  function DefaultConfigFile(b: Build, configHome: Option<string>, home: Option<string>): string
  {
    match configHome
    case Some(dir) => dir + "/" + b.wmName + "/" + b.configName
    case None => (if home.Some? then home.value else "(null)") + "/.config/" + b.wmName + "/" + b.configName
  }

  /** The -c path overrides the environment, and CONFIG_HOME_ENV overrides HOME. */
  lemma ConfigPathPrecedence(given: string, b: Build, configHome: Option<string>, home: Option<string>, home': Option<string>)
    requires |given| < MaxLen
    ensures given != [] ==> ConfigPath(given, b, configHome, home) == ConfigPath(given, b, None, home')
    ensures configHome.Some? ==> ConfigPath(given, b, configHome, home) == ConfigPath(given, b, configHome, home')
  {
  }

  /** A default path that fits the buffer names the configuration file inside the directory given. */
  lemma ConfigPathInHome(b: Build, dir: string, home: Option<string>)
    requires |dir + "/" + b.wmName + "/" + b.configName| < MaxLen
    ensures var r := ConfigPath([], b, Some(dir), home);
      && r[..|dir|] == dir
      && r[|r| - |b.configName|..] == b.configName
      && r[|r| - |b.configName| - 1] == '/'
  {
    var r := ConfigPath([], b, Some(dir), home);
    assert r == dir + "/" + b.wmName + "/" + b.configName;
  }

  // ---------------------------------------------------------------------
  // Restart
  // ---------------------------------------------------------------------

  /** rargc: the index of the first "-s" argument, or argc when there is none. */
  function KeptArgs(argv: seq<string>): (k: nat)
    ensures k <= |argv|
    ensures forall j | 0 <= j < k :: argv[j] != "-s"
    ensures k == |argv| || argv[k] == "-s"
  {
    if |argv| == 0 || argv[0] == "-s" then 0 else 1 + KeptArgs(argv[1..])
  }

  /** The argument vector execvp receives on a restart, without the NULL that ends it. */
  function RestartArgv(argv: seq<string>, statePath: string, sockFd: Int32): (r: seq<string>)
  {
    argv[..KeptArgs(argv)] + ["-s", statePath, "-o", Numeric.IntString(sockFd)]
  }

  /** The strings of a NULL-terminated vector, up to its first NULL. */
  function Strings(v: seq<Option<string>>): seq<string>
  {
    if |v| == 0 || v[0].None? then [] else [v[0].value] + Strings(v[1..])
  }

  /**
   * The restart vector of main: argv up to the first "-s", then "-s",
   * state_path, "-o", the socket descriptor in decimal and NULL, for
   * rargc + 5 slots.
   */
  method BuildRestartArgv(argv: seq<string>, statePath: string, sockFd: Int32) returns (rargv: array<Option<string>>)
    ensures rargv.Length == KeptArgs(argv) + 5 && rargv[rargv.Length - 1].None?
    ensures Strings(rargv[..]) == RestartArgv(argv, statePath, sockFd)
  {
    var rargc := FindStateFlag(argv);
    rargv := new Option<string>[rargc + 5];
    for i := 0 to rargc
      invariant forall j | 0 <= j < i :: rargv[j] == Some(argv[j])
    {
      rargv[i] := Some(argv[i]);
    }
    var sockFdArg := Numeric.IntString(sockFd);
    ghost var s := argv[..rargc] + ["-s", statePath, "-o", sockFdArg];
    assert forall j | 0 <= j < rargc :: rargv[j] == Some(s[j]);
    rargv[rargc] := Some("-s");
    assert forall j | 0 <= j < rargc + 1 :: rargv[j] == Some(s[j]);
    rargv[rargc + 1] := Some(statePath);
    assert forall j | 0 <= j < rargc + 2 :: rargv[j] == Some(s[j]);
    rargv[rargc + 2] := Some("-o");
    assert forall j | 0 <= j < rargc + 3 :: rargv[j] == Some(s[j]);
    rargv[rargc + 3] := Some(sockFdArg);
    assert forall j | 0 <= j < rargc + 4 :: rargv[j] == Some(s[j]);
    rargv[rargc + 4] := None;
    StringsOfVector(rargv[..], s);
  }

  /** The loop over argv that stops at the first "-s": it finds rargc. */
  method FindStateFlag(argv: seq<string>) returns (rargc: nat)
    ensures rargc == KeptArgs(argv)
  {
    rargc := 0;
    while rargc < |argv|
      invariant rargc <= |argv|
      invariant forall j | 0 <= j < rargc :: argv[j] != "-s"
    {
      if argv[rargc] == "-s" {
        break;
      }
      rargc := rargc + 1;
    }
    KeptArgsIsFirst(argv, rargc);
  }

  /** The first "-s" is the only index with no "-s" before it and "-s" at it (or the end). */
  lemma {:induction false} KeptArgsIsFirst(argv: seq<string>, k: nat)
    requires k <= |argv|
    requires forall j | 0 <= j < k :: argv[j] != "-s"
    requires k == |argv| || argv[k] == "-s"
    ensures KeptArgs(argv) == k
    decreases k
  {
    if k > 0 {
      KeptArgsIsFirst(argv[1..], k - 1);
    }
  }

  /** A vector of `s` followed by NULL holds exactly the strings `s`. */
  lemma {:induction false} StringsOfVector(v: seq<Option<string>>, s: seq<string>)
    requires |v| == |s| + 1 && v[|s|].None?
    requires forall j | 0 <= j < |s| :: v[j] == Some(s[j])
    ensures Strings(v) == s
    decreases |s|
  {
    if |s| > 0 {
      StringsOfVector(v[1..], s[1..]);
      assert s == [s[0]] + s[1..];
    }
  }

  /**
   * Restarting twice keeps the original arguments once: only the latest
   * state path and descriptor are passed on.
   */
  lemma RestartArgvStable(argv: seq<string>, s1: string, f1: Int32, s2: string, f2: Int32)
    ensures RestartArgv(RestartArgv(argv, s1, f1), s2, f2) == RestartArgv(argv, s2, f2)
  {
    var k := KeptArgs(argv);
    var r := RestartArgv(argv, s1, f1);
    KeptArgsIsFirst(r, k);
    assert r[..k] == argv[..k];
  }

  /** The successor reads the state path and the descriptor back from the last four arguments. */
  lemma RestartHandsOver(argv: seq<string>, statePath: string, sockFd: Int32)
    ensures var r := RestartArgv(argv, statePath, sockFd);
      && |r| == KeptArgs(argv) + 4
      && r[|r| - 4] == "-s" && r[|r| - 3] == statePath && r[|r| - 2] == "-o"
      && SocketOption(r[|r| - 1]) == sockFd
  {
    SocketOptionReadsBack(sockFd);
  }

  // ---------------------------------------------------------------------
  // The main loop
  // ---------------------------------------------------------------------

  /** An X event, by its response type and the window it concerns. */
  datatype XEvent = XEvent(responseType: nat, window: Numeric.Word32)

  /** A window waiting for the external rules command, its descriptor and the events queued for it. */
  datatype PendingRule = PendingRule(win: Numeric.Word32, fd: int, events: seq<XEvent>)

  /** What the loop hands on: a replayed or a fresh X event, a client's command, or a warning. */
  datatype Action =
    | Replay(event: XEvent)
    | Command(msg: string)
    | ClientWarning
    | Dispatch(event: XEvent)

  /** What accept(), recv() and fdopen() give for a waiting client. */
  datatype Client = Client(fd: int, sent: Option<string>, streamOk: bool)

  /** The rules among the first n that a pass keeps: those whose descriptor is not ready, in order. */
  function Waiting(rules: seq<PendingRule>, ready: set<int>, n: nat): (r: seq<PendingRule>)
    requires n <= |rules|
    ensures |r| <= n
  {
    if n == 0 then []
    else Waiting(rules, ready, n - 1) + (if rules[n - 1].fd in ready then [] else [rules[n - 1]])
  }

  /** The rules among the first n that a pass resolves, in order. */
  function ReadyRules(rules: seq<PendingRule>, ready: set<int>, n: nat): seq<PendingRule>
    requires n <= |rules|
  {
    if n == 0 then []
    else ReadyRules(rules, ready, n - 1) + (if rules[n - 1].fd in ready then [rules[n - 1]] else [])
  }

  /**
   * The events a pass over the first n rules replays: the queues of the
   * ready rules manage_window accepted, in list order.
   */
  function Replays(rules: seq<PendingRule>, ready: set<int>, manages: PendingRule -> bool, n: nat): seq<Action>
    requires n <= |rules|
  {
    if n == 0 then []
    else
      var pr := rules[n - 1];
      Replays(rules, ready, manages, n - 1) + (if pr.fd in ready && manages(pr) then Replayed(pr.events) else [])
  }

  function Replayed(events: seq<XEvent>): (r: seq<Action>)
    ensures |r| == |events|
    ensures forall i | 0 <= i < |r| :: r[i] == Replay(events[i])
  {
    if |events| == 0 then [] else Replayed(events[..|events| - 1]) + [Replay(events[|events| - 1])]
  }

  /** The socket's share of a pass: at most one client, whose message is handled or warned about. */
  function Serviced(c: Client): (r: seq<Action>)
    ensures |r| <= 1
  {
    if c.fd > 0 && c.sent.Some? && |c.sent.value| > 0 then
      var n := Helpers.Min(|c.sent.value|, BufSiz - 1);
      if c.streamOk then [Command(c.sent.value[..n])] else [ClientWarning]
    else []
  }

  function Dispatched(events: seq<XEvent>): (r: seq<Action>)
    ensures |r| == |events|
    ensures forall i | 0 <= i < |r| :: r[i] == Dispatch(events[i])
  {
    if |events| == 0 then [] else Dispatched(events[..|events| - 1]) + [Dispatch(events[|events| - 1])]
  }

  /** The rules a pass keeps are exactly those whose descriptor is not ready. */
  lemma {:induction false} WaitingMembers(rules: seq<PendingRule>, ready: set<int>, n: nat)
    requires n <= |rules|
    ensures forall x :: x in Waiting(rules, ready, n) <==> x in rules[..n] && x.fd !in ready
  {
    if n > 0 {
      WaitingMembers(rules, ready, n - 1);
      assert rules[..n] == rules[..n - 1] + [rules[n - 1]];
    }
  }

  /** Every rule is either kept or resolved, exactly once. */
  lemma {:induction false} WaitingSplits(rules: seq<PendingRule>, ready: set<int>, n: nat)
    requires n <= |rules|
    ensures SplitOf(Waiting(rules, ready, n), ReadyRules(rules, ready, n), rules[..n])
  {
    if n == 0 {
      SplitsEmpty(rules, ready);
    } else {
      WaitingSplits(rules, ready, n - 1);
      SplitsExtend(rules, ready, n);
    }
  }

  /** `kept` and `resolved` hold together exactly the elements of `all`. */
  ghost predicate SplitOf(kept: seq<PendingRule>, resolved: seq<PendingRule>, all: seq<PendingRule>)
  {
    forall x :: multiset(kept)[x] + multiset(resolved)[x] == multiset(all)[x]
  }

  /** No rules split into nothing. */
  lemma SplitsEmpty(rules: seq<PendingRule>, ready: set<int>)
    ensures SplitOf(Waiting(rules, ready, 0), ReadyRules(rules, ready, 0), rules[..0])
  {
    assert rules[..0] == [];
  }

  /** A split of the first n - 1 rules extends to the first n. */
  lemma SplitsExtend(rules: seq<PendingRule>, ready: set<int>, n: nat)
    requires 0 < n <= |rules|
    requires SplitOf(Waiting(rules, ready, n - 1), ReadyRules(rules, ready, n - 1), rules[..n - 1])
    ensures SplitOf(Waiting(rules, ready, n), ReadyRules(rules, ready, n), rules[..n])
  {
    var w, rr, x := Waiting(rules, ready, n - 1), ReadyRules(rules, ready, n - 1), rules[n - 1];
    var w', rr' := Waiting(rules, ready, n), ReadyRules(rules, ready, n);
    assert multiset(rules[..n]) == multiset(rules[..n - 1]) + multiset{x} by {
      assert rules[..n] == rules[..n - 1] + [x];
    }
    assert multiset(w') + multiset(rr') == multiset(w) + multiset(rr) + multiset{x} by {
      if x.fd in ready {
        assert w' == w && rr' == rr + [x];
      } else {
        assert w' == w + [x] && rr' == rr;
      }
    }
  }

  /** So a pass keeps and resolves n rules between them. */
  lemma {:induction false} WaitingCount(rules: seq<PendingRule>, ready: set<int>, n: nat)
    requires n <= |rules|
    ensures |Waiting(rules, ready, n)| + |ReadyRules(rules, ready, n)| == n
  {
    if n > 0 {
      WaitingCount(rules, ready, n - 1);
    }
  }

  /** Rules that are not ready, or that manage_window rejects, replay nothing. */
  lemma {:induction false} ReplaysOnlyAccepted(rules: seq<PendingRule>, ready: set<int>, manages: PendingRule -> bool, n: nat)
    requires n <= |rules|
    requires forall i | 0 <= i < n :: rules[i].fd !in ready || !manages(rules[i])
    ensures Replays(rules, ready, manages, n) == []
  {
    if n > 0 {
      ReplaysOnlyAccepted(rules, ready, manages, n - 1);
    }
  }

  /** A pass replays every event of every accepted ready rule: its queue appears whole in the replay. */
  lemma {:induction false} ReplaysContain(rules: seq<PendingRule>, ready: set<int>, manages: PendingRule -> bool, n: nat, k: nat)
    requires k < n <= |rules|
    requires rules[k].fd in ready && manages(rules[k])
    ensures exists p: nat :: OccursAt(Replays(rules, ready, manages, n), p, Replayed(rules[k].events))
  {
    var e := Replayed(rules[k].events);
    var prev := Replays(rules, ready, manages, n - 1);
    var pr := rules[n - 1];
    var ext := if pr.fd in ready && manages(pr) then Replayed(pr.events) else [];
    var r := Replays(rules, ready, manages, n);
    assert r == prev + ext;
    if k == n - 1 {
      assert ext == e;
      OccursAtEnd(prev, e);
      assert OccursAt(r, |prev|, e);
    } else {
      ReplaysContain(rules, ready, manages, n - 1, k);
      var p: nat :| OccursAt(prev, p, e);
      OccursExtended(prev, ext, p, e);
      assert OccursAt(r, p, e);
    }
  }

  /** `part` occurs at the end of `whole + part`. */
  lemma OccursAtEnd<T>(whole: seq<T>, part: seq<T>)
    ensures OccursAt(whole + part, |whole|, part)
  {
    assert (whole + part)[|whole|..|whole| + |part|] == part;
  }

  /** An occurrence survives appending to the sequence it is in. */
  lemma OccursExtended<T>(whole: seq<T>, ext: seq<T>, p: nat, part: seq<T>)
    requires OccursAt(whole, p, part)
    ensures OccursAt(whole + ext, p, part)
  {
    assert (whole + ext)[p..p + |part|] == whole[p..p + |part|];
  }

  /** `part` occurs in `whole` from position p on. */
  predicate OccursAt<T(==)>(whole: seq<T>, p: nat, part: seq<T>)
  {
    p + |part| <= |whole| && whole[p..p + |part|] == part
  }

  /** Removing the element after `a` leaves `a` and `b`. */
  lemma RemoveAt<T>(a: seq<T>, x: T, b: seq<T>)
    ensures var s := a + [x] + b; s[..|a|] + s[|a| + 1..] == a + b
  {
    var s := a + [x] + b;
    assert s[..|a|] == a && s[|a| + 1..] == b;
  }

  /** The daemon's lists and the log of what its loop handed on. */
  class Daemon {
    var pending: seq<PendingRule>
    var log: seq<Action>
    var monitors: seq<nat>
    var rules: seq<nat>
    var history: seq<nat>
    var focusedMonitor: Option<nat>
    var subs: Subscribe.SubscriberList

    constructor(subs: Subscribe.SubscriberList)
      ensures pending == [] && log == [] && monitors == [] && rules == [] && history == []
      ensures focusedMonitor.None? && this.subs == subs
    {
      pending, log, monitors, rules, history := [], [], [], [], [];
      focusedMonitor := None;
      this.subs := subs;
    }

    /** remove_pending_rule: unlinks the k-th pending rule. */
    method RemovePendingRule(k: nat)
      requires k < |pending|
      modifies this`pending
      ensures pending == old(pending[..k] + pending[k + 1..])
    {
      pending := pending[..k] + pending[k + 1..];
    }

    /** handle_event on each queued event of a rule, in queue order. */
    method ReplayQueue(events: seq<XEvent>)
      modifies this`log
      ensures log == old(log) + Replayed(events)
    {
      var i := 0;
      while i < |events|
        invariant i <= |events|
        invariant log == old(log) + Replayed(events[..i])
      {
        assert events[..i + 1][..i] == events[..i];
        log := log + [Replay(events[i])];
        i := i + 1;
      }
      assert events[..i] == events;
    }

    /**
     * The pending-rule walk of one pass: every rule whose descriptor is
     * ready is resolved in list order; its queue is replayed only when
     * manage_window accepts it, and it is removed either way.
     */
    method ResolvePending(ready: set<int>, manages: PendingRule -> bool)
      modifies this`pending, this`log
      ensures pending == Waiting(old(pending), ready, |old(pending)|)
      ensures log == old(log) + Replays(old(pending), ready, manages, |old(pending)|)
    {
      var walk := pending;
      var i, kept := 0, 0;
      while i < |walk|
        invariant i <= |walk| && kept + (|walk| - i) == |pending|
        invariant pending == Waiting(walk, ready, i) + walk[i..]
        invariant log == old(log) + Replays(walk, ready, manages, i)
      {
        var pr := walk[i];
        ghost var w, rest := Waiting(walk, ready, i), walk[i + 1..];
        ghost var done := Replays(walk, ready, manages, i);
        assert pending == w + [pr] + rest by {
          assert walk[i..] == [pr] + rest;
          Bspc.Assoc(w, [pr], rest);
        }
        ResolveOne(pr, kept, ready, manages, w, rest);
        Bspc.Assoc(old(log), done, if pr.fd in ready && manages(pr) then Replayed(pr.events) else []);
        if pr.fd !in ready {
          kept := kept + 1;
        }
        i := i + 1;
      }
    }

    /**
     * The body of the pending-rule walk for the rule `pr`, which sits after
     * the `kept` rules `w`: when its descriptor is ready its queue is
     * replayed if manage_window accepts it, and it is removed either way.
     */
    method ResolveOne(pr: PendingRule, kept: nat, ready: set<int>, manages: PendingRule -> bool,
                      ghost w: seq<PendingRule>, ghost rest: seq<PendingRule>)
      requires pending == w + [pr] + rest && kept == |w|
      modifies this`pending, this`log
      ensures pending == w + (if pr.fd in ready then [] else [pr]) + rest
      ensures log == old(log) + (if pr.fd in ready && manages(pr) then Replayed(pr.events) else [])
    {
      if pr.fd in ready {
        if manages(pr) {
          ReplayQueue(pr.events);
        } else {
          assert log + [] == log;
        }
        RemovePendingRule(kept);
        RemoveAt(w, pr, rest);
        assert w + [] == w;
      } else {
        assert log + [] == log;
      }
    }

    /**
     * One pass of the main loop after select() returned with `ready`: the
     * pending rules first, then at most one client on the socket, then
     * every event the display connection has queued. Nothing happens when
     * no descriptor is ready.
     */
    method Pass(ready: set<int>, sockFd: int, dpyFd: int, manages: PendingRule -> bool, client: Client, events: seq<XEvent>)
      modifies this`pending, this`log
      ensures ready == {} ==> pending == old(pending) && log == old(log)
      ensures ready != {} ==>
        && pending == Waiting(old(pending), ready, |old(pending)|)
        && log == old(log) + Replays(old(pending), ready, manages, |old(pending)|)
             + (if sockFd in ready then Serviced(client) else [])
             + (if dpyFd in ready then Dispatched(events) else [])
    {
      if ready == {} {
        return;
      }
      ResolvePending(ready, manages);
      if sockFd in ready {
        ServeClient(client);
      } else {
        assert log + [] == log;
      }
      if dpyFd in ready {
        DispatchEvents(events);
      } else {
        assert log + [] == log;
      }
    }

    /** The socket's turn: the accepted client's message is handled, or warned about when it cannot be answered. */
    method ServeClient(client: Client)
      modifies this`log
      ensures log == old(log) + Serviced(client)
    {
      if client.fd > 0 && client.sent.Some? && |client.sent.value| > 0 {
        var n := Helpers.Min(|client.sent.value|, BufSiz - 1);
        if client.streamOk {
          log := log + [Command(client.sent.value[..n])];
        } else {
          log := log + [ClientWarning];
        }
      } else {
        assert log + [] == log;
      }
    }

    /** handle_event on every event the display connection has queued, in order. */
    method DispatchEvents(events: seq<XEvent>)
      modifies this`log
      ensures log == old(log) + Dispatched(events)
    {
      var i := 0;
      while i < |events|
        invariant i <= |events|
        invariant log == old(log) + Dispatched(events[..i])
      {
        assert events[..i + 1][..i] == events[..i];
        log := log + [Dispatch(events[i])];
        i := i + 1;
      }
      assert events[..i] == events;
    }

    /**
     * cleanup: drains the monitor, rule, subscriber and pending-rule lists
     * from their heads and empties the history; the subscribers' streams
     * are released in list order.
     */
    method Cleanup(restart: bool) returns (released: seq<Subscribe.Release>)
      modifies this, subs
      ensures monitors == [] && rules == [] && pending == [] && history == [] && focusedMonitor.None?
      ensures log == old(log)
      ensures subs == old(subs) && subs.subscribers == []
      ensures |released| == |old(subs.subscribers)|
      ensures forall i | 0 <= i < |released| :: released[i] == Subscribe.ReleaseOf(old(subs.subscribers)[i], restart)
    {
      focusedMonitor := None;
      while monitors != []
        invariant focusedMonitor.None? && subs == old(subs) && subs.subscribers == old(subs.subscribers)
        invariant log == old(log)
        decreases |monitors|
      {
        monitors := monitors[1..];
      }
      while rules != []
        invariant monitors == [] && focusedMonitor.None? && subs == old(subs) && subs.subscribers == old(subs.subscribers)
        invariant log == old(log)
        decreases |rules|
      {
        rules := rules[1..];
      }
      released := [];
      while subs.subscribers != []
        invariant monitors == [] && rules == [] && focusedMonitor.None? && subs == old(subs)
        invariant log == old(log)
        invariant |released| + |subs.subscribers| == |old(subs.subscribers)|
        invariant subs.subscribers == old(subs.subscribers)[|released|..]
        invariant forall i | 0 <= i < |released| :: released[i] == Subscribe.ReleaseOf(old(subs.subscribers)[i], restart)
        decreases |subs.subscribers|
      {
        var one := subs.Remove(Some(0), restart);
        released := released + one;
      }
      while pending != []
        invariant monitors == [] && rules == [] && focusedMonitor.None?
        invariant subs == old(subs) && subs.subscribers == []
        invariant log == old(log)
        decreases |pending|
      {
        RemovePendingRule(0);
      }
      history := [];
    }
  }
}
