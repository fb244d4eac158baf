/**
 * The command-line client bspc (src/bspc.c): it chooses the socket path,
 * packs its arguments into one request of NUL-terminated strings, sends it,
 * and copies the daemon's answer to standard output or, when an answer
 * chunk starts with the failure byte 0x07, to standard error with a failing
 * exit status.
 *
 * The operating system is replaced by inputs: the environment variable, the
 * parsed display name, whether socket(), connect() and send() succeed, and
 * the sequence of poll() wake-ups with the data recv() returned.
 */
module Bspc {
  import opened Wrappers
  import Numeric
  import Helpers

  /** EXIT_SUCCESS and EXIT_FAILURE. */
  const ExitSuccess: int := 0
  const ExitFailure: int := 1

  /** SOCKET_ENV_VAR, the variable that overrides the socket path. */
  const SocketEnvVar: string := "BSPWM_SOCKET"

  /** FAILURE_MESSAGE[0], the byte that opens an error answer. */
  const FailureByte: char := 7 as char

  /** sizeof(sun_path) of a Unix socket address on Linux. */
  const SunPathSize: nat := 108

  /** The option that prints the socket path instead of sending a request. */
  const PrintSocketPath: string := "--print-socket-path"

  /** Program arguments are C strings: none of them holds a NUL. */
  predicate CArgs(args: seq<string>)
  {
    forall i | 0 <= i < |args| :: '\0' !in args[i]
  }

  // ---------------------------------------------------------------------
  // Socket path
  // ---------------------------------------------------------------------

  /** What xcb_parse_display reports: host name, display and screen number. */
  datatype Display = Display(host: string, display: int, screen: int)

  /** SOCKET_PATH_TPL, "/tmp/bspwm%s_%i_%i-socket", filled in for `d`. */
  function TemplatePath(d: Display): string
  {
    "/tmp/bspwm" + d.host + "_" + Numeric.IntString(d.display) + "_" + Numeric.IntString(d.screen) + "-socket"
  }

  /**
   * The socket path bspc connects to: $BSPWM_SOCKET when it is set, else the
   * template filled in from the display name; `None` when neither is
   * available, where the C buffer is left uninitialised.
   */
  function SocketPath(env: Option<string>, display: Option<Display>): (r: Option<string>)
    ensures r.Some? <==> env.Some? || display.Some?
    ensures r.Some? ==> |r.value| < SunPathSize
    ensures env.Some? ==> r.value <= env.value
    ensures env.Some? && |env.value| < SunPathSize ==> r == env
    ensures env.None? && display.Some? ==> r.value <= TemplatePath(display.value)
  {
    if env.Some? then Some(Helpers.Truncated(env.value, SunPathSize))
    else if display.Some? then Some(Helpers.Truncated(TemplatePath(display.value), SunPathSize))
    else None
  }

  // ---------------------------------------------------------------------
  // Request framing
  // ---------------------------------------------------------------------

  /** The request the arguments stand for: each one followed by a NUL. */
  function Frame(args: seq<string>): (msg: string)
    ensures |msg| >= |args|
  {
    if |args| == 0 then [] else args[0] + ['\0'] + Frame(args[1..])
  }

  /** Framing distributes over a split of the argument list. */
  lemma {:induction false} FrameAppend(a: seq<string>, b: seq<string>)
    ensures Frame(a + b) == Frame(a) + Frame(b)
    decreases |a|
  {
    if |a| == 0 {
      assert a + b == b;
    } else {
      assert (a + b)[1..] == a[1..] + b;
      FrameAppend(a[1..], b);
    }
  }

  /** The arguments the daemon reads back from a request: NUL-terminated fields. */
  function Unframe(msg: string): (args: seq<string>)
    ensures CArgs(args)
    decreases |msg|
  {
    if |msg| == 0 then []
    else
      var f := Helpers.CStr(msg);
      if |f| == |msg| then [f] else [f] + Unframe(msg[|f| + 1..])
  }

  /** A C string followed by its NUL reads back as itself. */
  lemma {:induction false} CStrOfTerminated(a: string, rest: string)
    requires '\0' !in a
    ensures Helpers.CStr(a + ['\0'] + rest) == a
    decreases |a|
  {
    if |a| > 0 {
      assert (a + ['\0'] + rest)[1..] == a[1..] + ['\0'] + rest;
      CStrOfTerminated(a[1..], rest);
      assert [a[0]] + a[1..] == a;
    }
  }

  /** Reading a request back yields the arguments it was made from. */
  lemma {:induction false} UnframeFrame(args: seq<string>)
    requires CArgs(args)
    ensures Unframe(Frame(args)) == args
    decreases |args|
  {
    if |args| > 0 {
      var msg := Frame(args);
      CStrOfTerminated(args[0], Frame(args[1..]));
      assert msg[|args[0]| + 1..] == Frame(args[1..]);
      UnframeFrame(args[1..]);
      assert [args[0]] + args[1..] == args;
    }
  }

  /** Different argument lists never make the same request. */
  lemma FrameInjective(a: seq<string>, b: seq<string>)
    requires CArgs(a) && CArgs(b) && Frame(a) == Frame(b)
    ensures a == b
  {
    UnframeFrame(a);
    UnframeFrame(b);
  }

  /**
   * snprintf(buf + offset, rem, "%s", text) for rem > 0: the first rem - 1
   * characters of `text` (all of it when it fits) and then a NUL are
   * written; the untruncated length of `text` is returned.
   */
  method Snprintf(buf: array<char>, offset: nat, rem: nat, text: string) returns (n: nat)
    requires 0 < rem && offset + rem <= buf.Length
    modifies buf
    ensures n == |text|
    ensures Wrote(old(buf[..]), buf[..], offset, rem, text)
  {
    var w := if |text| < rem - 1 then |text| else rem - 1;
    var j := 0;
    while j < w
      invariant j <= w
      invariant forall i | 0 <= i < buf.Length ::
        buf[i] == (if offset <= i < offset + j then text[i - offset] else old(buf[i]))
    {
      buf[offset + j] := text[j];
      j := j + 1;
    }
    buf[offset + w] := '\0';
    n := |text|;
    assert forall i | 0 <= i < buf.Length :: buf[..][i] == buf[i];
  }

  /**
   * `after` is `before` with snprintf's output for `text` at `offset` in a
   * room of `rem`: the first rem - 1 characters of `text` at most, then a NUL.
   */
  ghost predicate Wrote(before: seq<char>, after: seq<char>, offset: nat, rem: nat, text: string)
  {
    && 0 < rem && |before| == |after| && offset + rem <= |after|
    && var w := Helpers.Min(|text|, rem - 1);
      forall i | 0 <= i < |after| ::
        after[i] == (if offset <= i < offset + w then text[i - offset]
                     else if i == offset + w then '\0'
                     else before[i])
  }

  /** A non-empty request ends with the NUL of its last argument. */
  lemma {:induction false} FrameEndsWithNul(args: seq<string>)
    requires |args| > 0
    ensures Frame(args)[|Frame(args)| - 1] == '\0'
    decreases |args|
  {
    if |args| > 1 {
      FrameEndsWithNul(args[1..]);
    }
  }

  /**
   * The value the framing loop gives msg_len: the full length of each
   * argument's "%s%c" output, summed while the remaining room `rem` is
   * positive before the call.
   */
  function WrittenLength(args: seq<string>, rem: int): (n: nat)
    ensures n <= |Frame(args)|
  {
    if |args| == 0 || rem <= 0 then 0
    else |args[0]| + 1 + WrittenLength(args[1..], rem - |args[0]| - 1)
  }

  /**
   * One round of the framing loop writes argument `a` and its NUL after a
   * correct prefix; when it fits (the room is at least its length), the
   * prefix grows by exactly that text.
   */
  lemma FittingStep(before: seq<char>, after: seq<char>, offset: nat, rem: nat, text: string)
    requires 0 < |text| <= rem && text[|text| - 1] == '\0'
    requires Wrote(before, after, offset, rem, text)
    ensures after[..offset + |text|] == before[..offset] + text
  {
    var w := Helpers.Min(|text|, rem - 1);
    forall i | 0 <= i < offset + |text|
      ensures after[i] == (before[..offset] + text)[i]
    {
      if i < offset {
      } else if i < offset + w {
      } else {
        assert i == offset + w && w == |text| - 1;
      }
    }
  }

  /**
   * One round of the framing loop, snprintf(msg + offset, rem, "%s%c", arg, 0),
   * after the request so far, `done`: the argument and its NUL are appended
   * when they fit, else the buffer ends with a NUL in place of the rest.
   */
  method PutArg(msg: array<char>, offset: nat, rem: nat, arg: string, ghost done: string) returns (n: nat)
    requires 0 < rem && offset + rem == msg.Length
    requires |done| == offset && msg[..offset] == done
    modifies msg
    ensures n == |arg| + 1
    ensures n <= rem ==> msg[..offset + n] == done + arg + ['\0']
    ensures n > rem ==> msg[..] == (done + arg + ['\0'])[..msg.Length - 1] + ['\0']
  {
    var text := arg + ['\0'];
    ghost var before := msg[..];
    n := Snprintf(msg, offset, rem, text);
    if n <= rem {
      FittingStep(before, msg[..], offset, rem, text);
    } else {
      TruncatingStep(before, msg[..], offset, rem, text, done);
    }
  }

  /**
   * The framing loop as written: msg_len adds snprintf's untruncated count,
   * so when the arguments do not fit the length sent exceeds the buffer.
   * When they fit, the buffer holds exactly the framed request.
   */
  method FrameAsWritten(args: seq<string>, msg: array<char>) returns (msgLen: int)
    requires CArgs(args)
    modifies msg
    ensures msgLen == WrittenLength(args, msg.Length)
    ensures |Frame(args)| <= msg.Length ==> msgLen == |Frame(args)| && msg[..msgLen] == Frame(args)
  {
    msgLen := 0;
    var offset, rem, k := 0, msg.Length, 0;
    while k < |args| && rem > 0
      invariant k <= |args|
      invariant offset == msgLen == |Frame(args[..k])| && rem == msg.Length - offset
      invariant msgLen + WrittenLength(args[k..], rem) == WrittenLength(args, msg.Length)
      invariant rem >= 0 ==> msg[..offset] == Frame(args[..k])
    {
      assert args[k..][1..] == args[k + 1..];
      FrameGrows(args, k);
      var n := PutArg(msg, offset, rem, args[k], Frame(args[..k]));
      msgLen := msgLen + n;
      offset, rem, k := offset + n, rem - n, k + 1;
    }
    if k < |args| {
      FrameAppend(args[..k], args[k..]);
      assert args[..k] + args[k..] == args;
      assert |Frame(args[k..])| >= |args[k]| + 1;
    } else {
      assert args[..k] == args;
    }
  }

  /** The request for one more argument. */
  lemma FrameGrows(args: seq<string>, k: nat)
    requires k < |args|
    ensures Frame(args[..k + 1]) == Frame(args[..k]) + args[k] + ['\0']
  {
    FrameAppend(args[..k], [args[k]]);
    assert args[..k + 1] == args[..k] + [args[k]];
    assert [args[k]][1..] == [];
  }

  /** With one argument longer than the buffer, msg_len passes the buffer's end. */
  lemma {:induction false} FrameOverrun(size: nat)
    requires size > 0
    ensures var args := [seq(size, _ => 'a')];
      CArgs(args) && |Frame(args)| == size + 1 && WrittenLength(args, size) == size + 1
  {
    var args := [seq(size, _ => 'a')];
    assert args[1..] == [];
    assert WrittenLength(args[1..], -1) == 0;
  }

  /**
   * The framing loop with msg_len counting only what lands in the buffer:
   * the whole request when it fits, else the buffer, whose last byte is
   * the NUL snprintf wrote in place of the rest.
   */
  method FrameRequest(args: seq<string>, msg: array<char>) returns (msgLen: nat)
    requires CArgs(args) && msg.Length > 0
    modifies msg
    ensures msgLen == Helpers.Min(|Frame(args)|, msg.Length)
    ensures |Frame(args)| <= msg.Length ==> msg[..msgLen] == Frame(args)
    ensures |Frame(args)| > msg.Length ==> msg[..msgLen] == Frame(args)[..msgLen - 1] + ['\0']
  {
    msgLen := 0;
    var offset, rem, k := 0, msg.Length, 0;
    while k < |args| && rem > 0
      invariant k <= |args|
      invariant offset == |Frame(args[..k])| && rem == msg.Length - offset
      invariant msgLen == Helpers.Min(offset, msg.Length)
      invariant rem >= 0 ==> msg[..offset] == Frame(args[..k])
      invariant rem < 0 ==> msg[..] == Frame(args[..k])[..msg.Length - 1] + ['\0']
    {
      FrameGrows(args, k);
      var n := PutArg(msg, offset, rem, args[k], Frame(args[..k]));
      msgLen := msgLen + Helpers.Min(n, rem);
      offset, rem, k := offset + n, rem - n, k + 1;
    }
    if k == |args| {
      assert args[..k] == args;
    } else {
      TruncatedRequest(args, k, msg.Length, msg[..]);
      assert msg[..msgLen] == msg[..];
    }
  }

  /** When the loop stopped early, the buffer is the request cut one byte short and NUL-terminated. */
  lemma TruncatedRequest(args: seq<string>, k: nat, size: nat, m: seq<char>)
    requires k < |args| && 0 < size <= |Frame(args[..k])| && |m| == size
    requires |Frame(args[..k])| == size ==> m == Frame(args[..k])
    requires |Frame(args[..k])| > size ==> m == Frame(args[..k])[..size - 1] + ['\0']
    ensures |Frame(args)| > size && m == Frame(args)[..size - 1] + ['\0']
  {
    FrameAppend(args[..k], args[k..]);
    assert args[..k] + args[k..] == args;
    assert |Frame(args[k..])| >= |args[k]| + 1;
    if |Frame(args[..k])| == size {
      FrameEndsWithNul(args[..k]);
    } else {
      assert Frame(args)[..size - 1] == Frame(args[..k])[..size - 1];
    }
  }

  /** A round that does not fit leaves the buffer's last byte a NUL after the request's start. */
  lemma TruncatingStep(before: seq<char>, after: seq<char>, offset: nat, rem: nat, text: string, done: string)
    requires rem < |text| && Wrote(before, after, offset, rem, text)
    requires |after| == offset + rem && |done| == offset && before[..offset] == done
    ensures after == (done + text)[..|after| - 1] + ['\0']
  {
    forall i | 0 <= i < |after|
      ensures after[i] == ((done + text)[..|after| - 1] + ['\0'])[i]
    {
      if i < offset {
        assert before[..offset][i] == before[i];
      }
    }
  }

  // ---------------------------------------------------------------------
  // Answer handling
  // ---------------------------------------------------------------------

  /**
   * One wake-up of poll(): `data` is None when the socket was not readable,
   * Some([]) when recv() returned zero or less, else the bytes received;
   * `hangup` reports POLLERR or POLLHUP on standard output.
   */
  datatype PollResult = PollResult(data: Option<string>, hangup: bool)

  /** The chunks the answer loop handles, in the order they arrived. */
  function Received(polls: seq<PollResult>): (chunks: seq<string>)
    ensures forall i | 0 <= i < |chunks| :: |chunks[i]| > 0
  {
    if |polls| == 0 then []
    else
      var p := polls[0];
      if p.data == Some([]) then []
      else
        var here := if p.data.Some? then [p.data.value] else [];
        if p.hangup then here else here + Received(polls[1..])
  }

  /** A chunk whose first byte is the failure byte is an error answer. */
  predicate IsFailure(chunk: string)
  {
    |chunk| > 0 && chunk[0] == FailureByte
  }

  /** What reaches standard output: each ordinary chunk up to its first NUL. */
  function StdoutText(chunks: seq<string>): string
  {
    if |chunks| == 0 then []
    else
      var last := chunks[|chunks| - 1];
      StdoutText(chunks[..|chunks| - 1]) + (if IsFailure(last) then [] else Helpers.CStr(last))
  }

  /** What reaches standard error: each error chunk after its failure byte. */
  function StderrText(chunks: seq<string>): string
  {
    if |chunks| == 0 then []
    else
      var last := chunks[|chunks| - 1];
      StderrText(chunks[..|chunks| - 1]) + (if IsFailure(last) then Helpers.CStr(last[1..]) else [])
  }

  /** Whether the exit status has been set to failure by some chunk so far. */
  predicate Failed(chunks: seq<string>)
  {
    |chunks| > 0 && (Failed(chunks[..|chunks| - 1]) || IsFailure(chunks[|chunks| - 1]))
  }

  /** The status fails exactly when some chunk was an error answer. */
  lemma {:induction false} FailedIffErrorChunk(chunks: seq<string>)
    ensures Failed(chunks) <==> exists i | 0 <= i < |chunks| :: IsFailure(chunks[i])
    decreases |chunks|
  {
    if |chunks| > 0 {
      var init := chunks[..|chunks| - 1];
      FailedIffErrorChunk(init);
      if Failed(init) {
        var i :| 0 <= i < |init| && IsFailure(init[i]);
        assert chunks[i] == init[i];
      }
      if exists i | 0 <= i < |chunks| :: IsFailure(chunks[i]) {
        var i :| 0 <= i < |chunks| && IsFailure(chunks[i]);
        if i < |init| {
          assert init[i] == chunks[i];
        }
      }
    }
  }

  /** A failure status is never reset by later chunks. */
  lemma FailureSticky(a: seq<string>, b: seq<string>)
    requires Failed(a)
    ensures Failed(a + b)
  {
    FailedIffErrorChunk(a);
    FailedIffErrorChunk(a + b);
    var i :| 0 <= i < |a| && IsFailure(a[i]);
    assert (a + b)[i] == a[i];
  }

  /** Output of a longer answer extends the output of its start, in order. */
  lemma {:induction false} OutputsAppend(a: seq<string>, b: seq<string>)
    ensures StdoutText(a + b) == StdoutText(a) + StdoutText(b)
    ensures StderrText(a + b) == StderrText(a) + StderrText(b)
    decreases |b|
  {
    if |b| == 0 {
      assert a + b == a;
    } else {
      var b', last := b[..|b| - 1], b[|b| - 1];
      OutputsAppend(a, b');
      assert (a + b)[..|a + b| - 1] == a + b' && (a + b)[|a + b| - 1] == last;
      var o := if IsFailure(last) then [] else Helpers.CStr(last);
      var e := if IsFailure(last) then Helpers.CStr(last[1..]) else [];
      assert StdoutText(a + b) == StdoutText(a) + StdoutText(b') + o;
      assert StderrText(a + b) == StderrText(a) + StderrText(b') + e;
      Assoc(StdoutText(a), StdoutText(b'), o);
      Assoc(StderrText(a), StderrText(b'), e);
    }
  }

  /** Nothing after a wake-up that ends the loop is handled. */
  lemma {:induction false} ReceivedStops(polls: seq<PollResult>, j: nat)
    requires j < |polls| && (polls[j].hangup || polls[j].data == Some([]))
    ensures Received(polls) == Received(polls[..j + 1])
    decreases j
  {
    if j > 0 {
      var p := polls[0];
      assert polls[..j + 1][0] == p;
      assert polls[..j + 1][1..] == polls[1..][..j];
      if !(p.data == Some([]) || p.hangup) {
        ReceivedStops(polls[1..], j - 1);
      }
    }
  }

  /** Received from position i on, unfolded once. */
  lemma ReceivedAt(polls: seq<PollResult>, i: nat)
    requires i < |polls|
    ensures var p := polls[i];
      Received(polls[i..]) ==
        if p.data == Some([]) then []
        else (if p.data.Some? then [p.data.value] else []) + (if p.hangup then [] else Received(polls[i + 1..]))
  {
    assert polls[i..][0] == polls[i] && polls[i..][1..] == polls[i + 1..];
  }

  lemma Assoc<T>(a: seq<T>, b: seq<T>, c: seq<T>)
    ensures a + (b + c) == (a + b) + c
  {
  }

  /** Appending one handled chunk extends the outputs and the status by it. */
  lemma Snoc(seen: seq<string>, c: string)
    ensures var s := seen + [c];
      && s[..|s| - 1] == seen
      && StdoutText(s) == StdoutText(seen) + (if IsFailure(c) then [] else Helpers.CStr(c))
      && StderrText(s) == StderrText(seen) + (if IsFailure(c) then Helpers.CStr(c[1..]) else [])
      && (Failed(s) <==> Failed(seen) || IsFailure(c))
  {
    var s := seen + [c];
    assert s[..|s| - 1] == seen;
  }

  /** The chunks one wake-up contributes: its data, unless that is empty. */
  function Contributed(p: PollResult): (r: seq<string>)
    ensures |r| <= 1
    ensures r != [] <==> p.data.Some? && p.data.value != []
    ensures r != [] ==> r[0] == p.data.value
  {
    if p.data.Some? && p.data.value != [] then [p.data.value] else []
  }

  /**
   * One wake-up of the poll loop: a non-empty chunk goes to stdout, or to
   * stderr with a failing status; an empty read or a hang-up stops the loop.
   */
  method Wake(p: PollResult, ghost seen: seq<string>, out: string, errOut: string, status: int)
    returns (stop: bool, out': string, errOut': string, status': int)
    requires out == StdoutText(seen) && errOut == StderrText(seen)
    requires status == (if Failed(seen) then ExitFailure else ExitSuccess)
    ensures stop <==> p.data == Some([]) || p.hangup
    ensures out' == StdoutText(seen + Contributed(p)) && errOut' == StderrText(seen + Contributed(p))
    ensures status' == (if Failed(seen + Contributed(p)) then ExitFailure else ExitSuccess)
  {
    out', errOut', status' := out, errOut, status;
    if p.data.Some? {
      var chunk := p.data.value;
      if |chunk| == 0 {
        assert seen + [] == seen;
        return true, out', errOut', status';
      }
      Snoc(seen, chunk);
      if chunk[0] == FailureByte {
        status' := ExitFailure;
        errOut' := errOut + Helpers.CStr(chunk[1..]);
      } else {
        out' := out + Helpers.CStr(chunk);
      }
    } else {
      assert seen + [] == seen;
    }
    stop := p.hangup;
  }

  /** Received from position i on, in terms of what the wake-up at i contributes. */
  lemma ReceivedFrom(polls: seq<PollResult>, i: nat, seen: seq<string>)
    requires i < |polls|
    ensures var p := polls[i];
      && (p.data == Some([]) || p.hangup ==> seen + Received(polls[i..]) == seen + Contributed(p))
      && (!(p.data == Some([]) || p.hangup) ==>
            seen + Received(polls[i..]) == (seen + Contributed(p)) + Received(polls[i + 1..]))
  {
    var p := polls[i];
    ReceivedAt(polls, i);
    if !(p.data == Some([]) || p.hangup) {
      Assoc(seen, Contributed(p), Received(polls[i + 1..]));
    } else if p.data != Some([]) {
      assert Contributed(p) + [] == Contributed(p);
    }
  }

  /** The poll loop: each chunk goes to stdout, or to stderr with a failing status. */
  method Respond(polls: seq<PollResult>) returns (out: string, errOut: string, status: int)
    ensures out == StdoutText(Received(polls))
    ensures errOut == StderrText(Received(polls))
    ensures status == (if Failed(Received(polls)) then ExitFailure else ExitSuccess)
  {
    out, errOut, status := [], [], ExitSuccess;
    ghost var seen: seq<string> := [];
    var i := 0;
    while i < |polls|
      invariant i <= |polls|
      invariant Received(polls) == seen + Received(polls[i..])
      invariant out == StdoutText(seen) && errOut == StderrText(seen)
      invariant status == (if Failed(seen) then ExitFailure else ExitSuccess)
    {
      var stop;
      ReceivedFrom(polls, i, seen);
      stop, out, errOut, status := Wake(polls[i], seen, out, errOut, status);
      seen := seen + Contributed(polls[i]);
      if stop {
        assert Received(polls) == seen;
        break;
      }
      i := i + 1;
    }
    if i == |polls| {
      assert seen + [] == seen;
    }
  }

  // ---------------------------------------------------------------------
  // The whole client
  // ---------------------------------------------------------------------

  /**
   * What one run of bspc does: the request handed to send() (None when
   * nothing was handed over), its standard output and error, and its exit
   * status.
   */
  datatype Outcome = Outcome(request: Option<string>, stdout: string, stderr: string, status: int)

  /**
   * main(argc, argv) with `args` = argv[1..]. socket(), connect() and send()
   * succeed as the three flags say; the answer arrives as `polls`.
   */
  method Run(args: seq<string>, env: Option<string>, display: Option<Display>,
             socketOk: bool, connectOk: bool, sendOk: bool, polls: seq<PollResult>,
             bufSize: nat)
    returns (o: Outcome)
    requires CArgs(args) && bufSize > 0
    ensures |args| == 0 ==> o == Outcome(None, [], "No arguments given.\n", ExitFailure)
    ensures |args| > 0 && args[0] == PrintSocketPath ==>
      var path := SocketPath(env, display);
      o == Outcome(None, (if path.Some? then path.value else []) + "\n", [], ExitSuccess)
    ensures o.status == ExitSuccess || o.status == ExitFailure
    ensures o.request.Some? <==> |args| > 0 && args[0] != PrintSocketPath && socketOk && connectOk
    ensures o.request.Some? && |Frame(args)| <= bufSize ==> o.request.value == Frame(args)
    ensures o.request.Some? && |Frame(args)| <= bufSize ==> Unframe(o.request.value) == args
    ensures o.request.Some? ==> |o.request.value| <= bufSize
    ensures o.request.Some? && sendOk ==>
      && o.stdout == StdoutText(Received(polls))
      && o.stderr == StderrText(Received(polls))
      && (o.status == ExitFailure <==> exists i | 0 <= i < |Received(polls)| :: IsFailure(Received(polls)[i]))
    ensures o.request.Some? && !sendOk ==> o.stderr == "Failed to send the data.\n" && o.status == ExitFailure
  {
    if |args| < 1 {
      return Outcome(None, [], "No arguments given.\n", ExitFailure);
    }
    var path := SocketPath(env, display);
    if args[0] == PrintSocketPath {
      var shown := if path.Some? then path.value else [];
      return Outcome(None, shown + "\n", [], ExitSuccess);
    }
    if !socketOk {
      return Outcome(None, [], "Failed to create the socket.\n", ExitFailure);
    }
    if !connectOk {
      return Outcome(None, [], "Failed to connect to the socket.\n", ExitFailure);
    }
    var msg := new char[bufSize];
    var msgLen := FrameRequest(args, msg);
    var request := msg[..msgLen];
    if |Frame(args)| <= bufSize {
      UnframeFrame(args);
    }
    if !sendOk {
      return Outcome(Some(request), [], "Failed to send the data.\n", ExitFailure);
    }
    var out, errOut, status := Respond(polls);
    FailedIffErrorChunk(Received(polls));
    return Outcome(Some(request), out, errOut, status);
  }
}
