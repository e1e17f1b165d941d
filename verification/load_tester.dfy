/**
 The load balancer load tester: its command-line scan, the request and stop
 rules of one worker, and the cadence of progress lines. Threads, latches and
 shared counters are not modelled; one worker is modelled over the clock
 readings and request outcomes it observes.
 */
module LoadTester {
  import opened FlightTypes
  import JavaInt
  import ClientRules
  import Server

  const DefaultHost: string := "your-load-balancer-dns.elb.amazonaws.com"
  const DefaultThreads: int := 10
  const DefaultDurationSeconds: int := 300

  datatype LoadConfig = LoadConfig(
    host: string,
    threads: int,
    durationSeconds: int,
    useDelay: bool,
    staggerSeconds: int)

  const Defaults: LoadConfig := LoadConfig(DefaultHost, DefaultThreads, DefaultDurationSeconds, false, 0)

  /**
   What the scan of the arguments ends in: a configuration to run, the usage
   text (the program returns without building a tester), or the uncaught
   NumberFormatException for a non-numeric value of a numeric option.
   */
  datatype Decoded =
    | Run(config: LoadConfig)
    | Help
    | ParseError(option: string, value: string)

  /** The options that consume the following argument when there is one. */
  predicate TakesValue(a: string) {
    a == "--host" || a == "--threads" || a == "--duration" || a == "--stagger"
  }

  predicate IsOption(a: string) {
    TakesValue(a) || a == "--delay" || a == "--help"
  }

  /** The effect of a value-taking option applied to its value. */
  function SetValue(cfg: LoadConfig, option: string, value: string): Decoded
    requires TakesValue(option)
  {
    if option == "--host" then Run(cfg.(host := value))
    else
      match JavaInt.ParseInt(value)
      case None => ParseError(option, value)
      case Some(n) =>
        if option == "--threads" then Run(cfg.(threads := n))
        else if option == "--duration" then Run(cfg.(durationSeconds := n))
        else Run(cfg.(staggerSeconds := n))
  }

  /**
   The left-to-right scan from position `i`, one option at a time: a
   value-taking option followed by an argument consumes it; in last position it
   is skipped; "--help" stops the scan; anything unrecognised is skipped.
   */
  function ScanFrom(args: seq<string>, i: nat, cfg: LoadConfig): Decoded
    requires i <= |args|
    decreases |args| - i
  {
    if i == |args| then Run(cfg)
    else if TakesValue(args[i]) && i + 1 < |args| then
      match SetValue(cfg, args[i], args[i + 1])
      case Run(next) => ScanFrom(args, i + 2, next)
      case stopped => stopped
    else if args[i] == "--delay" then ScanFrom(args, i + 1, cfg.(useDelay := true))
    else if args[i] == "--help" then Help
    else ScanFrom(args, i + 1, cfg)
  }

  function Scan(args: seq<string>, cfg: LoadConfig): Decoded
  {
    ScanFrom(args, 0, cfg)
  }

  /** The argument loop of the entry point, with its in-loop index skip over consumed values. */
  method DecodeArgs(args: seq<string>) returns (d: Decoded)
    ensures d == Scan(args, Defaults)
    ensures |args| == 0 ==> d == Run(Defaults)
  {
    var cfg := Defaults;
    var i := 0;
    while i < |args|
      invariant 0 <= i <= |args|
      invariant ScanFrom(args, i, cfg) == Scan(args, Defaults)
    {
      if TakesValue(args[i]) {
        if i + 1 < |args| {
          i := i + 1;
          var applied := SetValue(cfg, args[i - 1], args[i]);
          if !applied.Run? {
            return applied;
          }
          cfg := applied.config;
        }
      } else if args[i] == "--delay" {
        cfg := cfg.(useDelay := true);
      } else if args[i] == "--help" {
        return Help;
      }
      i := i + 1;
    }
    d := Run(cfg);
  }

  /**
   Whether the scan from `i` ends with no value-taking option waiting for its
   value: appending to such a list cannot change how its own arguments are read.
   */
  predicate ClosedFrom(args: seq<string>, i: nat)
    requires i <= |args|
    decreases |args| - i
  {
    if i == |args| then true
    else if TakesValue(args[i]) then i + 1 < |args| && ClosedFrom(args, i + 2)
    else ClosedFrom(args, i + 1)
  }

  predicate Closed(args: seq<string>) {
    ClosedFrom(args, 0)
  }

  /** Continue a scan outcome with more arguments; a stopped scan stays stopped. */
  function Then(d: Decoded, rest: seq<string>): Decoded
  {
    if d.Run? then Scan(rest, d.config) else d
  }

  /** A prefix placed before the arguments does not change how the scan reads them. */
  lemma {:induction false} ScanShift(a: seq<string>, b: seq<string>, j: nat, cfg: LoadConfig)
    requires j <= |b|
    ensures ScanFrom(a + b, |a| + j, cfg) == ScanFrom(b, j, cfg)
    decreases |b| - j
  {
    if j < |b| {
      assert (a + b)[|a| + j] == b[j];
      if j + 1 < |b| {
        assert (a + b)[|a| + j + 1] == b[j + 1];
      }
      if TakesValue(b[j]) && j + 1 < |b| {
        var applied := SetValue(cfg, b[j], b[j + 1]);
        if applied.Run? {
          ScanShift(a, b, j + 2, applied.config);
        }
      } else if b[j] == "--delay" {
        ScanShift(a, b, j + 1, cfg.(useDelay := true));
      } else if b[j] != "--help" {
        ScanShift(a, b, j + 1, cfg);
      }
    }
  }

  lemma {:induction false} ScanAppendFrom(a: seq<string>, b: seq<string>, i: nat, cfg: LoadConfig)
    requires i <= |a| && ClosedFrom(a, i)
    ensures ScanFrom(a + b, i, cfg) == Then(ScanFrom(a, i, cfg), b)
    decreases |a| - i
  {
    if i == |a| {
      ScanShift(a, b, 0, cfg);
    } else {
      assert (a + b)[i] == a[i];
      if TakesValue(a[i]) {
        assert (a + b)[i + 1] == a[i + 1];
        var applied := SetValue(cfg, a[i], a[i + 1]);
        if applied.Run? {
          ScanAppendFrom(a, b, i + 2, applied.config);
        }
      } else if a[i] == "--delay" {
        ScanAppendFrom(a, b, i + 1, cfg.(useDelay := true));
      } else if a[i] != "--help" {
        ScanAppendFrom(a, b, i + 1, cfg);
      }
    }
  }

  /** Scanning a closed prefix and then the rest is scanning the concatenation. */
  lemma ScanAppend(a: seq<string>, b: seq<string>, cfg: LoadConfig)
    requires Closed(a)
    ensures Scan(a + b, cfg) == Then(Scan(a, cfg), b)
  {
    ScanAppendFrom(a, b, 0, cfg);
  }

  /** A later occurrence of a value-taking option overrides whatever came before it. */
  lemma LaterOptionOverrides(a: seq<string>, option: string, value: string, cfg: LoadConfig)
    requires Closed(a) && Scan(a, cfg).Run? && TakesValue(option)
    ensures Scan(a + [option, value], cfg) == SetValue(Scan(a, cfg).config, option, value)
  {
    ScanAppend(a, [option, value], cfg);
    var before := Scan(a, cfg).config;
    match SetValue(before, option, value)
    case Run(next) => assert ScanFrom([option, value], 2, next) == Run(next);
    case _ =>
  }

  /** An argument that is not an option is ignored wherever the scan meets it. */
  lemma UnrecognisedArgumentIgnored(a: seq<string>, u: string, b: seq<string>, cfg: LoadConfig)
    requires Closed(a) && !IsOption(u)
    ensures Scan(a + [u] + b, cfg) == Scan(a + b, cfg)
  {
    assert a + [u] + b == a + ([u] + b);
    ScanAppend(a, [u] + b, cfg);
    ScanAppend(a, b, cfg);
    if Scan(a, cfg).Run? {
      ScanShift([u], b, 0, Scan(a, cfg).config);
    }
  }

  /** A value-taking option in last position leaves the configuration as it was. */
  lemma TrailingOptionIgnored(a: seq<string>, option: string, cfg: LoadConfig)
    requires Closed(a) && TakesValue(option)
    ensures Scan(a + [option], cfg) == Scan(a, cfg)
  {
    ScanAppend(a, [option], cfg);
    if Scan(a, cfg).Run? {
      var before := Scan(a, cfg).config;
      assert ScanFrom([option], 1, before) == Run(before);
    }
  }

  /** Reaching "--help" ends the scan with the usage text, whatever follows. */
  lemma HelpStopsTheScan(a: seq<string>, b: seq<string>, cfg: LoadConfig)
    requires Closed(a) && Scan(a, cfg).Run?
    ensures Scan(a + ["--help"] + b, cfg) == Help
  {
    assert a + ["--help"] + b == a + (["--help"] + b);
    ScanAppend(a, ["--help"] + b, cfg);
  }

  /** A consumed value is never read as an option, even when it looks like one. */
  lemma ConsumedValueNotReread(value: string, b: seq<string>, cfg: LoadConfig)
    ensures Scan(["--host", value] + b, cfg) == Scan(b, cfg.(host := value))
  {
    ScanShift(["--host", value], b, 0, cfg.(host := value));
  }

  /** The usage text comes only from a "--help" argument the scan reaches. */
  lemma {:induction false} HelpOnlyWhenAsked(args: seq<string>, i: nat, cfg: LoadConfig)
    requires i <= |args|
    ensures ScanFrom(args, i, cfg) == Help ==> exists j :: i <= j < |args| && args[j] == "--help"
    decreases |args| - i
  {
    if i < |args| {
      if TakesValue(args[i]) && i + 1 < |args| {
        var applied := SetValue(cfg, args[i], args[i + 1]);
        if applied.Run? {
          HelpOnlyWhenAsked(args, i + 2, applied.config);
        }
      } else if args[i] == "--delay" {
        HelpOnlyWhenAsked(args, i + 1, cfg.(useDelay := true));
      } else if args[i] != "--help" {
        HelpOnlyWhenAsked(args, i + 1, cfg);
      }
    }
  }

  /**
   A parse error names a numeric option that the scan met with a following value
   that is not a 32-bit decimal integer.
   */
  lemma {:induction false} ParseErrorHasCause(args: seq<string>, i: nat, cfg: LoadConfig)
    requires i <= |args|
    ensures ScanFrom(args, i, cfg).ParseError? ==>
      exists j :: i <= j < |args| - 1 && args[j] == ScanFrom(args, i, cfg).option && args[j + 1] == ScanFrom(args, i, cfg).value
    ensures ScanFrom(args, i, cfg).ParseError? ==>
      && ScanFrom(args, i, cfg).option != "--host"
      && TakesValue(ScanFrom(args, i, cfg).option)
      && JavaInt.ParseInt(ScanFrom(args, i, cfg).value).None?
    decreases |args| - i
  {
    if i < |args| {
      if TakesValue(args[i]) && i + 1 < |args| {
        var applied := SetValue(cfg, args[i], args[i + 1]);
        if applied.Run? {
          ParseErrorHasCause(args, i + 2, applied.config);
        }
      } else if args[i] == "--delay" {
        ParseErrorHasCause(args, i + 1, cfg.(useDelay := true));
      } else if args[i] != "--help" {
        ParseErrorHasCause(args, i + 1, cfg);
      }
    }
  }

  /**
   The flight a worker requests is served by the sample server exactly in normal
   mode: in delay mode it asks for "sample-delay", which the server answers with
   NOT_FOUND.
   */
  lemma WorkerFlightServedOnlyInNormalMode(cfg: LoadConfig)
    ensures Server.GetFlightInfo(Descriptor([ClientRules.RequestedFlight(cfg.useDelay)])).Ok? <==> !cfg.useDelay
    ensures cfg.useDelay ==>
      Server.GetFlightInfo(Descriptor([ClientRules.RequestedFlight(cfg.useDelay)])) == Err(NotFound)
  {
  }

  /** Time a delay-mode worker must have left before it starts another request. */
  const DelayReserveMs: int := 75000

  /** Pause between requests: only after a successful request in normal mode. */
  predicate PausesAfter(useDelay: bool, success: bool) {
    !useDelay && success
  }

  /** In delay mode the worker stops once a further delayed request would run past the end. */
  predicate StopsForDelay(useDelay: bool, now: int, endTime: int) {
    useDelay && now + DelayReserveMs > endTime
  }

  /**
   What one iteration of the worker loop observes: the clock at the loop test,
   the clock at the start of the request, whether the request succeeded, whether
   the pause after it was interrupted, and the clock at the delay-mode check.
   */
  datatype Attempt = Attempt(
    loopTime: int,
    startTime: int,
    success: bool,
    pauseInterrupted: bool,
    checkTime: int)

  datatype StopReason = Deadline | NoTimeForDelay | Interrupted | OutOfAttempts

  /** How many requests the worker made, how many succeeded, and why it stopped. */
  datatype WorkerRun = WorkerRun(requests: nat, successes: nat, stop: StopReason)

  function CountSuccesses(attempts: seq<Attempt>): nat
  {
    if |attempts| == 0 then 0
    else CountSuccesses(attempts[..|attempts| - 1]) + (if attempts[|attempts| - 1].success then 1 else 0)
  }

  /** An iteration after which the worker stops on its own account rather than at the deadline. */
  predicate EndsRun(useDelay: bool, endTime: int, a: Attempt) {
    (PausesAfter(useDelay, a.success) && a.pauseInterrupted) || StopsForDelay(useDelay, a.checkTime, endTime)
  }

  /**
   One worker's request loop over the iterations it observes. `OutOfAttempts`
   means the given observations ran out while the worker would go on.
   */
  method Worker(useDelay: bool, endTime: int, attempts: seq<Attempt>) returns (w: WorkerRun)
    ensures w.requests <= |attempts|
    ensures forall j :: 0 <= j < w.requests ==> attempts[j].loopTime < endTime && attempts[j].startTime < endTime
    ensures forall j :: 0 <= j < w.requests - 1 ==> !EndsRun(useDelay, endTime, attempts[j])
    ensures w.successes == CountSuccesses(attempts[..w.requests])
    ensures w.stop == Deadline ==>
      && w.requests < |attempts|
      && (attempts[w.requests].loopTime >= endTime || attempts[w.requests].startTime >= endTime)
      && (w.requests == 0 || !EndsRun(useDelay, endTime, attempts[w.requests - 1]))
    ensures w.stop == Interrupted ==>
      0 < w.requests && !useDelay && attempts[w.requests - 1].success && attempts[w.requests - 1].pauseInterrupted
    ensures w.stop == NoTimeForDelay ==>
      0 < w.requests && useDelay && attempts[w.requests - 1].checkTime + DelayReserveMs > endTime
    ensures w.stop == OutOfAttempts ==> w.requests == |attempts| && (w.requests == 0 || !EndsRun(useDelay, endTime, attempts[w.requests - 1]))
    ensures useDelay ==> w.stop != Interrupted
  {
    var k := 0;
    var successes := 0;
    while k < |attempts|
      invariant 0 <= k <= |attempts|
      invariant successes == CountSuccesses(attempts[..k])
      invariant forall j :: 0 <= j < k ==> attempts[j].loopTime < endTime && attempts[j].startTime < endTime
      invariant forall j :: 0 <= j < k ==> !EndsRun(useDelay, endTime, attempts[j])
    {
      var a := attempts[k];
      if !(a.loopTime < endTime) || a.startTime >= endTime {
        return WorkerRun(k, successes, Deadline);
      }
      assert attempts[..k + 1][..k] == attempts[..k];
      if a.success {
        successes := successes + 1;
      }
      if PausesAfter(useDelay, a.success) && a.pauseInterrupted {
        return WorkerRun(k + 1, successes, Interrupted);
      }
      if StopsForDelay(useDelay, a.checkTime, endTime) {
        return WorkerRun(k + 1, successes, NoTimeForDelay);
      }
      k := k + 1;
    }
    assert attempts[..k] == attempts;
    w := WorkerRun(k, successes, OutOfAttempts);
  }

  /** A progress line is printed at second i when i is among the first ten or a multiple of thirty. */
  predicate PrintsProgressAt(second: int) {
    second % 30 == 0 || second <= 10
  }

  function Min(a: int, b: int): int {
    if a <= b then a else b
  }

  /** The seconds of a run at which the monitoring loop prints a progress line, in order. */
  method ProgressSeconds(durationSeconds: int) returns (printed: seq<int>)
    ensures forall s :: s in printed <==> 1 <= s <= durationSeconds && PrintsProgressAt(s)
    ensures forall i, j :: 0 <= i < j < |printed| ==> printed[i] < printed[j]
    ensures |printed| == if durationSeconds <= 0 then 0 else Min(durationSeconds, 10) + durationSeconds / 30
  {
    printed := [];
    var i := 1;
    while i <= durationSeconds
      invariant 1 <= i <= if durationSeconds < 1 then 1 else durationSeconds + 1
      invariant forall s :: s in printed <==> 1 <= s < i && PrintsProgressAt(s)
      invariant forall a, b :: 0 <= a < b < |printed| ==> printed[a] < printed[b]
      invariant forall a :: 0 <= a < |printed| ==> printed[a] < i
      invariant |printed| == Min(i - 1, 10) + (i - 1) / 30
    {
      if PrintsProgressAt(i) {
        printed := printed + [i];
      }
      i := i + 1;
    }
  }
}
