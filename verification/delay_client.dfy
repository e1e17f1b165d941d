/**
 The delay test client: argument decoding, the flight it requests and the
 verdict it prints about the stream duration.
 */
module DelayClient {
  import opened FlightTypes
  import ClientRules
  import Server

  /** Host, mode, and whether the usage text is printed (the program goes on after it). */
  datatype DelayConfig = DelayConfig(host: string, delay: bool, showsUsage: bool)

  /**
   A leading "--delay" or "--normal" selects the mode on localhost and nothing
   after it is read; any other first argument is the host, and delay mode is on
   only when the second argument is exactly "--delay".
   */
  function DecodeArgs(args: seq<string>): (c: DelayConfig)
    ensures c.showsUsage <==> |args| == 0
    ensures c.host == "localhost" <==> |args| == 0 || args[0] in {"--delay", "--normal", "localhost"}
    ensures |args| > 0 && args[0] !in {"--delay", "--normal"} ==> c.host == args[0]
    ensures c.delay <==>
      (|args| > 0 && (args[0] == "--delay" || (args[0] != "--normal" && |args| > 1 && args[1] == "--delay")))
  {
    if |args| == 0 then DelayConfig("localhost", false, true)
    else if args[0] == "--delay" then DelayConfig("localhost", true, false)
    else if args[0] == "--normal" then DelayConfig("localhost", false, false)
    else DelayConfig(args[0], |args| > 1 && args[1] == "--delay", false)
  }

  /** Arguments after the second never change the decoded configuration. */
  lemma DecodeReadsTwoArguments(args: seq<string>)
    ensures DecodeArgs(args) == DecodeArgs(args[..if |args| < 2 then |args| else 2])
  {
  }

  /** After a leading mode option, a host in second position is ignored: the client stays on localhost. */
  lemma HostCannotFollowModeOption(option: string, host: string)
    requires option in {"--delay", "--normal"}
    ensures DecodeArgs([option, host]).host == "localhost"
    ensures DecodeArgs([option, host]) == DecodeArgs([option])
  {
  }

  /**
   The flight the client requests is served by the sample server exactly in
   normal mode; in delay mode the lookup of "sample-delay" is NOT_FOUND.
   */
  lemma RequestedFlightServedOnlyInNormalMode(args: seq<string>)
    ensures var c := DecodeArgs(args);
            Server.GetFlightInfo(Descriptor([ClientRules.RequestedFlight(c.delay)])).Ok? <==> !c.delay
  {
  }

  /** A duration verdict is printed only in delay mode, split at 60,000 ms. */
  lemma VerdictOnlyInDelayMode(args: seq<string>, durationMs: int)
    ensures var v := ClientRules.DelayVerdict(DecodeArgs(args).delay, durationMs);
            && (v.Some? <==> DecodeArgs(args).delay)
            && (v == Some(ClientRules.ReturnedTooSoon) <==> DecodeArgs(args).delay && durationMs < ClientRules.DelayThresholdMs)
  {
  }
}
