/**
 The AWS client: argument check and decoding, the flight it requests and the
 verdict it prints about the stream duration.
 */
module AwsClient {
  import opened FlightTypes
  import ClientRules
  import Server

  datatype AwsConfig = AwsConfig(host: string, port: int, delay: bool)

  /** The program prints its usage and exits with status 1, or runs with a configuration. */
  datatype Decoded = Run(config: AwsConfig) | Exit(code: int)

  /**
   No arguments is a usage error. Otherwise the first argument is the host, the
   port is fixed, and delay mode is on exactly when the second argument is
   "--delay"; nothing else is read.
   */
  function DecodeArgs(args: seq<string>): (d: Decoded)
    ensures d.Exit? <==> |args| == 0
    ensures d.Exit? ==> d.code == 1
    ensures d.Run? ==> d.config.host == args[0] && d.config.port == Port
    ensures d.Run? ==> (d.config.delay <==> |args| >= 2 && args[1] == "--delay")
  {
    if |args| == 0 then Exit(1)
    else Run(AwsConfig(args[0], Port, |args| > 1 && args[1] == "--delay"))
  }

  /** Arguments after the second never change the decoded configuration. */
  lemma DecodeReadsTwoArguments(args: seq<string>)
    ensures DecodeArgs(args) == DecodeArgs(args[..if |args| < 2 then |args| else 2])
  {
  }

  /**
   The flight the client requests is served by the sample server exactly in
   normal mode; in delay mode the lookup of "sample-delay" is NOT_FOUND.
   */
  lemma RequestedFlightServedOnlyInNormalMode(args: seq<string>)
    requires |args| > 0
    ensures var c := DecodeArgs(args).config;
            && (Server.GetFlightInfo(Descriptor([ClientRules.RequestedFlight(c.delay)])).Ok? <==> !c.delay)
            && (c.delay ==> Server.GetFlightInfo(Descriptor([ClientRules.RequestedFlight(c.delay)])) == Err(NotFound))
  {
  }

  /** A duration verdict is printed only in delay mode, split at 60,000 ms. */
  lemma VerdictOnlyInDelayMode(args: seq<string>, durationMs: int)
    requires |args| > 0
    ensures var v := ClientRules.DelayVerdict(DecodeArgs(args).config.delay, durationMs);
            && (v.Some? <==> |args| >= 2 && args[1] == "--delay")
            && (v == Some(ClientRules.WaitedAsExpected) <==> |args| >= 2 && args[1] == "--delay" && durationMs >= ClientRules.DelayThresholdMs)
  {
  }
}
