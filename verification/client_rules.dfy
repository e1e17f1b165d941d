/**
 Decisions shared between clients: the flight the three request-making clients
 (the load tester, the delay test client and the AWS client) ask for, and the
 delay verdict of the delay and AWS clients, whose thresholds agree while their
 messages differ.
 */
module ClientRules {
  import opened FlightTypes

  /** Duration below which a delayed request is reported as having come back too soon. */
  const DelayThresholdMs: int := 60000

  /** The flight a client requests: the delay flight in delay mode, the sample flight otherwise. */
  function RequestedFlight(delay: bool): (name: string)
    ensures name == SampleDelayName <==> delay
    ensures name == SampleName <==> !delay
  {
    if delay then SampleDelayName else SampleName
  }

  /** The judgement printed after a stream finishes. */
  datatype DelayCheck =
    | ReturnedTooSoon
    | WaitedAsExpected

  /**
   The judgement a client prints about the measured stream duration: none in
   normal mode; in delay mode a warning below the threshold and success at or
   above it.
   */
  function DelayVerdict(delay: bool, durationMs: int): (v: Option<DelayCheck>)
    ensures v.Some? <==> delay
    ensures v == Some(ReturnedTooSoon) <==> delay && durationMs < DelayThresholdMs
    ensures v == Some(WaitedAsExpected) <==> delay && durationMs >= DelayThresholdMs
  {
    if delay && durationMs < DelayThresholdMs then Some(ReturnedTooSoon)
    else if delay && durationMs >= DelayThresholdMs then Some(WaitedAsExpected)
    else None
  }
}
