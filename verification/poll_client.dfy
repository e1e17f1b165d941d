/**
 The PollFlightInfo client: its argument decoding, the query descriptions, the
 two polling loops (poll until done, and poll against a 65-second deadline),
 the duration verdict and the retrieval of the final result. Server answers
 are given as the sequence of poll responses the client receives; the clock
 as the readings the loop takes.
 */
module PollClient {
  import opened FlightTypes
  import Server

  const LongQuery: string := "long-query"
  const VeryLongQuery: string := "very-long-query"
  const UltraLongQuery: string := "ultra-long-query"
  const MediumQuery: string := "medium-query"

  /** The query to run and whether to run the fixed-duration polling test. */
  datatype Choice = Choice(queryType: string, fixedPolling: bool)

  datatype PollConfig = PollConfig(host: string, port: int, queryType: string, fixedPolling: bool)

  const Defaults: PollConfig := PollConfig("localhost", Port, LongQuery, false)

  /** The program either runs a polling test or exits with a status code. */
  datatype Decoded = Run(config: PollConfig) | Exit(code: int)

  /**
   The four query options, as either argument position understands them: each
   of the three duration options picks its own query for the standard test, and
   "--fixed-polling" picks the medium query for the fixed-duration test.
   */
  function OptionChoice(arg: string): (c: Option<Choice>)
    ensures c.Some? <==> arg in {"--long", "--very-long", "--ultra-long", "--fixed-polling"}
    ensures c.Some? ==> (c.value.fixedPolling <==> arg == "--fixed-polling")
    ensures arg == "--long" ==> c == Some(Choice(LongQuery, false))
    ensures arg == "--very-long" ==> c == Some(Choice(VeryLongQuery, false))
    ensures arg == "--ultra-long" ==> c == Some(Choice(UltraLongQuery, false))
    ensures arg == "--fixed-polling" ==> c == Some(Choice(MediumQuery, true))
  {
    if arg == "--long" then Some(Choice(LongQuery, false))
    else if arg == "--very-long" then Some(Choice(VeryLongQuery, false))
    else if arg == "--ultra-long" then Some(Choice(UltraLongQuery, false))
    else if arg == "--fixed-polling" then Some(Choice(MediumQuery, true))
    else None
  }

  predicate StartsWithDashes(s: string) {
    |s| >= 2 && s[..2] == "--"
  }

  /**
   The argument decoding of the entry point. A first argument starting with
   "--" is a query option (unknown ones exit with status 1) and the second
   argument, if any, is the host; otherwise the first argument is the host and
   a second argument is read as a query option, silently ignored when unknown.
   */
  function DecodeArgs(args: seq<string>): (d: Decoded)
    ensures |args| == 0 ==> d == Run(Defaults)
    ensures d.Exit? <==> |args| > 0 && StartsWithDashes(args[0]) && OptionChoice(args[0]).None?
    ensures d.Exit? ==> d.code == 1
    ensures d.Run? ==> d.config.port == Port
    ensures d.Run? && |args| > 0 && StartsWithDashes(args[0]) ==>
      && d.config.host == (if |args| > 1 then args[1] else "localhost")
      && Choice(d.config.queryType, d.config.fixedPolling) == OptionChoice(args[0]).value
    ensures d.Run? && |args| > 0 && !StartsWithDashes(args[0]) ==>
      && d.config.host == args[0]
      && (|args| > 1 && OptionChoice(args[1]).Some? ==>
            Choice(d.config.queryType, d.config.fixedPolling) == OptionChoice(args[1]).value)
      && (|args| < 2 || OptionChoice(args[1]).None? ==>
            d.config.queryType == LongQuery && !d.config.fixedPolling)
  {
    if |args| == 0 then Run(Defaults)
    else if StartsWithDashes(args[0]) then
      match OptionChoice(args[0])
      case None => Exit(1)
      case Some(c) =>
        var host := if |args| > 1 then args[1] else Defaults.host;
        Run(PollConfig(host, Port, c.queryType, c.fixedPolling))
    else
      var c := if |args| > 1 && OptionChoice(args[1]).Some? then OptionChoice(args[1]).value
               else Choice(Defaults.queryType, Defaults.fixedPolling);
      Run(PollConfig(args[0], Port, c.queryType, c.fixedPolling))
  }

  /** Arguments after the second never change the decoded configuration. */
  lemma DecodeReadsTwoArguments(args: seq<string>)
    ensures DecodeArgs(args) == DecodeArgs(args[..if |args| < 2 then |args| else 2])
  {
  }

  /**
   The same unknown "--" argument ends the program in first position but is
   ignored in second position, after a host.
   */
  lemma UnknownOptionAsymmetry(option: string, host: string)
    requires StartsWithDashes(option) && OptionChoice(option).None?
    requires !StartsWithDashes(host)
    ensures DecodeArgs([option]) == Exit(1)
    ensures DecodeArgs([host, option]) == Run(Defaults.(host := host))
  {
  }

  /** The human description of a query type's duration; total over all strings. */
  function QueryDescription(queryType: string): (text: string)
    ensures queryType == LongQuery ==> text == "2 minutes"
    ensures queryType == VeryLongQuery ==> text == "5 minutes"
    ensures queryType == UltraLongQuery ==> text == "2 hours"
    ensures queryType == MediumQuery ==> text == "1 minute"
    ensures text == "unknown duration" <==> queryType !in {LongQuery, VeryLongQuery, UltraLongQuery, MediumQuery}
  {
    if queryType == LongQuery then "2 minutes"
    else if queryType == VeryLongQuery then "5 minutes"
    else if queryType == UltraLongQuery then "2 hours"
    else if queryType == MediumQuery then "1 minute"
    else "unknown duration"
  }

  /** Every query type the decoder can produce has a known duration description. */
  lemma DecodedQueryHasKnownDuration(args: seq<string>)
    ensures DecodeArgs(args).Run? ==> QueryDescription(DecodeArgs(args).config.queryType) != "unknown duration"
  {
  }

  /** The responses in the order the client receives them: the initial one, then the replies. */
  function Responses(initial: PollInfo, replies: seq<PollInfo>): seq<PollInfo>
  {
    [initial] + replies
  }

  /**
   Calls number 0 to n to `pollInfo` all return. `failsAt` names the call that
   throws, if any: call 0 is the initial one, call k the k-th continuation poll.
   */
  predicate SucceedsThrough(failsAt: Option<nat>, n: nat) {
    failsAt.None? || failsAt.value > n
  }

  /**
   The end of the standard polling loop. `Done` carries the poll count, the last
   response and the descriptors sent with each continuation poll; `Polling`
   means the given replies ran out while the query was still running; `Failed`
   means a `pollInfo` call threw, which ends the test with no verdict and no
   retrieval.
   */
  datatype StandardRun =
    | Done(pollCount: nat, last: PollInfo, sent: seq<Descriptor>)
    | Polling(sent: seq<Descriptor>)
    | Failed(sent: seq<Descriptor>)

  /**
   The standard polling loop: poll again, with the descriptor of the previous
   response, for as long as a response carries one. The query is done exactly
   when some response without a descriptor arrives before any call fails; a
   failing call ends the loop at once.
   */
  method StandardPoll(initial: PollInfo, replies: seq<PollInfo>, failsAt: Option<nat>) returns (run: StandardRun)
    ensures run.Done? <==>
      exists j :: 0 <= j < |Responses(initial, replies)| && IsDone(Responses(initial, replies)[j]) && SucceedsThrough(failsAt, j)
    ensures run.Failed? <==>
      && failsAt.Some? && failsAt.value <= |replies|
      && forall j :: 0 <= j < failsAt.value ==> !IsDone(Responses(initial, replies)[j])
    ensures run.Failed? ==> failsAt == Some(|run.sent|)
    ensures !run.Failed? ==> SucceedsThrough(failsAt, |run.sent|)
    ensures run.Done? ==>
      && run.pollCount == 1 + |run.sent|
      && run.pollCount <= |Responses(initial, replies)|
      && run.last == Responses(initial, replies)[run.pollCount - 1]
      && IsDone(run.last)
    ensures |run.sent| <= |replies|
    ensures forall j :: 0 <= j < |run.sent| ==>
      !IsDone(Responses(initial, replies)[j]) && run.sent[j] == Responses(initial, replies)[j].next.value
    ensures run.Polling? ==> |run.sent| == |replies|
  {
    ghost var all := Responses(initial, replies);
    if failsAt == Some(0) {
      return StandardRun.Failed([]);
    }
    var current := initial;
    var sent := [];
    while current.next.Some?
      invariant |sent| <= |replies|
      invariant current == all[|sent|]
      invariant SucceedsThrough(failsAt, |sent|)
      invariant forall j :: 0 <= j < |sent| ==> !IsDone(all[j]) && sent[j] == all[j].next.value
      decreases |replies| - |sent|
    {
      if |sent| == |replies| {
        return Polling(sent);
      }
      sent := sent + [current.next.value];
      if failsAt == Some(|sent|) {
        return StandardRun.Failed(sent);
      }
      current := replies[|sent| - 1];
    }
    run := Done(1 + |sent|, current, sent);
  }

  /** The verdict printed about the total polling duration, in milliseconds. */
  datatype DurationVerdict = OutlivedBalancerTimeout | Significant | Quick

  /**
   Three disjoint ranges: above 6,000,000 ms, above 60,000 ms, and the rest. A
   longer run never gets a lower verdict.
   */
  function StandardVerdict(totalDurationMs: int): (v: DurationVerdict)
    ensures v == OutlivedBalancerTimeout <==> totalDurationMs > 6000000
    ensures v == Significant <==> 60000 < totalDurationMs <= 6000000
    ensures v == Quick <==> totalDurationMs <= 60000
  {
    if totalDurationMs > 6000000 then OutlivedBalancerTimeout
    else if totalDurationMs > 60000 then Significant
    else Quick
  }

  function VerdictRank(v: DurationVerdict): int {
    match v
    case Quick => 0
    case Significant => 1
    case OutlivedBalancerTimeout => 2
  }

  lemma StandardVerdictMonotone(d1: int, d2: int)
    requires d1 <= d2
    ensures VerdictRank(StandardVerdict(d1)) <= VerdictRank(StandardVerdict(d2))
  {
  }

  /** Length of the fixed polling window. */
  const FixedWindowMs: int := 65000

  /**
   The end of the fixed polling loop: poll count, whether completion was
   observed, the last response, and the descriptors sent. `Exhausted` means the
   given replies ran out while the loop would poll again; `Failed` means a
   `pollInfo` call threw, which ends the test with no statistics.
   */
  datatype FixedRun =
    | Ended(pollCount: nat, completed: bool, last: PollInfo, sent: seq<Descriptor>)
    | Exhausted(sent: seq<Descriptor>)
    | Failed(sent: seq<Descriptor>)

  /**
   The fixed-duration polling loop. `clock(k)` is the reading at the k-th loop
   test, compared with start + 65000; each continuation poll follows such a test
   (and a pause, so it may itself go out after the deadline). The loop stops as
   soon as a response without a poll descriptor is seen, and only then is the
   query completed; a failing call ends it at once.
   */
  method FixedPoll(start: int, initial: PollInfo, replies: seq<PollInfo>, clock: nat -> int, failsAt: Option<nat>)
    returns (run: FixedRun)
    ensures |run.sent| <= |replies|
    ensures forall j :: 0 <= j < |run.sent| ==>
      && clock(j) < start + FixedWindowMs
      && !IsDone(Responses(initial, replies)[j])
      && run.sent[j] == Responses(initial, replies)[j].next.value
    ensures failsAt == Some(0) ==> run == FixedRun.Failed([])
    ensures run.Failed? ==> failsAt == Some(|run.sent|)
    ensures !run.Failed? ==> SucceedsThrough(failsAt, |run.sent|)
    ensures run.Ended? ==>
      && run.pollCount == 1 + |run.sent|
      && run.last == Responses(initial, replies)[|run.sent|]
    ensures run.Ended? && run.completed ==>
      IsDone(run.last) && (|run.sent| == 0 ==> clock(0) < start + FixedWindowMs)
    ensures run.Ended? && !run.completed ==>
      clock(|run.sent|) >= start + FixedWindowMs && (|run.sent| > 0 ==> !IsDone(run.last))
    ensures run.Exhausted? ==>
      |run.sent| == |replies| && clock(|replies|) < start + FixedWindowMs && !IsDone(Responses(initial, replies)[|replies|])
  {
    ghost var all := Responses(initial, replies);
    if failsAt == Some(0) {
      return FixedRun.Failed([]);
    }
    var deadline := start + FixedWindowMs;
    var current := initial;
    var sent := [];
    var completed := false;
    while clock(|sent|) < deadline
      invariant |sent| <= |replies|
      invariant current == all[|sent|]
      invariant !completed
      invariant SucceedsThrough(failsAt, |sent|)
      invariant forall j :: 0 <= j < |sent| ==> clock(j) < deadline && !IsDone(all[j]) && sent[j] == all[j].next.value
      invariant |sent| > 0 ==> !IsDone(current)
      decreases |replies| - |sent|
    {
      if current.next.None? {
        completed := true;
        break;
      }
      if |sent| == |replies| {
        return Exhausted(sent);
      }
      sent := sent + [current.next.value];
      if failsAt == Some(|sent|) {
        return FixedRun.Failed(sent);
      }
      current := replies[|sent| - 1];
      if current.next.None? {
        completed := true;
        break;
      }
    }
    run := Ended(1 + |sent|, completed, current, sent);
  }

  /** Data is fetched only from a FlightInfo with an endpoint, and only through its first ticket. */
  function RetrievalTicket(info: Option<FlightInfo>): (t: Option<Ticket>)
    ensures t.Some? <==> info.Some? && |info.value.endpoints| > 0
    ensures t.Some? ==> t.value == info.value.endpoints[0].ticket
  {
    if info.Some? && |info.value.endpoints| > 0 then Some(info.value.endpoints[0].ticket) else None
  }

  /** The batch and row totals the client reports while draining the result stream. */
  method CountRows(batches: seq<Batch>) returns (batchCount: int, totalRows: int)
    ensures batchCount == |batches|
    ensures totalRows == TotalRows(batches)
  {
    batchCount := 0;
    totalRows := 0;
    while batchCount < |batches|
      invariant 0 <= batchCount <= |batches|
      invariant totalRows == TotalRows(batches[..batchCount])
    {
      assert batches[..batchCount + 1][..batchCount] == batches[..batchCount];
      totalRows := totalRows + |batches[batchCount].rows|;
      batchCount := batchCount + 1;
    }
    assert batches[..batchCount] == batches;
  }

  /**
   When the final FlightInfo is the one the sample server serves, retrieval
   goes through its ticket and, with the stream neither interrupted nor
   cancelled, reports as many rows as the FlightInfo advertises.
   */
  lemma ServedResultRetrievesAdvertisedRows(d: Descriptor)
    requires Server.GetFlightInfo(d).Ok?
    ensures var info := Server.GetFlightInfo(d).value;
            var t := RetrievalTicket(Some(info));
            && t == Some(Ticket(SampleName))
            && TotalRows(Server.Batches(Server.GetStream(t.value, false, false))) == info.records
  {
  }
}
