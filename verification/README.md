# Sample Flight server and its test clients, in Dafny

This project models the decision logic of a small Arrow Flight demonstration:
a sample Flight server (`Main`) that publishes one flight, "sample", and
delays its data stream by 70 seconds to probe load-balancer idle timeouts, and
four command-line clients that exercise it (`PollFlightClient`,
`NLBLoadTester`, `TestDelayClient`, `AWSFlightClient`).

The Flight library, the network, the console and the clock are outside the
model. What remains is:

- **Server dispatch** (`Server`): the entry point's mode switch, and the four
  producer calls as pure functions from a request to what the producer hands
  its listener: flight listing, flight lookup, data stream and echo action. The
  70-second wait becomes two inputs: whether the wait was interrupted and
  whether the listener reports the call cancelled after it.
- **Command-line decoders** of the five programs, each a total function (or,
  for the load tester, a loop proved equal to a recursive scan) from the
  argument list to a configuration or an exit/usage/parse-error outcome.
  `Integer.parseInt`, which the load tester applies to its numeric options, is
  modelled in `JavaInt` with its sign, digit and 32-bit range rules.
- **Client decision rules**: the two polling loops of the poll client over an
  abstract sequence of poll responses and clock readings, its duration verdict
  and result retrieval; one load-tester worker's request, pause and stop rules;
  the progress-line cadence; the flight the three request-making clients ask
  for, and the delay verdict of the delay and AWS clients (`ClientRules`).

The code is followed where it differs from what its callers expect:

- The server's 70-second wait applies to the plain "sample" ticket. There is no
  "sample-delay" flight: the load tester, the delay client and the AWS client
  request it in delay mode, and their delay-mode requests fail with NOT_FOUND.
  This is proved for each client (`LoadTester.WorkerFlightServedOnlyInNormalMode`,
  `DelayClient.RequestedFlightServedOnlyInNormalMode`,
  `AwsClient.RequestedFlightServedOnlyInNormalMode`), so the delay-mode verdicts
  of the delay and AWS clients are unreachable against this server.
- `Main`'s producer overrides no poll call, so the poll client is modelled
  against arbitrary poll responses.

Modules: `FlightTypes` (flight_types.dfy), `ClientRules` (client_rules.dfy),
`Server` (server.dfy), `JavaInt` (java_int.dfy), `PollClient`
(poll_client.dfy), `LoadTester` (load_tester.dfy), `DelayClient`
(delay_client.dfy), `AwsClient` (aws_client.dfy).

## Model

| member | source | states |
|---|---|---|
| Server.SelectMode | src/main/java/org/example/Main.java:18-24 | The server runs if and only if there is a first argument and it is exactly "-server"; every other argument list runs the client. |
| Server.ModeReadsOnlyFirstArgument | src/main/java/org/example/Main.java:18 | Arguments after the first never change the mode. |
| Server.ListFlights | src/main/java/org/example/Main.java:110-128 | Whatever the criteria, the listing yields exactly one FlightInfo (path "sample", the sample endpoint, 10 records, -1 bytes) and then completes. |
| Server.GetFlightInfo | src/main/java/org/example/Main.java:131-147 | Lookup succeeds if and only if the path is the single segment "sample"; it returns the same descriptor, the one-column schema and exactly one endpoint on localhost:8815 with ticket "sample", 10 records and -1 bytes. Every other descriptor, "sample-delay" and multi-segment paths included, is NOT_FOUND. |
| Server.ListedFlightIsServed | src/main/java/org/example/Main.java:112-144 | Looking up the listed flight's descriptor returns exactly the listed FlightInfo. |
| Server.SampleRows | src/main/java/org/example/Main.java:179-186 | The sample batch has n rows and row i holds 10 * i. |
| Server.GetStream | src/main/java/org/example/Main.java:150-209 | The trace is well formed: nothing follows a terminal call, and no batch comes before start. Data, at most one batch of the ten sample rows, is sent if and only if the ticket is "sample" and the wait is neither interrupted nor followed by cancellation, and then the stream completes. A cancellation seen after the wait leaves the listener untouched. An interrupted wait ends in an error with no data. Any other ticket ends in NOT_FOUND with no data. The stream is started, as its first call and with the one-column "value" schema, if and only if data is sent. |
| Server.ServedTicketRedeemsAdvertisedRows | src/main/java/org/example/Main.java:133-195 | The ticket of the served flight, redeemed without interruption or cancellation, yields one batch whose row count equals the flight's advertised record count. |
| Server.DoAction | src/main/java/org/example/Main.java:212-221 | "echo" yields exactly one result whose body is the request body, then completes. Any other action type yields UNIMPLEMENTED and no results. |
| ClientRules.RequestedFlight | src/main/java/org/example/NLBLoadTester.java:142 | The requested flight is "sample-delay" if and only if delay mode is on, else "sample". |
| ClientRules.DelayVerdict | src/main/java/org/example/TestDelayClient.java:106-110 | A verdict exists only in delay mode: a warning below 60000 ms, success at or above it. |
| JavaInt.ParseInt | src/main/java/org/example/NLBLoadTester.java:262 | Accepts only an optional sign followed by one or more decimal digits. A result is always a signed 32-bit value, and its sign agrees with the text. The empty string and a bare sign are rejected. |
| JavaInt.ParseIntAcceptsSignedDigits | src/main/java/org/example/NLBLoadTester.java:261-272 | An optional "+" or "-" followed by any non-empty run of digits is accepted, with leading zeros, exactly when its value fits 32 bits. It evaluates to that value, negated after "-". |
| JavaInt.LeadingZeroIgnored | src/main/java/org/example/NLBLoadTester.java:261-272 | A leading zero keeps a digit run valid and leaves its value unchanged. |
| JavaInt.ParseIntRoundTrip | src/main/java/org/example/NLBLoadTester.java:261-272 | Parsing the decimal text of an integer returns it when it fits in 32 bits. Otherwise it is a parse error, not a wrapped value. |
| LoadTester.DecodeArgs | src/main/java/org/example/NLBLoadTester.java:249-288 | The index-skipping argument loop computes the same outcome as the recursive option-by-option scan. With no arguments it yields the defaults: the default host, 10 threads, 300 seconds, no delay, no stagger. |
| LoadTester.ScanAppend | src/main/java/org/example/NLBLoadTester.java:256-288 | Scanning a prefix that leaves no option waiting for its value, then the rest, equals scanning the concatenation. Usage and parse errors stop the scan. |
| LoadTester.LaterOptionOverrides | src/main/java/org/example/NLBLoadTester.java:258-272 | A value-taking option appended after a complete scan overrides the earlier setting, or fails with a parse error on a bad number. |
| LoadTester.UnrecognisedArgumentIgnored | src/main/java/org/example/NLBLoadTester.java:257-287 | An argument that is not an option, met by the scan, changes nothing. |
| LoadTester.TrailingOptionIgnored | src/main/java/org/example/NLBLoadTester.java:259-271 | A value-taking option in last position leaves the configuration unchanged. |
| LoadTester.ConsumedValueNotReread | src/main/java/org/example/NLBLoadTester.java:259 | The value after "--host" becomes the host even when it reads "--delay" or "--help", and scanning resumes after it. |
| LoadTester.HelpStopsTheScan | src/main/java/org/example/NLBLoadTester.java:273-286 | Reaching "--help" yields the usage outcome, which carries no configuration, whatever follows. |
| LoadTester.HelpOnlyWhenAsked | src/main/java/org/example/NLBLoadTester.java:273-286 | From any scan position, the usage outcome occurs only when "--help" is among the arguments still to be read. |
| LoadTester.ParseErrorHasCause | src/main/java/org/example/NLBLoadTester.java:261-272 | From any scan position, a parse error names a numeric option (never "--host") whose following argument is text that `Integer.parseInt` rejects. |
| LoadTester.WorkerFlightServedOnlyInNormalMode | src/main/java/org/example/NLBLoadTester.java:142-144 | A worker's flight lookup succeeds on the sample server if and only if delay mode is off. In delay mode it is NOT_FOUND. |
| LoadTester.Worker | src/main/java/org/example/NLBLoadTester.java:125-190 | Every request starts before the end time. A deadline stop happens only at a loop test, after a last request that did not itself end the run. Successes are counted over exactly the issued requests. Only the last request can end the run by an interrupted pause or by the delay rule. Each stop reason has its cause: deadline, delay mode with less than 75000 ms left, or an interrupted pause after a success in normal mode. A delay-mode worker never pauses. |
| LoadTester.ProgressSeconds | src/main/java/org/example/NLBLoadTester.java:106-115 | Progress lines are printed, in increasing order, at exactly the seconds 1..duration that are at most 10 or a multiple of 30. For positive durations there are min(duration, 10) + duration / 30 of them. |
| PollClient.OptionChoice | src/main/java/org/example/PollFlightClient.java:27-40 | Exactly the four options are recognised. "--long", "--very-long" and "--ultra-long" select long-query, very-long-query and ultra-long-query for the standard test. "--fixed-polling" alone selects fixed polling, with medium-query. |
| PollClient.DecodeArgs | src/main/java/org/example/PollFlightClient.java:17-72 | No arguments gives localhost, long-query, standard polling. An unknown leading "--" argument exits with status 1. After a leading option the second argument is the host. Otherwise the first argument is the host, and a second one is read as an option, keeping the defaults when it is unknown. The port is always 8815. |
| PollClient.DecodeReadsTwoArguments | src/main/java/org/example/PollFlightClient.java:24-72 | Arguments at index 2 or beyond never change the outcome. |
| PollClient.UnknownOptionAsymmetry | src/main/java/org/example/PollFlightClient.java:25-69 | The same unknown "--" argument exits in first position but is ignored after a host. |
| PollClient.QueryDescription | src/main/java/org/example/PollFlightClient.java:373-386 | Each of the four query types has its description. Exactly the other strings give "unknown duration". |
| PollClient.DecodedQueryHasKnownDuration | src/main/java/org/example/PollFlightClient.java:239 | Every query type the decoder produces has a known duration description. |
| PollClient.StandardPoll | src/main/java/org/example/PollFlightClient.java:259-297 | Polling ends done if and only if some response lacks a poll descriptor and no call failed up to it, and it ends at the first one. A failing `pollInfo` call ends the loop at once, and this happens if and only if it comes before any finished response. The poll count is 1 plus the number of continuation polls. Each continuation poll sends the previous response's descriptor. |
| PollClient.StandardVerdict | src/main/java/org/example/PollFlightClient.java:308-314 | Three disjoint duration ranges: above 6,000,000 ms, above 60,000 ms up to 6,000,000 ms, and at most 60,000 ms. |
| PollClient.StandardVerdictMonotone | src/main/java/org/example/PollFlightClient.java:308-314 | A longer polling run never gets a lower verdict. |
| PollClient.FixedPoll | src/main/java/org/example/PollFlightClient.java:101-156 | Every continuation poll follows a loop test whose clock reading was before start + 65000, and carries the previous response's descriptor. A failing `pollInfo` call, initial or continuation, ends the loop at once. The query counts as completed only when a response without a descriptor is seen, and the loop stops at once. Otherwise the loop ended on the deadline. The poll count is 1 plus the number of continuation polls. |
| PollClient.RetrievalTicket | src/main/java/org/example/PollFlightClient.java:317-326 | Data is retrieved if and only if a FlightInfo is present and has an endpoint, and only through the first endpoint's ticket. |
| PollClient.ServedResultRetrievesAdvertisedRows | src/main/java/org/example/PollFlightClient.java:317-340 | When the final FlightInfo is the one the sample server serves, the client retrieves through the "sample" ticket. An uninterrupted, uncancelled stream then totals exactly the advertised record count. |
| PollClient.CountRows | src/main/java/org/example/PollFlightClient.java:332-340 | The reported batch count is the number of batches. The reported total is the sum of their row counts. |
| DelayClient.DecodeArgs | src/main/java/org/example/TestDelayClient.java:15-47 | No arguments gives localhost in normal mode, with usage printed and no exit. A leading "--delay" or "--normal" gives localhost in that mode. Otherwise the first argument is the host, and delay is on exactly when the second argument is "--delay". |
| DelayClient.DecodeReadsTwoArguments | src/main/java/org/example/TestDelayClient.java:21-36 | Arguments at index 2 or beyond never change the configuration. |
| DelayClient.HostCannotFollowModeOption | src/main/java/org/example/TestDelayClient.java:22-27 | After a leading mode option the second argument is ignored, so the host stays localhost. |
| DelayClient.RequestedFlightServedOnlyInNormalMode | src/main/java/org/example/TestDelayClient.java:64-69 | The requested flight is served if and only if delay mode is off. |
| DelayClient.VerdictOnlyInDelayMode | src/main/java/org/example/TestDelayClient.java:106-110 | A verdict is printed only in delay mode. It is a warning exactly when the duration is under 60000 ms. |
| AwsClient.DecodeArgs | src/main/java/org/example/AWSFlightClient.java:18-33 | No arguments exits with status 1. Otherwise the host is the first argument and the port is 8815. Delay is on if and only if there are at least two arguments and the second is exactly "--delay". |
| AwsClient.DecodeReadsTwoArguments | src/main/java/org/example/AWSFlightClient.java:26-33 | Arguments at index 2 or beyond never change the outcome. |
| AwsClient.RequestedFlightServedOnlyInNormalMode | src/main/java/org/example/AWSFlightClient.java:60-62 | The requested flight is served if and only if delay mode is off. In delay mode the lookup is NOT_FOUND. |
| AwsClient.VerdictOnlyInDelayMode | src/main/java/org/example/AWSFlightClient.java:100-105 | A verdict is printed only when the second argument is "--delay". It reports success exactly when the duration is at least 60000 ms. |

## Left out

- Arrow Flight and memory plumbing is not modelled: FlightServer, FlightClient, FlightStream, VectorSchemaRoot, allocators and locations. Requests and responses are plain datatypes.
- Failures carry no description text. The status codes NotFound and Unimplemented are kept. The interrupted-wait error is kept as its own kind, because the source raises a plain runtime exception whose wire status the library decides.
- `Thread.sleep` calls are replaced. The server's 70 s wait becomes the interrupted and cancelled flags. The poll client's 5 s and 10 s waits, the worker's 100 ms pause and the progress loop's 1 s tick become abstract clock readings, or are dropped where nothing reads the clock. An interrupted poll-client wait throws `InterruptedException`, which ends the test just as a failing `pollInfo` call does. The `failsAt` input of `PollClient.StandardPoll` and `PollClient.FixedPoll` covers it as a failure of the poll that would follow the wait, and that poll's descriptor is still listed as sent.
- The load tester's concurrency is not modelled: thread pool, latches, staggered start and shared atomic counters. One worker is modelled over the observations it makes.
- Floating-point output is not modelled: stagger interval, request rate, report percentages and their thresholds, seconds and minutes formatting, and progress percentages.
- Console text, emoji and `System.exit` side effects are not modelled. Exits are `Exit(code)` outcomes; usage text is an outcome or a flag.
- The built-in client run of `Main` (`runClient`, Main.java:42-92) is console plumbing around the four producer calls, which are modelled; it is not modelled itself.
- `Server.GetStream`: the generic `catch (Exception e)` branch, for failures while building the batch inside the library, is not modelled.
- `Server.GetFlightInfo`: only path descriptors are modelled. Command descriptors, on which the library's `getPath` throws, are not.
- `FlightTypes.Ticket`: ticket bytes are kept as text. The `getBytes`/`new String` pair is taken as the identity.
- `JavaInt.ParseInt`: only ASCII digits are modelled, while Java also accepts other Unicode decimal digits.
- `PollClient.CountRows`: the `int` counters are unbounded in the model, so Java's 32-bit wrap-around is not modelled. This is accepted because the repository's sample server streams only 10 rows. A host that streams more than `Integer.MAX_VALUE` rows would wrap the Java counters, not the model's.
- `PollClient.StandardPoll`: the response sequence given may run out before a finished response, which the `Polling` outcome reports. The real loop would keep polling.
- `PollClient.FixedPoll`: the clock is a function from the loop-test index to a reading, so each test reads its own value. The `long` arithmetic of start + 65000 is not wrapped.
- `LoadTester.ProgressSeconds`: the `int` loop counter overflow at a duration of `Integer.MAX_VALUE`, where the Java loop never ends, is not modelled.
- `LoadTester.Worker`: the given observations may run out while the worker would go on, which the `OutOfAttempts` outcome reports. What a request's success depends on is an input.
- The poll client's progress, expiration and schema printing, and its partial/complete dataset messages, are not modelled.
