/**
 The sample Flight server of `Main`: the mode switch of the entry point and the
 four calls its producer answers, each as a pure function from the request to
 what the producer hands its listener. The 70-second wait before streaming is
 replaced by the two things the code observes after it: whether the wait was
 interrupted, and whether the listener reports the call as cancelled.
 */
module Server {
  import opened FlightTypes

  datatype Mode = ServerMode | ClientMode

  /** The entry point runs the server only for a first argument of exactly "-server". */
  function SelectMode(args: seq<string>): (m: Mode)
    ensures m == ServerMode <==> |args| > 0 && args[0] == "-server"
  {
    if |args| > 0 && args[0] == "-server" then ServerMode else ClientMode
  }

  /** Only the first argument chooses the mode; whatever follows it is ignored. */
  lemma ModeReadsOnlyFirstArgument(args: seq<string>, rest: seq<string>)
    requires |args| > 0
    ensures SelectMode(args + rest) == SelectMode(args[..1])
  {
  }

  /** The one endpoint the server advertises: ticket "sample" on localhost. */
  const SampleEndpoint: Endpoint := Endpoint(Ticket(SampleName), Location("localhost", Port))

  /** The FlightInfo the server builds for a descriptor it serves. */
  function SampleInfo(d: Descriptor): FlightInfo
  {
    FlightInfo(ValueSchema, d, [SampleEndpoint], -1, SampleRowCount)
  }

  /** Flight listing: the criteria are ignored; exactly one flight, then completion. */
  function ListFlights(criteria: seq<byte>): (l: Listener<FlightInfo>)
    ensures l.end == Completed
    ensures |l.items| == 1
    ensures l.items[0].descriptor == Descriptor([SampleName])
    ensures l.items[0].records == SampleRowCount && l.items[0].bytes == -1
    ensures l.items[0].endpoints == [SampleEndpoint]
  {
    Listener([SampleInfo(Descriptor([SampleName]))], Completed)
  }

  /**
   Flight lookup: served only for the one-segment path "sample", echoing the
   descriptor back with one endpoint; every other descriptor is NOT_FOUND.
   */
  function GetFlightInfo(d: Descriptor): (r: Result<FlightInfo>)
    ensures r.Ok? <==> d.path == [SampleName]
    ensures r.Err? ==> r.failure == NotFound
    ensures r.Ok? ==>
      && r.value.descriptor == d
      && r.value.schema == ValueSchema
      && |r.value.endpoints| == 1
      && r.value.endpoints[0].ticket == Ticket(SampleName)
      && r.value.endpoints[0].location == Location("localhost", Port)
      && r.value.records == SampleRowCount
      && r.value.bytes == -1
  {
    if |d.path| == 1 && d.path[0] == SampleName then Ok(SampleInfo(d))
    else Err(NotFound)
  }

  /** The flight that is listed is the flight that is served, with the same info. */
  lemma ListedFlightIsServed(criteria: seq<byte>)
    ensures var listed := ListFlights(criteria).items[0];
            GetFlightInfo(listed.descriptor) == Ok(listed)
  {
  }

  /** The values 0, 10, 20, ... of the first `n` rows of the sample batch. */
  function SampleRows(n: nat): (rows: seq<int>)
    ensures |rows| == n
    ensures forall i :: 0 <= i < n ==> rows[i] == 10 * i
  {
    if n == 0 then [] else SampleRows(n - 1) + [10 * (n - 1)]
  }

  const SampleBatch: Batch := Batch(SampleRows(SampleRowCount as nat))

  predicate IsTerminal(e: StreamEvent) {
    e.StreamCompleted? || e.StreamError?
  }

  /** A listener sees nothing after a terminal call, and no batch before `start`. */
  predicate WellFormedStream(t: seq<StreamEvent>) {
    && (forall i :: 0 <= i < |t| && IsTerminal(t[i]) ==> i == |t| - 1)
    && (forall i :: 0 <= i < |t| && t[i].PutNext? ==> 0 < i && t[0].Start?)
  }

  /** The batches a stream listener received, in order. */
  function Batches(t: seq<StreamEvent>): seq<Batch>
  {
    if |t| == 0 then []
    else (if t[0].PutNext? then [t[0].batch] else []) + Batches(t[1..])
  }

  predicate EndsWith(t: seq<StreamEvent>, e: StreamEvent) {
    |t| > 0 && t[|t| - 1] == e
  }

  /**
   Data retrieval. For ticket "sample": an interrupted wait ends in an error with
   no data; a call observed as cancelled after the wait returns without touching
   the listener; otherwise the stream is started with the one-column schema, and
   one batch of ten rows (row i holds 10 * i) is sent and completed. Only the
   data path starts the stream. Any other ticket is NOT_FOUND with no data.
   */
  function GetStream(t: Ticket, interrupted: bool, cancelledAfterWait: bool): (r: seq<StreamEvent>)
    ensures WellFormedStream(r)
    ensures |Batches(r)| <= 1
    ensures forall b :: b in Batches(r) ==> b.rows == SampleRows(SampleRowCount as nat)
    ensures Batches(r) != [] <==> t.text == SampleName && !interrupted && !cancelledAfterWait
    ensures EndsWith(r, StreamCompleted) <==> Batches(r) != []
    ensures r == [] <==> t.text == SampleName && !interrupted && cancelledAfterWait
    ensures EndsWith(r, StreamError(NotFound)) <==> t.text != SampleName
    ensures EndsWith(r, StreamError(StreamInterrupted)) <==> t.text == SampleName && interrupted
    ensures forall i :: 0 <= i < |r| && r[i].Start? ==> i == 0 && r[i].schema == ValueSchema
    ensures (exists i :: 0 <= i < |r| && r[i].Start?) <==> Batches(r) != []
  {
    if t.text == SampleName then
      if interrupted then [StreamError(StreamInterrupted)]
      else if cancelledAfterWait then []
      else
        var r := [Start(ValueSchema), PutNext(SampleBatch), StreamCompleted];
        assert r[0].Start?;
        assert Batches(r[2..]) == [];
        assert Batches(r[1..]) == [SampleBatch];
        r
    else [StreamError(NotFound)]
  }

  /**
   The ticket of the served flight redeems, when the wait is neither interrupted
   nor cancelled, to exactly as many rows as the flight advertises.
   */
  lemma ServedTicketRedeemsAdvertisedRows()
    ensures var info := GetFlightInfo(Descriptor([SampleName])).value;
            var batches := Batches(GetStream(info.endpoints[0].ticket, false, false));
            |batches| == 1 && TotalRows(batches) == info.records
  {
  }

  /** Side channel: "echo" answers with one result carrying the body, anything else is UNIMPLEMENTED. */
  function DoAction(a: Action): (l: Listener<seq<byte>>)
    ensures l.end == Completed <==> a.kind == "echo"
    ensures l.end == Completed ==> l.items == [a.body]
    ensures l.end != Completed ==> l.end == Failed(Unimplemented) && l.items == []
  {
    if a.kind == "echo" then Listener([a.body], Completed)
    else Listener([], Failed(Unimplemented))
  }
}
