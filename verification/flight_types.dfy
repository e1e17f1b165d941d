/**
 Values exchanged between the sample Flight server and its clients, reduced to
 what the server's dispatch and the clients' decisions depend on. The Arrow
 Flight library itself (RPC transport, columnar buffers, allocators) is not
 modelled; its requests and responses appear here as plain immutable data.
 */
module FlightTypes {

  datatype Option<+T> = None | Some(value: T)

  /** A value or the failure a call was answered with. */
  datatype Result<+T> = Ok(value: T) | Err(failure: Failure)

  /** One octet of an action body. */
  newtype byte = x: int | 0 <= x < 256

  /** The fixed port every program in the repository listens on or dials. */
  const Port: int := 8815

  /** Name of the one flight the server publishes. */
  const SampleName: string := "sample"

  /** Name the clients ask for in delay mode; the server has no branch for it. */
  const SampleDelayName: string := "sample-delay"

  /** Number of rows the sample flight advertises and streams. */
  const SampleRowCount: int := 10

  /** A flight descriptor of the path kind: a list of path segments. */
  datatype Descriptor = Descriptor(path: seq<string>)

  /**
   A ticket. The source builds tickets with `String.getBytes` and reads them back
   with `new String(bytes)`; the model keeps the text and treats that
   encode/decode pair as the identity.
   */
  datatype Ticket = Ticket(text: string)

  datatype Location = Location(host: string, port: int)

  datatype Endpoint = Endpoint(ticket: Ticket, location: Location)

  /** A column of the result schema: name, nullability, integer width and signedness. */
  datatype Field = Field(name: string, nullable: bool, bitWidth: int, signed: bool)

  datatype Schema = Schema(fields: seq<Field>)

  /** The server's schema: one nullable signed 32-bit integer column named "value". */
  const ValueSchema: Schema := Schema([Field("value", true, 32, true)])

  datatype FlightInfo = FlightInfo(
    schema: Schema,
    descriptor: Descriptor,
    endpoints: seq<Endpoint>,
    bytes: int,
    records: int)

  /** One record batch: the values of the "value" column, row by row. */
  datatype Batch = Batch(rows: seq<int>)

  /** Total number of rows in a sequence of batches. */
  function TotalRows(batches: seq<Batch>): int
  {
    if |batches| == 0 then 0 else TotalRows(batches[..|batches| - 1]) + |batches[|batches| - 1].rows|
  }

  /** The failures the server signals to a listener. */
  datatype Failure =
    | NotFound
    | Unimplemented
      /** the plain runtime error raised when the pre-stream wait is interrupted */
    | StreamInterrupted

  /** How a listener-driven call ended. */
  datatype Termination = Completed | Failed(failure: Failure)

  /** What a producer sent to a plain stream listener: the items, then how it ended. */
  datatype Listener<T> = Listener(items: seq<T>, end: Termination)

  /** The calls a producer makes on a data-stream listener, in order. */
  datatype StreamEvent =
    | Start(schema: Schema)
    | PutNext(batch: Batch)
    | StreamCompleted
    | StreamError(failure: Failure)

  /** An action request on the side channel. */
  datatype Action = Action(kind: string, body: seq<byte>)

  /**
   The part of a poll response the clients act on: the FlightInfo, when present,
   and the descriptor to poll with next, whose absence means the query is done.
   Progress and expiration are only printed and are not modelled.
   */
  datatype PollInfo = PollInfo(info: Option<FlightInfo>, next: Option<Descriptor>)

  predicate IsDone(p: PollInfo) {
    p.next.None?
  }
}
