/**
 * The records of model.go.  Go's `json.RawMessage` payload is a byte
 * sequence; timestamps are integers (nanoseconds) and a nullable
 * `*time.Time` is an `Option<int>`.
 */
module Model {
  import opened Wrappers
  import opened Errors

  newtype byte = x: int | 0 <= x < 256

  /** `EventStatus` is a named Go string type: any string is a status. */
  datatype EventStatus = EventStatus(value: string)
  {
    /** `String` returns the underlying string. */
    function String(): string
    {
      value
    }
  }

  const StatusNew: EventStatus := EventStatus("new")
  const StatusDone: EventStatus := EventStatus("done")

  /** The write-side request: no identity and no status, the store assigns them. */
  datatype CreateEvent = CreateEvent(aggregateId: string, topic: string, eventType: string, payload: seq<byte>)

  /** A broker acknowledgment correlated back to its event. */
  datatype SuccessEvent = SuccessEvent(id: string, eventType: string)

  /** A broker rejection correlated back to its event, with the cause. */
  datatype FailedEvent = FailedEvent(id: string, eventType: string, error: Error)

  /** The correlation tag attached to every outbound message. */
  datatype MessageMetadata = MessageMetadata(id: string, eventType: string)

  /** A persisted event as it is scanned from the events table. */
  datatype Event = Event(
    id: string,
    aggregateId: string,
    topic: string,
    eventType: string,
    payload: seq<byte>,
    status: EventStatus,
    createdAt: int,
    reservedTo: Option<int>)

  /** A status prints as the string it was made from, and two statuses with
      the same text are the same status. */
  lemma StatusStringRoundTrip(s: string, a: EventStatus, b: EventStatus)
    ensures EventStatus(s).String() == s
    ensures a.String() == b.String() ==> a == b
  {
  }

  /** The two named statuses are "new" and "done", and they differ. */
  lemma NamedStatusesDistinct()
    ensures StatusNew.String() == "new" && StatusDone.String() == "done"
    ensures StatusNew != StatusDone
  {
  }
}
