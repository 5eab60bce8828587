/**
 * The broker adapter of kafka.go.  `BuildMessage` is the message `Publish`
 * constructs; the two acknowledgment pumps are loops over the finite
 * sequence of raw outcomes the producer delivers, started at most once each
 * and closing their downstream channel when they stop.
 *
 * A Go `[]byte(s)` conversion of a string keeps its bytes, so header keys and
 * values are kept as the same text here.
 */
module Kafka {
  import opened Wrappers
  import opened Errors
  import opened Model

  datatype RecordHeader = RecordHeader(key: string, value: string)

  /** The `Metadata interface{}` slot of a producer message: the adapter's
      own correlation tag, nothing, or a value of some other type. */
  datatype Metadata = NoMetadata | Correlation(meta: MessageMetadata) | Foreign(tag: string)

  datatype ProducerMessage = ProducerMessage(
    topic: string,
    key: string,
    value: seq<byte>,
    headers: seq<RecordHeader>,
    metadata: Metadata)

  /** A rejected message and the producer's reason. */
  datatype ProducerError = ProducerError(msg: ProducerMessage, err: Error)

  /** Which side of `Publish`'s select won: the input sink took the message,
      or the context was done first. */
  datatype SendOutcome = Accepted | ContextDone(reason: ContextError)

  const PublishOp := "outbox.kafka.Publish"
  const GetErrorsOp := "outbox.kafka.GetErrors"
  const EventIdHeader := "event_id"
  const EventTypeHeader := "event_type"

  /** The outbound message for `ev`. */
  function BuildMessage(ev: Event): ProducerMessage
  {
    ProducerMessage(
      ev.topic,
      ev.aggregateId,
      ev.payload,
      [RecordHeader(EventIdHeader, ev.id), RecordHeader(EventTypeHeader, ev.eventType)],
      Correlation(MessageMetadata(ev.id, ev.eventType)))
  }

  /** The type assertion `msg.Metadata.(*messageMetadata)`. */
  function Decode(md: Metadata): (r: Option<MessageMetadata>)
    ensures r.Some? <==> md.Correlation?
  {
    if md.Correlation? then Some(md.meta) else None
  }

  /** The value of the first header named `key`, if any. */
  function HeaderValue(headers: seq<RecordHeader>, key: string): (r: Option<string>)
    ensures r.Some? <==> exists i :: 0 <= i < |headers| && headers[i].key == key
  {
    if headers == [] then None
    else if headers[0].key == key then Some(headers[0].value)
    else HeaderValue(headers[1..], key)
  }

  /** What the success pump forwards for one upstream message. */
  function SuccessOf(m: ProducerMessage): seq<SuccessEvent>
  {
    match Decode(m.metadata)
    case None => []
    case Some(md) => [SuccessEvent(md.id, md.eventType)]
  }

  /** What the error pump forwards for one upstream outcome. */
  function FailureOf(pe: ProducerError): seq<FailedEvent>
  {
    match Decode(pe.msg.metadata)
    case None => []
    case Some(md) => [FailedEvent(md.id, md.eventType, Wrapped(GetErrorsOp, pe.err))]
  }

  /** The success pump's output for a whole upstream, in arrival order;
      messages without a correlation tag are dropped. */
  function SuccessesOf(msgs: seq<ProducerMessage>): (r: seq<SuccessEvent>)
    ensures |r| <= |msgs|
  {
    if msgs == [] then [] else SuccessesOf(msgs[..|msgs| - 1]) + SuccessOf(msgs[|msgs| - 1])
  }

  /** The error pump's output for a whole upstream, in arrival order. */
  function FailuresOf(errs: seq<ProducerError>): (r: seq<FailedEvent>)
    ensures |r| <= |errs|
  {
    if errs == [] then [] else FailuresOf(errs[..|errs| - 1]) + FailureOf(errs[|errs| - 1])
  }

  function Min(a: int, b: int): int
  {
    if a < b then a else b
  }

  /** A channel as its consumer sees it: what was sent, and whether it is closed. */
  class Channel<T> {
    var items: seq<T>
    var closed: bool

    constructor ()
      ensures items == [] && !closed
    {
      items, closed := [], false;
    }

    /** Sending on a closed channel panics in Go. */
    method Send(x: T)
      requires !closed
      modifies this
      ensures items == old(items) + [x] && !closed
    {
      items := items + [x];
    }

    method Close()
      modifies this
      ensures closed && items == old(items)
    {
      closed := true;
    }
  }

  class ProduceKafka {
    /** The messages handed to the producer's input sink. */
    var input: seq<ProducerMessage>
    /** The two `sync.Once` guards. */
    var onceSuccess: bool
    var onceErrors: bool
    const successes: Channel<SuccessEvent>
    const errors: Channel<FailedEvent>

    /** A pump not started yet has an untouched open channel; a started one
        has run to its end and closed it. */
    ghost predicate Valid()
      reads this, successes, errors
    {
      && (!onceSuccess ==> successes.items == [] && !successes.closed)
      && (onceSuccess ==> successes.closed)
      && (!onceErrors ==> errors.items == [] && !errors.closed)
      && (onceErrors ==> errors.closed)
    }

    constructor ()
      ensures Valid() && input == [] && !onceSuccess && !onceErrors
      ensures fresh(successes) && fresh(errors)
    {
      input := [];
      onceSuccess, onceErrors := false, false;
      successes := new Channel<SuccessEvent>();
      errors := new Channel<FailedEvent>();
    }

    /** Hands `BuildMessage(ev)` to the input sink, unless the context is
        done first; then nothing is sent and the context's error is wrapped. */
    method Publish(ev: Event, outcome: SendOutcome) returns (err: Option<Error>)
      modifies this`input
      ensures outcome.Accepted? ==> err == None && input == old(input) + [BuildMessage(ev)]
      ensures outcome.ContextDone? ==>
        err == Some(Wrapped(PublishOp + ": event_id: " + ev.id, Context(outcome.reason))) && input == old(input)
    {
      var msg := BuildMessage(ev);
      match outcome
      case ContextDone(reason) =>
        return Some(Wrapped(PublishOp + ": event_id: " + ev.id, Context(reason)));
      case Accepted =>
        input := input + [msg];
        return None;
    }

    /** The success pump.  `stop` is how many upstream messages it takes
        before the context is done; it also stops when the upstream ends.
        A message taken at the moment the context ends is dropped either way. */
    method PumpSuccesses(upstream: seq<ProducerMessage>, stop: nat)
      requires !successes.closed
      modifies successes
      ensures successes.items == old(successes.items) + SuccessesOf(upstream[..Min(stop, |upstream|)])
      ensures successes.closed
    {
      var i := 0;
      while i < |upstream| && i < stop
        invariant 0 <= i <= Min(stop, |upstream|)
        invariant successes.items == old(successes.items) + SuccessesOf(upstream[..i])
        invariant !successes.closed
      {
        var msg := upstream[i];
        assert upstream[..i + 1][..i] == upstream[..i];
        assert SuccessesOf(upstream[..i + 1]) == SuccessesOf(upstream[..i]) + SuccessOf(msg);
        match Decode(msg.metadata) {
          case None =>
          case Some(m) =>
            successes.Send(SuccessEvent(m.id, m.eventType));
        }
        i := i + 1;
      }
      successes.Close();
    }

    /** The error pump, as `PumpSuccesses`. */
    method PumpErrors(upstream: seq<ProducerError>, stop: nat)
      requires !errors.closed
      modifies errors
      ensures errors.items == old(errors.items) + FailuresOf(upstream[..Min(stop, |upstream|)])
      ensures errors.closed
    {
      var i := 0;
      while i < |upstream| && i < stop
        invariant 0 <= i <= Min(stop, |upstream|)
        invariant errors.items == old(errors.items) + FailuresOf(upstream[..i])
        invariant !errors.closed
      {
        var produceErr := upstream[i];
        assert upstream[..i + 1][..i] == upstream[..i];
        assert FailuresOf(upstream[..i + 1]) == FailuresOf(upstream[..i]) + FailureOf(produceErr);
        match Decode(produceErr.msg.metadata) {
          case None =>
          case Some(m) =>
            errors.Send(FailedEvent(m.id, m.eventType, Wrapped(GetErrorsOp, produceErr.err)));
        }
        i := i + 1;
      }
      errors.Close();
    }

    /** Starts the success pump on the first call only; every call returns
        the same channel. */
    method GetSuccesses(upstream: seq<ProducerMessage>, stop: nat) returns (ch: Channel<SuccessEvent>)
      requires Valid()
      modifies this`onceSuccess, successes
      ensures Valid() && onceSuccess && ch == successes
      ensures old(onceSuccess) ==> successes.items == old(successes.items) && successes.closed
      ensures !old(onceSuccess) ==> successes.items == SuccessesOf(upstream[..Min(stop, |upstream|)]) && successes.closed
    {
      if !onceSuccess {
        onceSuccess := true;
        PumpSuccesses(upstream, stop);
      }
      return successes;
    }

    /** Starts the error pump on the first call only; every call returns the
        same channel. */
    method GetErrors(upstream: seq<ProducerError>, stop: nat) returns (ch: Channel<FailedEvent>)
      requires Valid()
      modifies this`onceErrors, errors
      ensures Valid() && onceErrors && ch == errors
      ensures old(onceErrors) ==> errors.items == old(errors.items) && errors.closed
      ensures !old(onceErrors) ==> errors.items == FailuresOf(upstream[..Min(stop, |upstream|)]) && errors.closed
    {
      if !onceErrors {
        onceErrors := true;
        PumpErrors(upstream, stop);
      }
      return errors;
    }
  }

  // ---------------------------------------------------------------------
  // Correlation round trips

  /** The message `Publish` builds carries the event's topic, key and payload,
      exactly two headers (the id under `event_id`, then the type under
      `event_type`) in which each name is found with its own value, and a tag
      that decodes to the event's id and type. */
  lemma PublishCorrelates(ev: Event)
    ensures BuildMessage(ev).topic == ev.topic && BuildMessage(ev).key == ev.aggregateId
    ensures BuildMessage(ev).value == ev.payload
    ensures |BuildMessage(ev).headers| == 2
    ensures BuildMessage(ev).headers[0] == RecordHeader(EventIdHeader, ev.id)
    ensures BuildMessage(ev).headers[1] == RecordHeader(EventTypeHeader, ev.eventType)
    ensures HeaderValue(BuildMessage(ev).headers, EventIdHeader) == Some(ev.id)
    ensures HeaderValue(BuildMessage(ev).headers, EventTypeHeader) == Some(ev.eventType)
    ensures Decode(BuildMessage(ev).metadata) == Some(MessageMetadata(ev.id, ev.eventType))
  {
  }

  function MessagesOf(evs: seq<Event>): (r: seq<ProducerMessage>)
    ensures |r| == |evs|
  {
    if evs == [] then [] else MessagesOf(evs[..|evs| - 1]) + [BuildMessage(evs[|evs| - 1])]
  }

  function AcksOf(evs: seq<Event>): (r: seq<SuccessEvent>)
    ensures |r| == |evs|
  {
    if evs == [] then [] else AcksOf(evs[..|evs| - 1]) + [SuccessEvent(evs[|evs| - 1].id, evs[|evs| - 1].eventType)]
  }

  /** Acknowledging the messages published for `evs` yields, in order, one
      `SuccessEvent` per event carrying that event's id and type. */
  lemma {:induction false} SuccessRoundTrip(evs: seq<Event>)
    ensures SuccessesOf(MessagesOf(evs)) == AcksOf(evs)
  {
    if evs != [] {
      var init := evs[..|evs| - 1];
      SuccessRoundTrip(init);
      var msgs := MessagesOf(evs);
      assert msgs[..|msgs| - 1] == MessagesOf(init);
    }
  }

  /** A rejected published message comes back on the error stream with the
      event's id and type and an error that wraps the producer's. */
  lemma FailureRoundTrip(ev: Event, e: Error)
    ensures FailuresOf([ProducerError(BuildMessage(ev), e)]) == [FailedEvent(ev.id, ev.eventType, Wrapped(GetErrorsOp, e))]
    ensures Is(FailuresOf([ProducerError(BuildMessage(ev), e)])[0].error, e)
  {
  }

  /** Every forwarded acknowledgment comes from an upstream message whose tag
      carries that id and type: the pump invents nothing. */
  lemma {:induction false} SuccessesAreCorrelated(msgs: seq<ProducerMessage>, k: nat)
    requires k < |SuccessesOf(msgs)|
    ensures exists i ::
      && 0 <= i < |msgs|
      && Decode(msgs[i].metadata) == Some(MessageMetadata(SuccessesOf(msgs)[k].id, SuccessesOf(msgs)[k].eventType))
  {
    var n := |msgs|;
    var init := msgs[..n - 1];
    var out := SuccessesOf(msgs);
    assert out == SuccessesOf(init) + SuccessOf(msgs[n - 1]);
    if k < |SuccessesOf(init)| {
      SuccessesAreCorrelated(init, k);
      var i :| 0 <= i < |init| &&
        Decode(init[i].metadata) == Some(MessageMetadata(SuccessesOf(init)[k].id, SuccessesOf(init)[k].eventType));
      assert msgs[i] == init[i];
    } else {
      assert Decode(msgs[n - 1].metadata) == Some(MessageMetadata(out[k].id, out[k].eventType));
    }
  }

  /** Nothing is dropped exactly when every upstream message carries the
      adapter's correlation tag. */
  lemma {:induction false} SuccessesDropOnlyUntagged(msgs: seq<ProducerMessage>)
    ensures |SuccessesOf(msgs)| == |msgs| <==> forall i :: 0 <= i < |msgs| ==> msgs[i].metadata.Correlation?
  {
    if msgs != [] {
      var n := |msgs|;
      var init := msgs[..n - 1];
      SuccessesDropOnlyUntagged(init);
      assert forall i :: 0 <= i < n - 1 ==> init[i] == msgs[i];
    }
  }

  /** The outcomes the producer reports when it rejects the messages
      published for `evs`, `errs[i]` being the reason for `evs[i]`. */
  function RejectionsOf(evs: seq<Event>, errs: seq<Error>): (r: seq<ProducerError>)
    requires |errs| == |evs|
    ensures |r| == |evs|
  {
    if evs == [] then []
    else RejectionsOf(evs[..|evs| - 1], errs[..|errs| - 1]) + [ProducerError(BuildMessage(evs[|evs| - 1]), errs[|errs| - 1])]
  }

  function FailedAcksOf(evs: seq<Event>, errs: seq<Error>): (r: seq<FailedEvent>)
    requires |errs| == |evs|
    ensures |r| == |evs|
  {
    if evs == [] then []
    else
      var ev := evs[|evs| - 1];
      FailedAcksOf(evs[..|evs| - 1], errs[..|errs| - 1]) + [FailedEvent(ev.id, ev.eventType, Wrapped(GetErrorsOp, errs[|errs| - 1]))]
  }

  /** Rejecting the messages published for `evs` yields on the error stream,
      in order, one `FailedEvent` per event with that event's id and type and
      an error wrapping the producer's reason. */
  lemma {:induction false} FailureBatchRoundTrip(evs: seq<Event>, errs: seq<Error>)
    requires |errs| == |evs|
    ensures FailuresOf(RejectionsOf(evs, errs)) == FailedAcksOf(evs, errs)
    ensures forall i :: 0 <= i < |evs| ==> Is(FailedAcksOf(evs, errs)[i].error, errs[i])
  {
    if evs != [] {
      var n := |evs|;
      FailureBatchRoundTrip(evs[..n - 1], errs[..n - 1]);
      var pes := RejectionsOf(evs, errs);
      assert pes[..n - 1] == RejectionsOf(evs[..n - 1], errs[..n - 1]);
      var acks := FailedAcksOf(evs, errs);
      forall i | 0 <= i < n ensures Is(acks[i].error, errs[i]) {
        if i < n - 1 {
          assert acks[i] == FailedAcksOf(evs[..n - 1], errs[..n - 1])[i];
          assert errs[..n - 1][i] == errs[i];
        }
      }
    }
  }
}
