/**
 * One event's trip through the outbox, composed from the store, the usecase
 * and the broker adapter: insert, reserve, publish, acknowledge, confirm.
 */
module Scenario {
  import opened Wrappers
  import opened Errors
  import opened Model
  import opened Postgres
  import opened Usecase
  import opened Kafka

  /** An event inserted into an empty table, reserved, published, and
      acknowledged on the success stream comes back as its own id and type,
      ends "done" with its lease still recorded, and is never eligible again. */
  method DeliverOne(d: CreateEvent, genId: string, t0: int, dur: int)
    returns (ack: SuccessEvent, final: Table)
    ensures ack == SuccessEvent(genId, d.eventType)
    ensures final.Keys == {genId}
    ensures final[genId].status == StatusDone.String() && final[genId].reservedTo == Some(t0 + dur)
    ensures forall now :: genId !in EligibleIds(final, now)
  {
    var store := new EventPostgres(map[]);
    var uc := new EventUsecase(store);
    var id, err := uc.AddNewEvent(d, genId, t0);
    assert genId in EligibleIds(store.rows, t0);
    var events, rerr := uc.ReserveNewEvents(100, dur, t0, t0);
    var ev := events[0];
    assert ev.id in IdSet(events);
    assert ev == Scan(genId, NewRow(d, t0));

    var kafka := new ProduceKafka();
    var perr := kafka.Publish(ev, Accepted);
    var acks := kafka.GetSuccesses(kafka.input, |kafka.input|);
    assert kafka.input[..1] == [BuildMessage(ev)];
    SuccessRoundTrip([ev]);
    assert MessagesOf([ev]) == [BuildMessage(ev)];
    ack := acks.items[0];

    var cerr := uc.ConfirmEvent(ack);
    final := store.rows;
    forall now ensures genId !in EligibleIds(final, now) {
      MarkedDoneIsTerminal(Leased(map[genId := NewRow(d, t0)], {genId}, t0 + dur), genId, now);
    }
  }
}
