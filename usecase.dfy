/**
 * The transactional usecase of usecase.go.  `txm.Wrap(ctx, body)` runs the
 * body against a transaction and commits it when the body returns nil,
 * otherwise rolls it back.  Here a transaction is a fresh `EventPostgres`
 * holding a copy of the committed table (`Begin`); `Finish` either writes the
 * copy back (commit) or drops it (rollback).
 */
module Usecase {
  import opened Wrappers
  import opened Errors
  import opened Model
  import opened Postgres

  const ReserveOp := "outbox.usecase.ReserveNewEvents"
  const ConfirmEventOp := "outbox.usecase.ConfirmEvent"
  const ConfirmFailedOp := "outbox.usecase.ConfirmFailed"

  /** The loop that collects the ids of the found events, in their order. */
  method IdsOf(events: seq<Event>) returns (ids: seq<string>)
    ensures |ids| == |events|
    ensures forall i :: 0 <= i < |events| ==> ids[i] == events[i].id
  {
    var eventsIds := new string[|events|];
    for i := 0 to |events|
      invariant forall j :: 0 <= j < i ==> eventsIds[j] == events[j].id
    {
      eventsIds[i] := events[i].id;
    }
    ids := eventsIds[..];
  }

  /** The ids of a batch found by the eligibility query are all known and
      pairwise distinct, so leasing them always matches `|ids|` rows and the
      rows it leases are exactly the eligible ones. */
  lemma FoundBatchLeasesExactly(t: Table, now: int, events: seq<Event>, ids: seq<string>)
    requires IdSet(events) == EligibleIds(t, now) && DistinctIds(events) && ScannedFrom(t, events)
    requires |ids| == |events| && forall i :: 0 <= i < |events| ==> ids[i] == events[i].id
    ensures |Matched(t, ids)| == |ids|
    ensures Elems(ids) == EligibleIds(t, now)
  {
    assert Distinct(ids) by {
      forall i, j | 0 <= i < j < |ids| ensures ids[i] != ids[j] {
        assert events[i].id != events[j].id;
      }
    }
    forall i | 0 <= i < |ids| ensures ids[i] in t {
      assert events[i].id in t;
    }
    LeaseCountExact(t, ids);
    forall x ensures x in Elems(ids) <==> x in IdSet(events) {
      if x in Elems(ids) {
        var i :| 0 <= i < |ids| && ids[i] == x;
        assert events[i].id == x;
      }
      if x in IdSet(events) {
        var i :| 0 <= i < |events| && events[i].id == x;
        assert ids[i] == x;
      }
    }
  }

  /** The error `ReserveNewEvents` returns for a failed transaction: an
      error that `errors.Is` an `ErrNoNewEvents` is re-wrapped around that
      sentinel directly, any other is wrapped as it is. */
  function ReserveError(e: Error): Error
  {
    Wrapped(ReserveOp, if Is(e, NoNewEvents) then NoNewEvents else e)
  }

  /** The mapping keeps the sentinel an error ends in, so callers' `errors.Is`
      tests against any sentinel answer as they would on the store's error. */
  lemma ReserveErrorKeepsSentinel(e: Error, target: Error)
    requires !target.Wrapped?
    ensures Root(ReserveError(e)) == Root(e)
    ensures Is(ReserveError(e), target) <==> Is(e, target)
  {
    IsSentinel(e, NoNewEvents);
    IsSentinel(e, target);
    IsSentinel(ReserveError(e), target);
  }

  class EventUsecase {
    const ea: EventPostgres

    constructor (ea: EventPostgres)
      ensures this.ea == ea
    {
      this.ea := ea;
    }

    /** Opens a transaction: a private copy of the committed table. */
    method Begin() returns (tx: EventPostgres)
      ensures fresh(tx) && tx.rows == ea.rows
    {
      tx := new EventPostgres(ea.rows);
    }

    /** Closes a transaction: commit on a nil error, roll back otherwise. */
    method Finish(tx: EventPostgres, err: Option<Error>)
      modifies ea
      ensures ea.rows == if err.None? then old(tx.rows) else old(ea.rows)
    {
      if err.None? {
        ea.rows := tx.rows;
      }
    }

    /** Finds the eligible rows and leases them until `appNow + dur`, in one
        transaction.  The returned events are the snapshot read before the
        lease was written.  With nothing eligible the result is nil events, an
        error wrapping `ErrNoNewEvents`, and an untouched table; any failure
        rolls the whole reservation back. */
    method ReserveNewEvents(limit: int, dur: int, dbNow: int, appNow: int) returns (events: seq<Event>, err: Option<Error>)
      modifies ea
      ensures EligibleIds(old(ea.rows), dbNow) == {} ==>
        events == [] && err == Some(Wrapped(ReserveOp, NoNewEvents)) && ea.rows == old(ea.rows)
      ensures EligibleIds(old(ea.rows), dbNow) != {} ==>
        && err == None
        && IdSet(events) == EligibleIds(old(ea.rows), dbNow)
        && DistinctIds(events)
        && ScannedFrom(old(ea.rows), events)
        && ea.rows == Leased(old(ea.rows), EligibleIds(old(ea.rows), dbNow), appNow + dur)
      ensures err.Some? ==> events == [] && ea.rows == old(ea.rows)
      ensures DoneRowsKept(old(ea.rows), ea.rows)
    {
      var tx := Begin();
      var found, txErr := tx.FindNewAndNotReserved(limit, dbNow);
      if txErr.None? {
        var ids := IdsOf(found);
        FoundBatchLeasesExactly(tx.rows, dbNow, found, ids);
        txErr := tx.SetReservedToByIDs(ids, dur, appNow);
      }
      Finish(tx, txErr);
      if txErr.Some? {
        return [], Some(ReserveError(txErr.value));
      }
      LeasingEligibleKeepsDone(old(ea.rows), dbNow, appNow + dur);
      events, err := found, None;
    }

    /** Both updates in one transaction; each sets status "done".  A known
        id ends "done" with nothing else changed; an unknown id fails at the
        first update and the table is untouched. */
    method ConfirmEvent(ev: SuccessEvent) returns (err: Option<Error>)
      modifies ea
      ensures ev.id in old(ea.rows) ==> err == None && ea.rows == MarkedDone(old(ea.rows), ev.id)
      ensures ev.id !in old(ea.rows) ==>
        err == Some(Wrapped(ConfirmEventOp, Wrapped(RemoveReserveOp, MissUpdate))) && ea.rows == old(ea.rows)
      ensures DoneRowsKept(old(ea.rows), ea.rows)
    {
      var tx := Begin();
      var txErr := tx.RemoveReserve(ev.id);
      if txErr.None? {
        txErr := tx.ChangeStatus(ev.id);
      }
      Finish(tx, txErr);
      MarkedDoneIdempotent(old(ea.rows), ev.id);
      if txErr.Some? {
        return Some(Wrapped(ConfirmEventOp, txErr.value));
      }
      return None;
    }

    /** As written, this runs `RemoveReserve`, which marks the event "done":
        the failed event is never eligible again (see `MarkedDoneIsTerminal`). */
    method ConfirmFailed(ev: FailedEvent) returns (err: Option<Error>)
      modifies ea
      ensures ev.id in old(ea.rows) ==> err == None && ea.rows == MarkedDone(old(ea.rows), ev.id)
      ensures ev.id !in old(ea.rows) ==>
        err == Some(Wrapped(ConfirmFailedOp, Wrapped(RemoveReserveOp, MissUpdate))) && ea.rows == old(ea.rows)
      ensures DoneRowsKept(old(ea.rows), ea.rows)
    {
      var tx := Begin();
      var txErr := tx.RemoveReserve(ev.id);
      Finish(tx, txErr);
      MarkedDoneIdempotent(old(ea.rows), ev.id);
      if txErr.Some? {
        return Some(Wrapped(ConfirmFailedOp, txErr.value));
      }
      return None;
    }

    /** A direct pass-through to `Create`.  The usecase opens no transaction
        of its own; the insert joins whatever transaction the caller's context
        carries, which is not modelled: here it is applied to the committed
        table as an autocommit statement. */
    method AddNewEvent(ev: CreateEvent, genId: string, dbNow: int) returns (id: string, err: Option<Error>)
      modifies ea
      ensures genId !in old(ea.rows) ==> err == None && id == genId && ea.rows == old(ea.rows)[genId := NewRow(ev, dbNow)]
      ensures genId in old(ea.rows) ==> err == Some(Wrapped(CreateOp, Internal)) && id == "" && ea.rows == old(ea.rows)
    {
      id, err := ea.Create(ev, genId, dbNow);
    }
  }
}
