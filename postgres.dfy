/**
 * The events table and the five store operations of postgres.go.  The table
 * is a map from the generated `id` to the rest of the row; every operation
 * of `EventPostgres` runs against the table of the transaction it was given
 * (the usecase hands it a transaction copy), and the specification functions
 * below say what each SQL statement does to a table.
 *
 * Two clocks appear: `now` is the database's `now()`, used by the
 * eligibility query; `appNow` is the application's `time.Now()`, used to
 * compute a lease expiry.  Both are integers (nanoseconds).
 */
module Postgres {
  import opened Wrappers
  import opened Errors
  import opened Model

  /** One row of the events table, keyed by its id. */
  datatype Row = Row(
    aggregateId: string,
    topic: string,
    eventType: string,
    payload: seq<byte>,
    status: string,
    createdAt: int,
    reservedTo: Option<int>)

  type Table = map<string, Row>

  const FindOp := "outbox.FindNewAndNotReserved"
  const CreateOp := "outbox.CreateEvent"
  const RemoveReserveOp := "outbox.RemoveReserve"
  const ChangeStatusOp := "outbox.ChangeStatus"
  const SetReservedOp := "outbox.SetReservedToByIds"

  /** The WHERE clause of the eligibility query: any status other than
      "done", and no lease or a lease already in the past. */
  predicate Eligible(r: Row, now: int)
  {
    r.status != StatusDone.String() && (r.reservedTo.None? || r.reservedTo.value < now)
  }

  function EligibleIds(t: Table, now: int): set<string>
  {
    set id | id in t && Eligible(t[id], now)
  }

  /** `rows.Scan` of one result row into an `Event`. */
  function Scan(id: string, r: Row): Event
  {
    Event(id, r.aggregateId, r.topic, r.eventType, r.payload, EventStatus(r.status), r.createdAt, r.reservedTo)
  }

  function IdSet(events: seq<Event>): set<string>
  {
    set i | 0 <= i < |events| :: events[i].id
  }

  predicate DistinctIds(events: seq<Event>)
  {
    forall i, j :: 0 <= i < j < |events| ==> events[i].id != events[j].id
  }

  /** Every event is exactly what scanning its row of `t` gives. */
  predicate ScannedFrom(t: Table, events: seq<Event>)
  {
    forall i :: 0 <= i < |events| ==> events[i].id in t && events[i] == Scan(events[i].id, t[events[i].id])
  }

  function Elems(s: seq<string>): set<string>
  {
    set x | x in s
  }

  predicate Distinct(s: seq<string>)
  {
    forall i, j :: 0 <= i < j < |s| ==> s[i] != s[j]
  }

  /** The row an insert of `d` creates.  The statement names only the four
      request columns; status, created_at and reserved_to take the schema's
      defaults ("new", the database clock, NULL). */
  function NewRow(d: CreateEvent, now: int): (r: Row)
    ensures r.aggregateId == d.aggregateId && r.topic == d.topic && r.eventType == d.eventType && r.payload == d.payload
    ensures Eligible(r, now)
  {
    Row(d.aggregateId, d.topic, d.eventType, d.payload, StatusNew.String(), now, None)
  }

  /** `update events set status = $1 where id = $2`. */
  function SetStatus(t: Table, id: string, status: string): (r: Table)
    ensures r.Keys == t.Keys
    ensures forall k :: k in t && k != id ==> r[k] == t[k]
    ensures id in t ==> r[id] == t[id].(status := status)
  {
    map k | k in t :: if k == id then t[k].(status := status) else t[k]
  }

  /** The update both `RemoveReserve` and `ChangeStatus` run. */
  function MarkedDone(t: Table, id: string): Table
  {
    SetStatus(t, id, StatusDone.String())
  }

  /** `update events set reserved_to = $1 where id = ANY ($2)`. */
  function Leased(t: Table, ids: set<string>, until: int): (r: Table)
    ensures r.Keys == t.Keys
    ensures forall k :: k in t && k !in ids ==> r[k] == t[k]
    ensures forall k :: k in t && k in ids ==> r[k] == t[k].(reservedTo := Some(until))
  {
    map k | k in t :: if k in ids then t[k].(reservedTo := Some(until)) else t[k]
  }

  /** The rows an `id = ANY (ids)` condition matches. */
  function Matched(t: Table, ids: seq<string>): (m: set<string>)
    ensures m <= t.Keys && m <= Elems(ids)
  {
    set k | k in t && k in ids
  }

  class EventPostgres {
    var rows: Table

    constructor (rows: Table)
      ensures this.rows == rows
    {
      this.rows := rows;
    }

    /** The eligibility query and its `rows.Next()` loop.  The table is
        visited in no particular order (the query has no ORDER BY), and the
        `limit` argument is not used: the query has no LIMIT clause. */
    method FindNewAndNotReserved(limit: int, now: int) returns (events: seq<Event>, err: Option<Error>)
      ensures IdSet(events) == EligibleIds(rows, now)
      ensures DistinctIds(events) && ScannedFrom(rows, events)
      ensures err == if events == [] then Some(Wrapped(FindOp, NoNewEvents)) else None
    {
      events := [];
      var pending := rows.Keys;
      while pending != {}
        invariant pending <= rows.Keys
        invariant IdSet(events) == EligibleIds(rows, now) - pending
        invariant forall i :: 0 <= i < |events| ==> events[i].id !in pending
        invariant DistinctIds(events) && ScannedFrom(rows, events)
        decreases pending
      {
        var id :| id in pending;
        if Eligible(rows[id], now) {
          IdSetAppend(events, Scan(id, rows[id]));
          events := events + [Scan(id, rows[id])];
        }
        pending := pending - {id};
      }
      if |events| == 0 {
        events := [];
        err := Some(Wrapped(FindOp, NoNewEvents));
      } else {
        err := None;
      }
    }

    /** Insert of a new row.  `genId` is the key the database generates for
        it; an insert whose key is already taken fails (a unique violation
        surfaces as a scan error, hence `ErrInternal`) and writes nothing. */
    method Create(d: CreateEvent, genId: string, now: int) returns (id: string, err: Option<Error>)
      modifies this
      ensures genId !in old(rows) ==> err == None && id == genId && rows == old(rows)[genId := NewRow(d, now)]
      ensures genId in old(rows) ==> err == Some(Wrapped(CreateOp, Internal)) && id == "" && rows == old(rows)
    {
      if genId in rows {
        return "", Some(Wrapped(CreateOp, Internal));
      }
      rows := rows[genId := NewRow(d, now)];
      id, err := genId, None;
    }

    /** `Exec` of the status update; the result is `RowsAffected()`. */
    method ExecSetStatus(status: string, id: string) returns (affected: nat)
      modifies this
      ensures rows == SetStatus(old(rows), id, status)
      ensures affected == if id in old(rows) then 1 else 0
    {
      affected := if id in rows then 1 else 0;
      rows := SetStatus(rows, id, status);
    }

    /** Despite its name, this sets status "done" and leaves `reserved_to`
        as it was. */
    method RemoveReserve(id: string) returns (err: Option<Error>)
      modifies this
      ensures rows == MarkedDone(old(rows), id)
      ensures err == if id in old(rows) then None else Some(Wrapped(RemoveReserveOp, MissUpdate))
    {
      var affected := ExecSetStatus(StatusDone.String(), id);
      if affected != 1 {
        return Some(Wrapped(RemoveReserveOp, MissUpdate));
      }
      return None;
    }

    method ChangeStatus(id: string) returns (err: Option<Error>)
      modifies this
      ensures rows == MarkedDone(old(rows), id)
      ensures err == if id in old(rows) then None else Some(Wrapped(ChangeStatusOp, MissUpdate))
    {
      var affected := ExecSetStatus(StatusDone.String(), id);
      if 1 != affected {
        return Some(Wrapped(ChangeStatusOp, MissUpdate));
      }
      return None;
    }

    /** `Exec` of the lease update; the result is `RowsAffected()`. */
    method ExecSetReservedTo(until: int, ids: seq<string>) returns (affected: nat)
      modifies this
      ensures rows == Leased(old(rows), Elems(ids), until)
      ensures affected == |Matched(old(rows), ids)|
    {
      affected := |Matched(rows, ids)|;
      rows := Leased(rows, Elems(ids), until);
    }

    /** Leases the rows named by `ids` until `appNow + dur`; any row count
        other than `|ids|` is a mismatch (see `LeaseCountExact`). */
    method SetReservedToByIDs(ids: seq<string>, dur: int, appNow: int) returns (err: Option<Error>)
      modifies this
      ensures rows == Leased(old(rows), Elems(ids), appNow + dur)
      ensures err == if |Matched(old(rows), ids)| == |ids| then None else Some(Wrapped(SetReservedOp, MissUpdate))
    {
      var reservedTo := appNow + dur;
      var affected := ExecSetReservedTo(reservedTo, ids);
      if affected != |ids| {
        return Some(Wrapped(SetReservedOp, MissUpdate));
      }
      return None;
    }
  }

  // ---------------------------------------------------------------------
  // Properties of the statements

  /** The number of distinct elements of a sequence is at most its length,
      and equals it exactly when no element repeats. */
  lemma {:induction false} ElemsCount(s: seq<string>)
    ensures |Elems(s)| <= |s|
    ensures |Elems(s)| == |s| <==> Distinct(s)
  {
    if s != [] {
      var tail := s[1..];
      ElemsCount(tail);
      assert Elems(s) == {s[0]} + Elems(tail) by {
        forall x ensures x in Elems(s) <==> x in {s[0]} + Elems(tail) {
          assert x in s <==> x == s[0] || x in tail;
        }
      }
      if s[0] in tail {
        assert Elems(s) == Elems(tail);
        var j :| 0 <= j < |tail| && tail[j] == s[0];
        assert s[0] == s[j + 1];
      } else {
        assert |Elems(s)| == 1 + |Elems(tail)|;
        if Distinct(tail) {
          forall i, j | 0 <= i < j < |s| ensures s[i] != s[j] {
            if i == 0 {
              assert s[j] == tail[j - 1];
            } else {
              assert s[i] == tail[i - 1] && s[j] == tail[j - 1];
            }
          }
        } else {
          var i, j :| 0 <= i < j < |tail| && tail[i] == tail[j];
          assert s[i + 1] == s[j + 1];
        }
      }
    }
  }

  lemma IdSetAppend(events: seq<Event>, e: Event)
    ensures IdSet(events + [e]) == IdSet(events) + {e.id}
  {
    var longer := events + [e];
    forall x | x in IdSet(longer) ensures x in IdSet(events) + {e.id} {
      var i :| 0 <= i < |longer| && longer[i].id == x;
      if i < |events| {
        assert events[i].id == x;
      }
    }
    forall x | x in IdSet(events) ensures x in IdSet(longer) {
      var i :| 0 <= i < |events| && events[i].id == x;
      assert longer[i].id == x;
    }
    assert longer[|events|].id == e.id;
  }

  lemma SubsetSize(a: set<string>, b: set<string>)
    requires a <= b
    ensures |a| <= |b|
  {
    assert b == a + (b - a);
  }

  lemma SubsetOfSameSize(a: set<string>, b: set<string>)
    requires a <= b && |a| == |b|
    ensures a == b
  {
    assert b == a + (b - a);
    assert |b - a| == 0;
  }

  /** The lease update's row-count check passes exactly when the ids are all
      known and none is repeated: an unknown or a duplicate id is a mismatch. */
  lemma LeaseCountExact(t: Table, ids: seq<string>)
    ensures |Matched(t, ids)| == |ids| <==> Distinct(ids) && forall i :: 0 <= i < |ids| ==> ids[i] in t
  {
    var m := Matched(t, ids);
    ElemsCount(ids);
    SubsetSize(m, Elems(ids));
    if |m| == |ids| {
      SubsetOfSameSize(m, Elems(ids));
      forall i | 0 <= i < |ids| ensures ids[i] in t {
        assert ids[i] in Elems(ids);
      }
    }
    if Distinct(ids) && forall i :: 0 <= i < |ids| ==> ids[i] in t {
      assert m == Elems(ids) by {
        forall x | x in Elems(ids) ensures x in m {
          var i :| 0 <= i < |ids| && ids[i] == x;
        }
      }
    }
  }

  /** Marking a row done takes it out of every later eligibility query and
      changes no other row's eligibility. */
  lemma MarkedDoneIsTerminal(t: Table, id: string, now: int)
    ensures EligibleIds(MarkedDone(t, id), now) == EligibleIds(t, now) - {id}
  {
  }

  /** The status update is idempotent, and on a row that is already "done"
      it changes nothing. */
  lemma MarkedDoneIdempotent(t: Table, id: string)
    ensures MarkedDone(MarkedDone(t, id), id) == MarkedDone(t, id)
    ensures id in t && t[id].status == StatusDone.String() ==> MarkedDone(t, id) == t
    ensures id !in t ==> MarkedDone(t, id) == t
  {
  }

  /** While a lease set to `until` has not passed (`now <= until`), the
      leased rows are not eligible, and every other row is as eligible as it
      was. */
  lemma LeasedNotEligible(t: Table, ids: set<string>, until: int, now: int)
    requires now <= until
    ensures EligibleIds(Leased(t, ids, until), now) == EligibleIds(t, now) - ids
  {
  }

  /** Once the lease has passed, a leased row is eligible again exactly when
      it is not "done". */
  lemma LeaseExpires(t: Table, ids: set<string>, until: int, now: int, id: string)
    requires until < now && id in t && id in ids
    ensures id in EligibleIds(Leased(t, ids, until), now) <==> t[id].status != StatusDone.String()
  {
  }

  /** Rows that are "done" are present and unchanged in `u`. */
  ghost predicate DoneRowsKept(t: Table, u: Table)
  {
    forall id :: id in t && t[id].status == StatusDone.String() ==> id in u && u[id] == t[id]
  }

  /** Leasing only eligible rows never touches a "done" row. */
  lemma LeasingEligibleKeepsDone(t: Table, now: int, until: int)
    ensures DoneRowsKept(t, Leased(t, EligibleIds(t, now), until))
  {
  }
}
