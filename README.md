# Outbox dispatch core, modelled in Dafny

This project models the core of a Go transactional-outbox library. Domain events are recorded as rows in an
`events` table. A polling engine leases the eligible rows and publishes them to a Kafka producer. The
producer's asynchronous success and error acknowledgments are correlated back to the rows and confirmed in
the store.

The model covers five pieces:

- `postgres.go` — module `Postgres`. The table is a map from the generated id to a `Row`. The class
  `EventPostgres` has the eligibility query, the insert, the two single-row status updates and the batch
  lease update. Each update keeps the source's row-count check, which turns a mismatch into `ErrMissUpdate`.
- `usecase.go` — module `Usecase`. It composes those operations inside the transaction wrapper. `Begin`
  copies the committed table; `Finish` commits the copy on a nil error and drops it otherwise.
- `config.go` — module `Configuration`. `ValidateConfig` clamps each field of a `Config` in place.
- `kafka.go` — module `Kafka`. `Publish` builds the message and hands it to the producer's input. The two
  acknowledgment pumps are loops over a finite upstream sequence, each guarded by a started-once flag.
- `model.go` and `errors.go` — modules `Model` and `Errors`. They hold the records, the status values, and
  the three sentinel errors with `%w` wrapping and `errors.Is`.

Module `Scenario` runs one event through all of them.

Time is passed in as integers (nanoseconds). The eligibility test uses the database clock (`now()`). The
lease expiry uses the application clock (`time.Now()`). The two clocks are separate parameters.

Some of the code's behaviour is easy to misread; the model follows the code as written:

- `RemoveReserve` sets `status = 'done'` and never clears `reserved_to`. So `ConfirmFailed` marks a
  rejected event done (it is not released for retry), and `ConfirmEvent` leaves the lease in place.
- `FindNewAndNotReserved` ignores its `limit`: the query has no LIMIT clause. It also has no ORDER BY, so
  the result order is unspecified.
- `validateConfig` reports nothing: it replaces each out-of-range field with the bound it crossed. The
  lease floor it enforces is 25 seconds (config.go:26).

## Model

| member | source | states |
|---|---|---|
| `Errors.Is` | usecase.go:108 | Go's `errors.Is` over the `%w` chain; its meaning for sentinels is proved in `IsSentinel` and used by `ReserveErrorKeepsSentinel` |
| `Errors.IsSentinel` | usecase.go:107-110 | `errors.Is(err, sentinel)` holds exactly when the `%w` chain of `err` ends in that sentinel |
| `Model.StatusStringRoundTrip` | model.go:33-37 | `String` gives back the text a status was made from; two statuses with the same text are equal |
| `Model.NamedStatusesDistinct` | model.go:39-40 | the two named statuses are "new" and "done", and they are distinct |
| `Postgres.Eligible` | postgres.go:33-34 | the WHERE clause of the eligibility query (status not "done", lease null or before `now()`); what it selects is stated by `FindNewAndNotReserved`, `MarkedDoneIsTerminal`, `LeasedNotEligible` and `LeaseExpires` |
| `Postgres.Scan` | postgres.go:49-50 | `rows.Scan` of one row into an `Event`; `FindNewAndNotReserved` and `ReserveNewEvents` state that every returned event is exactly the scan of its row |
| `Postgres.NewRow` | postgres.go:76-79 | an inserted row carries the request's aggregate id, topic, type and payload, and is eligible when it is created |
| `Postgres.SetStatus` | postgres.go:96 | the status update changes only the status of the row with that id; the key set and every other row stay the same |
| `Postgres.Leased` | postgres.go:143 | the lease update sets `reserved_to` to the expiry on exactly the rows whose id is listed; keys and all other rows are unchanged |
| `Postgres.EventPostgres.FindNewAndNotReserved` | postgres.go:26-69 | returns every row with status not "done" and lease null or past `now`, each once, as scanned; `limit` has no effect; with no such row it returns no events and an error wrapping `ErrNoNewEvents` |
| `Postgres.EventPostgres.Create` | postgres.go:71-90 | with a fresh generated key, adds exactly that one row and returns its id; a taken key fails with `ErrInternal` and writes nothing |
| `Postgres.EventPostgres.ExecSetStatus` | postgres.go:96-100 | runs the status update and reports 1 affected row when the id is present, 0 otherwise |
| `Postgres.EventPostgres.RemoveReserve` | postgres.go:92-113 | sets the row's status to "done" and leaves `reserved_to` and all other rows alone; succeeds iff the id is present, else `ErrMissUpdate` |
| `Postgres.EventPostgres.ChangeStatus` | postgres.go:115-135 | the same update and the same check: succeeds iff the id is present, else `ErrMissUpdate` |
| `Postgres.EventPostgres.ExecSetReservedTo` | postgres.go:143-147 | runs the lease update and reports how many present rows the id list matched |
| `Postgres.EventPostgres.SetReservedToByIDs` | postgres.go:137-161 | leases the listed rows until `appNow + dur`; fails with `ErrMissUpdate` unless the matched count equals `len(ids)` |
| `Postgres.LeaseCountExact` | postgres.go:153-157 | the row-count check passes iff every id is known and no id is repeated, so an unknown or a duplicate id is a mismatch |
| `Postgres.MarkedDoneIsTerminal` | postgres.go:31-34 | after the status update a row is never eligible again, and every other row's eligibility is unchanged |
| `Postgres.MarkedDoneIdempotent` | postgres.go:118-134 | marking done twice equals marking once; on an already "done" row or an unknown id the table is unchanged |
| `Postgres.LeasedNotEligible` | postgres.go:137-147 | until the lease time passes, leased rows drop out of the eligibility query and no other row's eligibility changes |
| `Postgres.LeaseExpires` | postgres.go:31-34 | once its lease time has passed, a leased row is eligible again exactly when its status is not "done" |
| `Postgres.LeasingEligibleKeepsDone` | usecase.go:86-98 | leasing only the eligible rows leaves every "done" row untouched |
| `Usecase.IdsOf` | usecase.go:92-96 | the id list has the events' length and `ids[i] == events[i].ID` |
| `Usecase.FoundBatchLeasesExactly` | usecase.go:86-98 | a batch found by the query always passes the lease update's row-count check, and the leased ids are exactly the eligible ids |
| `Usecase.ReserveError` | usecase.go:107-112 | the error mapping after a failed reservation; `ReserveErrorKeepsSentinel` proves it keeps the sentinel the store's error ends in |
| `Usecase.ReserveErrorKeepsSentinel` | usecase.go:107-112 | the mapped error ends in the same sentinel as the store's error, and `errors.Is` against any sentinel answers the same on both |
| `Usecase.EventUsecase.Begin` | usecase.go:84 | a transaction starts on a private copy of the committed table |
| `Usecase.EventUsecase.Finish` | usecase.go:84-105 | the transaction commits its table on a nil error and otherwise leaves the committed table as it was |
| `Usecase.EventUsecase.ReserveNewEvents` | usecase.go:78-115 | returns exactly the eligible rows, as read before the lease, and leases every one of them; nothing else changes; with none eligible it returns nil events, an error wrapping `ErrNoNewEvents`, and an unchanged table; any error leaves no partial lease and no events |
| `Usecase.EventUsecase.ConfirmEvent` | usecase.go:50-76 | a known id ends "done" with nothing else changed; an unknown id fails with `ErrMissUpdate` and the table is unchanged |
| `Usecase.EventUsecase.ConfirmFailed` | usecase.go:29-48 | as written, a known id also ends "done", so it is not eligible again; an unknown id fails with `ErrMissUpdate` and the table is unchanged |
| `Usecase.EventUsecase.AddNewEvent` | usecase.go:25-27 | behaves exactly as `Create` |
| `Configuration.Clamp` | config.go:30-44 | a clamped count lies in its bounds, is unchanged when already inside, and is the point of the bounds nearest the input |
| `Configuration.AtLeast` | config.go:46-56 | a clamped duration is at least its floor, is unchanged when already at or above it, and is the nearest such value |
| `Configuration.Validated` | config.go:17-57 | after validation every field is in bounds: 1..10 workers, 1..100 limit, interval ≥ 5s, lease ≥ 25s, timeout ≥ 1100ms; an in-bounds configuration is unchanged |
| `Configuration.ValidateConfig` | config.go:17-57 | the in-place assignments leave the configuration equal to `Validated` of its old value; nothing can fail |
| `Configuration.ValidatedIdempotent` | config.go:17-57 | validating twice gives the same result as validating once |
| `Configuration.ValidatedNearestBound` | config.go:30-56 | an out-of-range field becomes the bound it crossed |
| `Configuration.ValidatedFieldwise` | config.go:30-56 | each validated field depends on that field of the input alone |
| `Configuration.DurationsUnbounded` | config.go:46-56 | durations at or above their floors are kept, however large: there is no upper bound |
| `Kafka.BuildMessage` | kafka.go:38-58 | the message `Publish` builds; its fields, headers and correlation tag are stated by `PublishCorrelates`, and its acknowledgments by `SuccessRoundTrip` and `FailureBatchRoundTrip` |
| `Kafka.Decode` | kafka.go:80 | the metadata type assertion succeeds exactly on the adapter's own correlation tag |
| `Kafka.SuccessesOf` | kafka.go:76-88 | the success pump emits at most one acknowledgment per upstream message |
| `Kafka.FailuresOf` | kafka.go:108-121 | the error pump emits at most one failure per upstream outcome |
| `Kafka.ProduceKafka.constructor` | kafka.go:27-33 | a new adapter has sent nothing, has neither pump started, and has two fresh, open, empty downstream channels |
| `Kafka.ProduceKafka.Publish` | kafka.go:35-66 | on hand-off it returns nil and appends exactly the built message to the input; when the context wins it returns an error wrapping the context error and sends nothing |
| `Kafka.ProduceKafka.PumpSuccesses` | kafka.go:70-91 | forwards one `SuccessEvent{ID, Type}` per decodable message, in arrival order, until cancellation or end of stream, then closes the channel |
| `Kafka.ProduceKafka.PumpErrors` | kafka.go:102-124 | forwards one `FailedEvent` per decodable outcome, with `Error` wrapping the producer's error, then closes the channel |
| `Kafka.ProduceKafka.GetSuccesses` | kafka.go:68-95 | the pump runs only on the first call; every call returns the same channel, which is closed once the pump has stopped |
| `Kafka.ProduceKafka.GetErrors` | kafka.go:97-128 | the same started-once behaviour for the error stream |
| `Kafka.PublishCorrelates` | kafka.go:38-58 | the built message has Topic = topic, Key = aggregate id, Value = payload; its headers are exactly `[event_id: id, event_type: type]` in that order, and a lookup by either name finds that value; its metadata decodes to {ID, Type} |
| `Kafka.SuccessRoundTrip` | kafka.go:80-87 | acknowledging the messages published for a batch yields, in order, each event's ID and Type |
| `Kafka.FailureRoundTrip` | kafka.go:112-120 | a rejected published message comes back with the event's ID and Type and an error that wraps the producer's error |
| `Kafka.FailureBatchRoundTrip` | kafka.go:112-120 | rejecting the messages published for a batch yields, in order, each event's ID and Type with an error wrapping that message's producer error |
| `Kafka.SuccessesAreCorrelated` | kafka.go:76-88 | every forwarded acknowledgment carries the tag of some upstream message: the pump invents nothing |
| `Kafka.SuccessesDropOnlyUntagged` | kafka.go:80-83 | no message is dropped exactly when every upstream message carries the correlation tag |
| `Scenario.DeliverOne` | usecase.go:50-115 | an event inserted into an empty table that is reserved, published and acknowledged comes back with its own id and type, ends "done" with its lease still set, and is never eligible again |

## Left out

- The `ErrInternal` paths for query, scan, rows and exec failures of the database driver (postgres.go:39, :53, :60, :86, :103, :125, :150) are not modelled. Only the insert of an already-taken key is modelled as `ErrInternal`.
- The database generates the id of an inserted row. It is a parameter (`genId`) of `Create` and `AddNewEvent`.
- The insert names only four columns. The other three take the schema's defaults: status "new", `created_at` = the database clock, `reserved_to` NULL. These defaults are written into `NewRow` because they are not visible in the code.
- The transaction manager is external. The model assumes commit on a nil error and rollback otherwise. Failures of begin or commit are not modelled.
- The exact error values stated for `ReserveNewEvents`, `ConfirmEvent` and `ConfirmFailed` assume that `txm.Wrap` returns the body's error unchanged.
- `Create` runs on the transaction extracted from the caller's context (postgres.go:74). That caller's transaction is not modelled: `AddNewEvent` applies the insert to the committed table as if it autocommitted.
- Other engine instances writing to the table concurrently are not modelled. Because of that, the model proves the `ErrMissUpdate` paths of `ReserveNewEvents` and of `ConfirmEvent`'s second update unreachable. The rollback those paths trigger is still stated for any error.
- The pumps are goroutines. In the model a pump runs to completion on the first `GetSuccesses`/`GetErrors` call, over a finite upstream.
- Context cancellation is the `stop` count: the number of upstream items a pump takes before the context wins. The random choice of Go's `select` in `Publish` is the `SendOutcome` parameter.
- Unbuffered-channel blocking, and the identity of the producer's channels, are not modelled.
- A nil `*messageMetadata` stored in the metadata interface would make the pump panic. This is not modelled.
- Error texts (the `%v` parts and message formatting) are not modelled. Only the wrapping chain is kept.
- Integers are unbounded. Go's 64-bit `int`/`time.Duration` and the overflow of `time.Time.Add` are not modelled; no clamping arithmetic in the source can overflow.
- Sarama's `StringEncoder`/`ByteEncoder` and the `[]byte(string)` header conversions are identity on the bytes, so keys and header values are kept as text.
- app.go (ticker loop, single-flight flag, worker pool, `Start`/`Stop`) and the `Find` stub (postgres.go:21-24) are not part of this model.
- Logging and the wall clock are not modelled. Times are integer parameters.
