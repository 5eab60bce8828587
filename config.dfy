/**
 * The engine configuration of config.go and `validateConfig`, which forces
 * every field into its bounds in place.  Nothing is reported: out-of-range
 * values are silently replaced.  Durations are integers in nanoseconds.
 */
module Configuration {

  const Millisecond: int := 1_000_000
  const Second: int := 1000 * Millisecond

  const MinWorkers: int := 1
  const MaxWorkers: int := 10
  const MinLimit: int := 1
  const MaxLimit: int := 100
  const MinInterval: int := 5 * Second
  const MinReserve: int := 25 * Second
  const MinProcessTimeout: int := 1100 * Millisecond

  /** The value of a `Config` record. */
  datatype Settings = Settings(limit: int, workers: int, interval: int, reserveDuration: int, processTimeout: int)

  class Config {
    var limit: int
    var workers: int
    var interval: int
    var reserveDuration: int
    var processTimeout: int

    constructor (s: Settings)
      ensures Value() == s
    {
      limit, workers, interval, reserveDuration, processTimeout :=
        s.limit, s.workers, s.interval, s.reserveDuration, s.processTimeout;
    }

    function Value(): Settings
      reads this
    {
      Settings(limit, workers, interval, reserveDuration, processTimeout)
    }
  }

  function Distance(a: int, b: int): nat
  {
    if a < b then b - a else a - b
  }

  /** `x` forced into `[lo, hi]`: the point of the interval nearest to `x`. */
  function Clamp(x: int, lo: int, hi: int): (r: int)
    requires lo <= hi
    ensures lo <= r <= hi
    ensures lo <= x <= hi ==> r == x
    ensures forall y :: lo <= y <= hi ==> Distance(r, x) <= Distance(y, x)
  {
    if x < lo then lo else if x > hi then hi else x
  }

  /** `x` raised to the floor `lo` when below it; no upper bound. */
  function AtLeast(x: int, lo: int): (r: int)
    ensures lo <= r
    ensures lo <= x ==> r == x
    ensures forall y :: lo <= y ==> Distance(r, x) <= Distance(y, x)
  {
    if x < lo then lo else x
  }

  predicate InBounds(s: Settings)
  {
    && MinWorkers <= s.workers <= MaxWorkers
    && MinLimit <= s.limit <= MaxLimit
    && MinInterval <= s.interval
    && MinReserve <= s.reserveDuration
    && MinProcessTimeout <= s.processTimeout
  }

  /** What validation makes of a configuration, field by field. */
  function Validated(s: Settings): (r: Settings)
    ensures InBounds(r)
    ensures InBounds(s) ==> r == s
  {
    Settings(
      Clamp(s.limit, MinLimit, MaxLimit),
      Clamp(s.workers, MinWorkers, MaxWorkers),
      AtLeast(s.interval, MinInterval),
      AtLeast(s.reserveDuration, MinReserve),
      AtLeast(s.processTimeout, MinProcessTimeout))
  }

  /** `validateConfig`: one conditional assignment at a time, through the
      pointer. */
  method ValidateConfig(cfg: Config)
    modifies cfg
    ensures cfg.Value() == Validated(old(cfg.Value()))
  {
    if cfg.workers < MinWorkers {
      cfg.workers := MinWorkers;
    }
    if cfg.workers > MaxWorkers {
      cfg.workers := MaxWorkers;
    }
    if cfg.limit < MinLimit {
      cfg.limit := MinLimit;
    }
    if cfg.limit > MaxLimit {
      cfg.limit := MaxLimit;
    }
    if cfg.interval < MinInterval {
      cfg.interval := MinInterval;
    }
    if cfg.reserveDuration < MinReserve {
      cfg.reserveDuration := MinReserve;
    }
    if cfg.processTimeout < MinProcessTimeout {
      cfg.processTimeout := MinProcessTimeout;
    }
  }

  /** Validating twice is validating once. */
  lemma ValidatedIdempotent(s: Settings)
    ensures Validated(Validated(s)) == Validated(s)
  {
  }

  /** An out-of-range field becomes the bound it crossed. */
  lemma ValidatedNearestBound(s: Settings)
    ensures s.workers < MinWorkers ==> Validated(s).workers == MinWorkers
    ensures s.workers > MaxWorkers ==> Validated(s).workers == MaxWorkers
    ensures s.limit < MinLimit ==> Validated(s).limit == MinLimit
    ensures s.limit > MaxLimit ==> Validated(s).limit == MaxLimit
    ensures s.interval < MinInterval ==> Validated(s).interval == MinInterval
    ensures s.reserveDuration < MinReserve ==> Validated(s).reserveDuration == MinReserve
    ensures s.processTimeout < MinProcessTimeout ==> Validated(s).processTimeout == MinProcessTimeout
  {
  }

  /** Each validated field depends on that field of the input alone. */
  lemma ValidatedFieldwise(s: Settings, u: Settings)
    ensures s.limit == u.limit ==> Validated(s).limit == Validated(u).limit
    ensures s.workers == u.workers ==> Validated(s).workers == Validated(u).workers
    ensures s.interval == u.interval ==> Validated(s).interval == Validated(u).interval
    ensures s.reserveDuration == u.reserveDuration ==> Validated(s).reserveDuration == Validated(u).reserveDuration
    ensures s.processTimeout == u.processTimeout ==> Validated(s).processTimeout == Validated(u).processTimeout
  {
  }

  /** The duration floors are floors only: any duration at or above them,
      however large, is kept. */
  lemma DurationsUnbounded(s: Settings)
    requires MinInterval <= s.interval && MinReserve <= s.reserveDuration && MinProcessTimeout <= s.processTimeout
    ensures Validated(s).interval == s.interval
    ensures Validated(s).reserveDuration == s.reserveDuration
    ensures Validated(s).processTimeout == s.processTimeout
  {
  }
}
