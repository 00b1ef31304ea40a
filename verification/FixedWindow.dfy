/** The vocabulary shared by every view of the rate limiter: keys, settings, and
    what one fixed window does with one request. */
module FixedWindow {

  /** A counter is kept per session and tool. */
  datatype Key = Key(session: string, tool: string)

  /** What a limiter is built with. Nothing writes these after construction.
      Times are nanoseconds, as in Go's `time.Duration`. */
  datatype Settings = Settings(limits: map<string, int>, defaultLimit: int, windowSize: int, cleanupInterval: int) {

    /** The limit of a tool: its own if configured, else the default. */
    function Limit(tool: string): int {
      if tool in limits then limits[tool] else defaultLimit
    }

    /** How many requests one window of a tool can accept: none if the limit is negative. */
    function Quota(tool: string): nat {
      if Limit(tool) <= 0 then 0 else Limit(tool)
    }
  }

  /** The two mutable fields of a counter. */
  datatype Window = Window(count: int, start: int)

  /** A request that reads the clock at `now` reopens an expired window; the test is `>=`. */
  function Roll(w: Window, now: int, windowSize: int): Window {
    if now - w.start >= windowSize then Window(0, now) else w
  }

  /** Cleanup drops a window whose start lies more than the interval back; the test is `>`. */
  predicate Stale(w: Window, now: int, cleanupInterval: int) {
    now - w.start > cleanupInterval
  }

  /** A window that cleanup drops has expired, for all the strict `>` there and the `>=` above. */
  predicate DropsOnlyExpired(cfg: Settings) {
    cfg.windowSize <= 0 || cfg.windowSize <= cfg.cleanupInterval + 1
  }
}
