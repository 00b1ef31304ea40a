# Verified models of MKP

This project models the stateful and concurrent parts of MKP, the Model Context Protocol
server for Kubernetes, in Dafny and proves what they keep over whole runs. It covers the
rate limiter (pkg/ratelimit), the pod-log read budget, the client refresh, apply and pod exec
(pkg/k8s), the resource URIs (pkg/mcp) and the way from a bearer token's claims to the client
that acts for its user (pkg/identity, pkg/mcp). `dafny verify dfyconfig.toml` checks it.

## How the models are built

**Step systems.** Where several goroutines share state, the model is a state, a set of
actions and a function from state and action to the next state. An action its agent cannot take
leaves the state alone, so every sequence of actions is a run, and a theorem about all
sequences of actions is one about all interleavings. Fields such as `log`, `key`, `since`,
`current`, `start` and `at`, of which the code has no counterpart, record history; no step
depends on them.

**Objects.** Where the code updates fields in place (`RateLimiter`, `windowCounter`,
`boundedBuffer`, `PodLogOptions`, the refresh state of `Client`), a class does the same, and its
methods are proved against functions about which the theorems are proved.

- `FixedWindow`, `LimiterProtocol`, `AcceptLog`: keys, settings, the steps of requests and cleanup,
  and the log of what was let through. `rl.mu` is a Go RWMutex: a writer announces itself, which shuts
  out new readers, and enters once the readers have left. A request holds its counter's mutex while its
  handler runs. The two levels of `requestCounts` are flattened to one map here; the class in
  `RateLimiters` has them nested.
- `LimiterLocks`, `LimiterDeadlock`: who holds which lock, and exactly when the limiter gets stuck.
- `LimiterHistory`, `LimiterBound`, `LimiterCounters`, `LimiterExact`: what the counters mean, how many
  requests any stretch of time can see accepted by a key or a counter object, and for exactly which
  settings.
- `LimiterAnswers`: what a caller sees, in terms of the limits configured.
- `AtomicLimiter`, `LimiterSerial`, `LimiterAlone`, `LimiterRefinement`, `RateLimiters`: requests and
  cleanups one at a time, as a function of the table; that every history of this function is a run of the
  step system; that every run in which one request or one cleanup is alone does what the function says;
  that key by key every interleaving that strands nobody does; and that the class with its heap objects
  does, over any sequence of calls and cleanups.
- `PodLogOptions`, `PodLogReader`, `PodLogBudget`: parameters, the bounded read, the semaphore.
- `ClientRefresh`, `RefreshOrder`, `RefreshLifecycle`: replacing a client's components under its lock,
  the order in which configurations come into force, and start and stop.
- `ApplyResource`, `ApplyProgress`: get, then update or create, against other writers; that no write is
  lost, and exactly when an apply gets through.
- `PodExec`: the bounded buffer, and the timeout in 64-bit arithmetic.
- `ResourceUri`, `ListResources`: printing, parsing and advertising URIs.
- `Identity`: claims, contexts, impersonated clients.
- `GoLibrary`, `Wrappers`: the little these share.

## What turned out false, and when it holds

- README.md:520 of the repository calls the limiter a token bucket. The code is a fixed window
  (pkg/ratelimit/ratelimit.go:18-19) and so is the model.
- The limiter can deadlock: `cleanup` takes `rl.mu` and then a counter, a request takes its counter
  and then `rl.mu`. `DeadlockReachable` gives a run, `ProgressOrEmbrace` shows that no other way to
  get stuck exists, and `DrainableIffNotDoomed` gives the exact line: a state can still finish all
  its work if and only if no request that has yet to call `getLimit` holds a counter that cleanup,
  already announced, has yet to lock.
- A request can hold a counter that cleanup has unmapped before the request locked it. If that
  may happen, no setting with a positive window and a tool that is let through keeps the
  sliding bound (`StrandedBoundIff`); what always holds is the bound for one counter object, and for a key
  that bound times the number of its objects that accepted anything (`CounterBound`, `KeyBound`). If it
  does not happen, the bound holds exactly when cleanup can only drop windows that have expired, which on
  whole nanoseconds means a window size of at most the cleanup interval and one nanosecond
  (`SlidingBoundIff`).
- Cleanup is invisible in the answers, for calls whose two clock readings coincide, exactly under the
  same condition on the settings (`CleanupInvisibleIff`). A call that makes a counter dates its window from
  the reading in `getCounter`, before it waits for the counter's lock, while a call that finds an
  expired one dates it from the reading after; if part of a window passes in between, cleanup shows
  (`PartialGapShows`, `CleanupInvisibleSlowIff`).
- A counter's `count` is always the number of requests accepted since its window was opened. It
  is also the number of stamps from `windowStart` on exactly when the window size is positive or nothing
  is ever let through (`CountsStampsIff`): windows of no length can start twice at one instant.
- A timeout in seconds is not always taken as meant, since its nanoseconds wrap in 64 bits. `AsMeantIff`
  gives the exact numbers, for every int64: from a minute up, those whose nanoseconds leave, modulo 2^64,
  at least a minute and a positive int64; up to zero, those that leave no positive int64, or leave the
  default of 15 seconds itself, which happens at every 2^55th number from 15 down. From -9223372036 to
  9223372036 all are taken as meant (`SecondsAsMeant`); the next on either side are not (`SecondsThatWrap`).
  The bound of a minute always holds (`ExecTimeout`).
- An empty write to a full buffer sets its truncation mark (`TruncatedIff`).
- Stopping the refresh does not stop the refreshing: a goroutine whose context is cancelled may take any
  number of ticks before its select takes the cancellation (`RefreshesAfterStop`), and each brings a new
  configuration in if it can be read and used (`TickRefreshesIff`). Without another start
  a client's components stay what they are exactly when every refresh goroutine ever started for it has
  returned (`SettledIffAllReturned`).
- A refresh reads its configuration before it takes the lock, so an older configuration can come into
  force after a newer one (`OlderOverNewer`). It can exactly while a refresh that read an older one
  than that in force is under way (`FallsBackIff`).
- The context built by the timeout middleware carries the identity, but of the two sources of a session
  only the client session; `TimeoutKeepsSessionIff` says when the session counted under stays the same.
- A printed URI is read back exactly when its components are well-formed (`ClusteredRoundTrip`,
  `NamespacedRoundTrip`); an advertised one exactly when version and resource name are not empty
  (`AdvertisedRoundTrip`).

## Model

| member | source | states |
|---|---|---|
| LimiterLocks.LocksAlways | pkg/ratelimit/ratelimit.go:82-101 | In every run each mutex is held by exactly the agent between its Lock and Unlock, rl.mu never has a reader and a writer inside together, and cleanup visits only mapped counters. |
| LimiterLocks.LocksKept | pkg/ratelimit/ratelimit.go:136-205 | Every single step keeps that, whoever takes it. |
| LimiterDeadlock.ProgressOrEmbrace | pkg/ratelimit/ratelimit.go:82-95 | In every reachable state all work is finished, or some agent can step, or cleanup inside rl.mu waits for the counter of a request that waits in getLimit. |
| LimiterDeadlock.EmbraceForever | pkg/ratelimit/ratelimit.go:157-191 | Once cleanup and a request wait for each other they do in every continuation. |
| LimiterDeadlock.DoomForever | pkg/ratelimit/ratelimit.go:83-94 | Once announced cleanup has ahead of it a counter held by a request short of getLimit, that stays so. |
| LimiterDeadlock.DrainRun | pkg/ratelimit/ratelimit.go:168-206 | From any other consistent state there is a run of steps that only finish work begun, and it finishes all of it. |
| LimiterDeadlock.DrainableIffNotDoomed | pkg/ratelimit/ratelimit.go:82-95 | A reachable state has a continuation that finishes all work if and only if it is not in that situation. |
| LimiterDeadlock.WorkShrinks | pkg/ratelimit/ratelimit.go:168-206 | Every step that is no clock tick, arrival or start of cleanup uses up work, so there is no livelock. |
| LimiterDeadlock.DeadlockReachable | pkg/ratelimit/ratelimit.go:177-191 | For all settings, one request and one cleanup reach a state in which nobody can step and the work is not done. |
| LimiterHistory.CountIsHistory | pkg/ratelimit/ratelimit.go:184-202 | In every run a counter's count is the number of requests that counter object accepted since its window was opened, between 0 and max(limit, 0), and its window does not start in the future. |
| LimiterHistory.CountIsStampCount | pkg/ratelimit/ratelimit.go:181-202 | With a positive window size it is the number of stamps it accepted from windowStart on. |
| LimiterSerial.CountsStampsIff | pkg/ratelimit/ratelimit.go:184-202 | That holds in all runs if and only if the window size is positive or no tool is ever let through. |
| LimiterHistory.RefusedIffWindowFull | pkg/ratelimit/ratelimit.go:193-202 | A request is refused if and only if its counter's present window already holds at least limit accepted requests. |
| LimiterHistory.HandlersExclude | pkg/ratelimit/ratelimit.go:178-205 | Two handlers never run at once on one counter object. |
| LimiterBound.BoundAlways | pkg/ratelimit/ratelimit.go:82-101 | In runs that strand nobody: requests use the counter mapped for their key, the windows of a key that accepted anything never overlap, each accepted at most the quota, and those of an unmapped key have expired. |
| AcceptLog.ManyWindows | pkg/ratelimit/ratelimit.go:184-202 | If windows in scope never overlap and accept at most a quota each, those that start in a stretch n windows long accept at most n quotas. |
| AcceptLog.SlidingStamps | pkg/ratelimit/ratelimit.go:184-202 | Then any half-open interval k windows long sees at most k + 1 quotas, for any window size. |
| LimiterBound.SlidingBound | pkg/ratelimit/ratelimit.go:136-208 | In every run in which cleanup strands no request, any half-open interval k windows long sees at most k + 1 quotas of a key accepted, across counters removed and made anew. |
| LimiterCounters.CounterBound | pkg/ratelimit/ratelimit.go:184-202 | In every run and for all settings, whatever cleanup strands, any half-open interval k windows long sees at most k + 1 quotas accepted by one counter object. |
| LimiterCounters.KeyBound | pkg/ratelimit/ratelimit.go:82-154 | So a key sees at most that for each of its counter objects that accepted anything in the interval. |
| LimiterExact.SlidingBoundIff | pkg/ratelimit/ratelimit.go:82-101 | Those settings for which all runs that strand nobody keep the bound are exactly the ones by which cleanup drops only expired windows, or nothing is let through. |
| LimiterExact.StrandedBoundIff | pkg/ratelimit/ratelimit.go:177-178 | Without the condition on runs the bound holds only if the window size is not positive or nothing is let through. |
| LimiterExact.StrandingBreaksBound | pkg/ratelimit/ratelimit.go:91-92 | For all other settings, a run in which requests are stranded on counters of their own and let through at one instant. |
| LimiterExact.DroppingBreaksBound | pkg/ratelimit/ratelimit.go:91-92 | If open windows can be dropped, a run that strands nobody and still exceeds the bound. |
| LimiterAnswers.OneBurst | pkg/ratelimit/ratelimit.go:157-202 | Of any number of calls of one session and tool at one instant, on a limiter new to the pair, exactly the first so many are let through as the tool's own limit says if it has one, whatever the default, and else the default; none if that is negative. |
| LimiterAnswers.TwoBursts | pkg/ratelimit/ratelimit.go:184-202 | Calls that follow have the room the first have left, until the window size has passed since the first, and from then on all of it. |
| AtomicLimiter.KeyIsolation | pkg/ratelimit/ratelimit.go:136-154 | The answers on one session and tool are those of the run cut down to that key and the cleanups. |
| AtomicLimiter.CleanupInvisible | pkg/ratelimit/ratelimit.go:91-92 | If cleanup drops only expired windows and no call lets part of a window pass between its clock readings, cleanups inserted anywhere change no answer. |
| AtomicLimiter.CleanupSimulates | pkg/ratelimit/ratelimit.go:87-95 | A cleanup keeps the relation by which a key missing from the swept table has an expired window in the other. |
| AtomicLimiter.CallSimulates | pkg/ratelimit/ratelimit.go:184-202 | A call on related tables gets the same answer and leaves them related. |
| AtomicLimiter.CleanupInvisibleIff | pkg/ratelimit/ratelimit.go:91-92 | For calls that take no time, cleanups are invisible in all runs if and only if cleanup drops only expired windows or nothing is let through. |
| AtomicLimiter.CleanupInvisibleSlowIff | pkg/ratelimit/ratelimit.go:146-151 | For calls that may take time, if and only if besides windows are at most one nanosecond long, or nothing is let through. |
| AtomicLimiter.PartialGapShows | pkg/ratelimit/ratelimit.go:146-188 | A run for every gap shorter than the window in which cleanup changes an answer. |
| LimiterAlone.RequestAloneIsAtomic | pkg/ratelimit/ratelimit.go:168-208 | Every run of one request's own steps and clock ticks that finishes the request gives the atomic limiter's answer and table, for the reading at which it fetched its counter and the one it made with the counter locked. |
| LimiterAlone.CleanupAloneIsAtomic | pkg/ratelimit/ratelimit.go:82-101 | Every run of one cleanup's steps and clock ticks that leaves cleanup idle, whatever the order of its visits, leaves the atomic limiter's table after a cleanup at the one reading it made, or an unchanged table if it has not begun. |
| LimiterSerial.SerialRequestIsAtomic | pkg/ratelimit/ratelimit.go:168-208 | For any two readings a call may have, some run without cleanup steps gives the atomic limiter's answer and table with them. |
| LimiterSerial.SerialCleanupIsAtomic | pkg/ratelimit/ratelimit.go:82-101 | For any reading, some run of cleanup steps and ticks leaves the atomic limiter's table after cleanup, and all requests as they were. |
| LimiterSerial.SerialHistory | pkg/ratelimit/ratelimit.go:82-208 | For every sequence of calls and cleanups in the order of their readings, slow calls included, some run of the step system gives exactly the atomic limiter's answers. |
| LimiterRefinement.KeyRefinesAtomic | pkg/ratelimit/ratelimit.go:136-205 | In every interleaving that strands nobody, the answers to a key's requests, in the order in which they are decided, are the atomic limiter's to calls with the readings at which their counter was made and at which they looked at the clock, with cleanups where they visited the key; so other keys do not matter. |
| LimiterRefinement.DecisionsComplete | pkg/ratelimit/ratelimit.go:193-205 | These answers are all there are: as many acceptances and refusals of a key as there are requests of it that run or have run, and that were refused. |
| LimiterRefinement.DecideTracks | pkg/ratelimit/ratelimit.go:184-202 | The decision of a request, with the window rolled at its own earlier reading, is one call of the atomic limiter, in answer and in window. |
| LimiterRefinement.VisitTracks | pkg/ratelimit/ratelimit.go:88-95 | A visit of cleanup to a key is, for that key, one cleanup of the atomic limiter. |
| RateLimiters.RateLimiter.constructor | pkg/ratelimit/ratelimit.go:60-65 | A new limiter has no counters. |
| RateLimiters.RateLimiter.GetCounter | pkg/ratelimit/ratelimit.go:136-154 | Returns the counter mapped for the key; makes a new one starting now if there is none, and then maps nothing else differently. |
| RateLimiters.RateLimiter.CountRequest | pkg/ratelimit/ratelimit.go:181-202 | Reopens an expired window and counts or refuses; only this counter's window changes in the table. |
| RateLimiters.RateLimiter.Handle | pkg/ratelimit/ratelimit.go:168-208 | On the heap, answer and new table are those of the atomic limiter; every session keeps a counter and distinct keys distinct ones; a counter that was not there before is newly made. |
| RateLimiters.RateLimiter.Take | pkg/ratelimit/ratelimit.go:82-208 | A call or a cleanup answers and changes the table as the atomic limiter's event. |
| RateLimiters.Serve | pkg/ratelimit/ratelimit.go:60-208 | A new limiter taken through any sequence of calls and cleanups gives exactly the atomic limiter's answers. |
| RateLimiters.RateLimiter.Cleanup | pkg/ratelimit/ratelimit.go:82-101 | Leaves exactly the counters not older than the interval, the same objects with unchanged fields, no others, and no session without one. |
| RateLimiters.RateLimiter.CleanSession | pkg/ratelimit/ratelimit.go:88-95 | The inner loop removes from a session exactly its stale counters. |
| RateLimiters.RateLimiter.CleanSessions | pkg/ratelimit/ratelimit.go:87-100 | The outer loop does that to every session and removes exactly those left empty. |
| RateLimiters.DistinctCounters | pkg/ratelimit/ratelimit.go:146-151 | Distinct keys have distinct counter objects. |
| RateLimiters.SweptTable | pkg/ratelimit/ratelimit.go:87-100 | What the two loops leave is what one pass over the flattened table leaves. |
| PodLogOptions.LimitSentIsLimitEnforced | pkg/k8s/subresource.go:102-134 | For all parameters a byte limit is sent, lies in (0, 64 MiB] and equals the one enforced on reading; it is the caller's number within these bounds, 64 MiB for a number outside them, and 32 KiB without a number. |
| PodLogOptions.EnforcedAnyway | pkg/k8s/subresource.go:155-163 | Whatever limit was sent, the one enforced is within bounds; it is the one sent if that is, and else 64 MiB. |
| PodLogOptions.Request | pkg/k8s/subresource.go:102-117 | A request's options start from the defaults, with or without parameters, and end with the limits that are sent. |
| PodLogOptions.ParsePrinted | pkg/k8s/subresource.go:238-251 | Every int64, printed, with or without a plus sign, is read back; a larger number is refused. |
| PodLogOptions.RefusedText | pkg/k8s/subresource.go:243-246 | Nothing is read from a text without digits or with anything but digits after an optional sign. |
| PodLogOptions.ParseBoolSpellings | pkg/k8s/subresource.go:189-192 | The six spellings of true are true, those of false and unreadable texts false. |
| PodLogOptions.LinesBounded | pkg/k8s/subresource.go:194-225 | The number of lines asked for is the caller's within (0, 10000], 10000 for a number outside it, none with a valid age and no number, and else 100. |
| PodLogOptions.Options.Build | pkg/k8s/subresource.go:183-228 | Every option after applying the parameters, from its value before; parsing a time is a parameter. |
| PodLogReader.Stream.Read | pkg/k8s/subresource.go:170-173 | A bounded read takes bytes off the front of the stream only, no more than asked for, and none when the stream has ended or failed. |
| PodLogReader.ReadBounded | pkg/k8s/subresource.go:170-181 | However a stream is cut into chunks and wherever it fails, the result depends only on its bytes and its ending, at most limit + 1 bytes are consumed, and the buffer grows by just these over its turns. |
| PodLogReader.OutcomeExact | pkg/k8s/subresource.go:165-181 | The exact bytes come back if and only if they are within the limit and the stream ends well; the size error comes exactly if they are not within it. |
| PodLogBudget.AggregateBudget | pkg/k8s/subresource.go:93-137 | In every run a semaphore has as many slots taken as reads are in flight on the clients that share it, at most 8, and those reads hold at most 8 (64 MiB + 1) bytes. |
| PodLogBudget.ProcessBudget | pkg/k8s/client.go:327-336 | With one base client the same bound holds over all clients impersonated from it, one from another, together. |
| PodLogBudget.AcquireIffFewer | pkg/k8s/subresource.go:93-100 | A waiting read is admitted if and only if fewer than 8 are in flight. |
| PodLogBudget.LimitIsSent | pkg/k8s/subresource.go:119-134 | In every run a read in flight stops at the limit its own parameters sent, and holds at most a byte more. |
| PodLogBudget.NewClientAlone | pkg/k8s/client.go:95-102 | A client made from scratch has a semaphore of its own, of which nobody has a slot. |
| PodLogBudget.SemaphoresShared | pkg/k8s/client.go:327-336 | An impersonated client has the semaphore of the one it comes from, and a read is counted by that of the client it is made on. |
| PodLogBudget.ReadProceeds | pkg/k8s/subresource.go:93-137 | In every run, admission takes a slot, a stream keeps it and starts with nothing read, and no stream or the end of it gives the slot back. |
| PodLogBudget.WaitingCanGiveUp | pkg/k8s/subresource.go:97-98 | A waiting read can always be cancelled, and takes no slot. |
| PodLogBudget.SlotsKept | pkg/k8s/subresource.go:93-137 | Every step keeps slots and reads in balance: admission takes one, and each way to return gives it back. |
| PodLogBudget.ReleaseNeverBlocks | pkg/k8s/subresource.go:96-125 | In every run, a read in flight can always return and give its slot back, with or without a stream. |
| PodLogBudget.CopiesRun | pkg/k8s/subresource.go:170-173 | The turns of a bounded read are copying steps none of which is blocked, and add up to what the read holds. |
| ClientRefresh.NoTornClient | pkg/k8s/client.go:435-471 | In every interleaving, all an operation sees under the read lock is of the generation in force when it got the lock, and all four components stay of that generation until it gives the lock up. |
| ClientRefresh.ExecAndImpersonationOfOneGeneration | pkg/k8s/client.go:297-330 | An exec builds its URL and its executor, and WithImpersonation all its clients, from one generation. |
| ClientRefresh.SessionsProceed | pkg/k8s/client.go:421-424 | An operation that finds no refresh announced gets the lock and sees the generation in force, whichever components it reads and however often, and it can always leave. |
| ClientRefresh.TornWithoutLock | pkg/k8s/client.go:465-468 | For every n up to 4, a moment during a refresh at which exactly the first n components, in the order of the assignments, are replaced. |
| RefreshOrder.FallsBackIff | pkg/k8s/client.go:436-471 | From a reachable state a continuation brings an older configuration into force than the present one if and only if a refresh that read an older one is under way. |
| RefreshOrder.OlderOverNewer | pkg/k8s/client.go:436-463 | A run in which the second of two configurations is in force, and a continuation in which the first is. |
| RefreshLifecycle.OneLiveWorker | pkg/k8s/client.go:473-550 | Over all sequences of starts, stops, ticks and returns, at most one refresh goroutine has an uncancelled context, one has exactly if refreshing is set, and the interval reported is the one it was started with, or else 0. |
| RefreshLifecycle.StartsIff | pkg/k8s/client.go:476-512 | In every run, a start while no goroutine is live, be it the first or after a stop, makes one live with the interval given; while one is, it changes nothing. |
| RefreshLifecycle.StopsAll | pkg/k8s/client.go:516-529 | In every run, after a stop no goroutine is live and no interval is reported, all run on that did, and those not live before have not changed. |
| RefreshLifecycle.ReturnsIff | pkg/k8s/client.go:504-506 | A running goroutine returns if and only if its context is cancelled, and nothing else changes. |
| RefreshLifecycle.SettledIffAllReturned | pkg/k8s/client.go:496-526 | Without another start the components never change again if and only if every goroutine ever started has returned. |
| RefreshLifecycle.RefreshesAfterStop | pkg/k8s/client.go:496-526 | For every n, a run in which a goroutine refreshes the client n times after it was stopped. |
| RefreshLifecycle.Client.constructor | pkg/k8s/client.go:95-102 | A new client is not refreshing and has all components from one config. |
| RefreshLifecycle.Client.RefreshClient | pkg/k8s/client.go:436-471 | Replaces all four components if config and clients can be had, and otherwise none. |
| RefreshLifecycle.Client.StartPeriodicRefresh | pkg/k8s/client.go:476-512 | Fails without effect if refreshing, else adds one live goroutine with the interval given, newly made as is its context; earlier ones stay. |
| RefreshLifecycle.Client.StopPeriodicRefresh | pkg/k8s/client.go:516-529 | Fails without effect if not refreshing, else cancels exactly the live goroutine's context. |
| RefreshLifecycle.Client.WorkerTurn | pkg/k8s/client.go:496-508 | A turn refreshes, even if cancelled, or returns, only if cancelled; it never changes who is live. |
| RefreshLifecycle.Client.Happen | pkg/k8s/client.go:476-529 | Any start, stop, tick or return takes client and goroutines where the state machine goes. |
| RefreshLifecycle.Follow | pkg/k8s/client.go:473-550 | A new client through any sequence of these ends where the state machine does, so all that is proved of its runs holds of the objects. |
| RefreshLifecycle.Client.IsRefreshing | pkg/k8s/client.go:532-537 | True if and only if some goroutine's context is not cancelled. |
| RefreshLifecycle.Client.GetRefreshInterval | pkg/k8s/client.go:541-550 | The interval the live goroutine was started with, and 0 unless there is one. |
| ApplyResource.ApplyIsCompareAndSwap | pkg/k8s/client.go:247-270 | In every interleaving with other applies, writers and deletes, each write an apply gets through replaces the version it read with nothing having happened to the object since, or creates it where there was none. |
| ApplyResource.SameVersionQuiet | pkg/k8s/client.go:212-224 | An object that has the version it had before has not been written or deleted in between. |
| ApplyProgress.AppliedIff | pkg/k8s/client.go:204-225 | In every interleaving, an apply whose get found the object gets through if and only if it is not refused and nothing has happened to the object since; one whose get did not find it or failed, if and only if it is not refused and there is none. It then stores its body in place of the version read, or anew, touches nothing else, and succeeds unless the answer is lost; otherwise it writes nothing and fails. |
| ApplyProgress.BeginRecords | pkg/k8s/client.go:248-257 | An apply is of the name and body it was called with, whatever others do meanwhile. |
| PodExec.BoundedBuffer.constructor | pkg/k8s/exec.go:36-38 | An empty buffer with all its room left. |
| PodExec.BoundedBuffer.Write | pkg/k8s/exec.go:40-58 | Reports the whole write done; the buffer then holds the first max bytes of all that was ever written, and length and room left add up to max. |
| PodExec.TruncatedIff | pkg/k8s/exec.go:40-61 | Truncation is reported if and only if more than max bytes were written, or an empty write met a full buffer; without empty writes, if and only if more than max bytes were written. |
| PodExec.ExecTimeout | pkg/k8s/exec.go:79-87 | From a request body to the time its command may run: more than nothing and at most 60 s for every body; for seconds, what was meant if and only if TakenAsMeant holds, and the residue modulo 2^64 nanoseconds wherever that is within bounds. |
| PodExec.AsMeantIff | pkg/k8s/exec.go:208-222 | A number of seconds is taken as meant if and only if its residue modulo 2^64 nanoseconds, or for the stray case its residue modulo 2^55 seconds, says so. |
| PodExec.TimeoutBounded | pkg/k8s/exec.go:79-87 | The effective timeout is in (0, 60 s] for every body. |
| PodExec.SecondsAsMeant | pkg/k8s/exec.go:208-222 | It is min(t, 60) seconds for 1 <= t <= 9223372036 and 15 s for -9223372036 <= t <= 0. |
| PodExec.SecondsThatWrap | pkg/k8s/exec.go:211-214 | One second beyond either end is not taken as meant, and gives the default and the maximum instead; a number further out gives 0.29 s. |
| ResourceUri.ParseUri | pkg/mcp/read_resource.go:24-45 | The non-empty parts of what follows the prefix, an error without it. |
| ResourceUri.PartsClean | pkg/mcp/read_resource.go:36-42 | Parts never contain a slash and are never empty. |
| ResourceUri.ClusteredRoundTrip | pkg/mcp/read_resource.go:47-80 | Printing and parsing gives the components back if and only if none has a slash and only the group may be empty. |
| ResourceUri.NamespacedRoundTrip | pkg/mcp/read_resource.go:82-116 | The same with a namespace. |
| ResourceUri.ClusteredByPosition | pkg/mcp/read_resource.go:57-77 | For any clean parts: fewer than three are an error, three are version, resource and name, and of more the first four are group, version, resource and name. |
| ResourceUri.NamespacedByPosition | pkg/mcp/read_resource.go:92-113 | The same after a namespace. |
| ResourceUri.ParseIsRetraction | pkg/mcp/read_resource.go:50-116 | What either parser accepts, printed again, parses to the same. |
| ResourceUri.ExtraSlashesIgnored | pkg/mcp/read_resource.go:33-42 | Slashes inserted after the prefix next to a slash, or at the end, never change either parser's result. |
| ResourceUri.SlashesCollapse | pkg/mcp/read_resource.go:36-42 | One slash or several between two stretches of path give the parts of both, one after the other. |
| ResourceUri.OneParserAtMost | pkg/mcp/read_resource.go:50-94 | No URI is accepted by both parsers. |
| ListResources.HandleListAllResources | pkg/mcp/list_resources.go:151-207 | One description for each source, in order, or the discovery error. |
| ListResources.SourcesExact | pkg/mcp/list_resources.go:160-176 | The sources are exactly the discovered resources without a slash in their names, each once and in order. |
| ListResources.GroupVersionSplit | pkg/mcp/list_resources.go:161-170 | A slash-free version stands for the core group; group, slash and version are split into the two, and what follows a second slash is dropped. |
| ListResources.DescribedAs | pkg/mcp/list_resources.go:178-200 | What a resource of a group and version, or of the core group, is advertised as: URI, name, description and type. |
| ListResources.AdvertisedComponents | pkg/mcp/list_resources.go:187-192 | That URI is read back as this group, version and resource by its own parser if and only if version and name are not empty, and refused by the other. |
| ListResources.AdvertisedRoundTrip | pkg/mcp/list_resources.go:187-192 | An advertised URI is read back as the group, version and resource it stands for if and only if version and name are not empty, and the other parser refuses it. |
| Identity.ContainsControlCharacters | pkg/identity/identity.go:339-346 | Whether some character is a control character. |
| Identity.Validate | pkg/identity/identity.go:304-335 | No fault if and only if the name is at most 256 bytes long, has no byte below 0x20 and none 0x7f, and does not start with system: ; else the first of these in that order. |
| Identity.ExtractGroupsClaim | pkg/identity/identity.go:259-279 | The non-empty strings of the claim's array, all of them, in order and no others; none if the claim is absent or no array. |
| Identity.ClaimedIff | pkg/identity/identity.go:259-279 | There is exactly one list of groups that a claim says in this sense, and it is the one extracted. |
| Identity.GroupNamesExact | pkg/identity/identity.go:271-276 | The result has the array's non-empty strings, each at the place its rank among them gives, and nothing else. |
| Identity.ExtractFromClaims | pkg/identity/identity.go:151-183 | The identity, or the first error in the order of the checks. |
| Identity.ExtractionExact | pkg/identity/identity.go:151-183 | An identity is extracted if and only if it is the one the claims speak for and passes every check. |
| Identity.ExtractIffAuthenticates | pkg/identity/identity.go:116-149 | A request yields an identity if and only if it has a bearer token whose claims speak for it. |
| Identity.IdentityCarried | pkg/mcp/implementation.go:42-54 | With impersonation on, for any incoming context and through both context functions: the handler gets a client impersonating an identity if and only if the request's token speaks for it and passes every check, or no identity is authenticated and the incoming context already carried it, and the client can be built; otherwise it gets none. |
| Identity.ImpersonationOff | pkg/mcp/implementation.go:43-45 | With impersonation off every handler gets the shared client, whatever the context. |
| Identity.TimeoutKeepsIdentity | pkg/mcp/middleware.go:25-43 | The replaced context has the identity of the one it replaces, and no other. |
| Identity.TimeoutSession | pkg/mcp/middleware.go:19-35 | It has the client session's ID under the limiter's key, unless that is empty, and no client session. |
| Identity.TimeoutKeepsSessionIff | pkg/ratelimit/ratelimit.go:119-133 | Exactly when a call is counted under the same session with the replaced context as with the original. |

## Left out

- LimiterBound.SlidingBound: assumes that cleanup strands no request, since the bound is false otherwise; LimiterExact.StrandedBoundIff shows that this is so for all settings that let anything through, and LimiterCounters.KeyBound what holds without the assumption.
- PodLogBudget.AggregateBudget: counts the bytes of log content once; the spare capacity of a growing `bytes.Buffer` and the copy made by `string(logs)` are not modelled.
- PodLogReader.ReadBounded: a stream either delivers bytes or ends, by end of file or error; bytes delivered together with an error are not modelled.
- ApplyResource.ApplyIsCompareAndSwap: rests on rules assumed of the apiserver, written at the head of the module: it rejects stale versions and creates of existing objects, and never reuses a version.
- LimiterDeadlock.ProgressOrEmbrace: a running handler is taken to be able to finish; what handlers do, and panics in them, are not modelled.
- RateLimiters.RateLimiter.Handle: one operation at a time; interleavings are in the step system, where the counters are values in a list indexed by address instead of heap objects.
- Identity.ExtractFromClaims: strings are sequences of bytes; decoding runes, and invalid UTF-8, are not modelled, and a control character is a single byte in UTF-8.
- PodExec.ExecTimeout: a float is given by the int64 it converts to; conversion out of range, and the syntax of durations, are not modelled.
- The limiter's settings are constant in a run. `WithTimeWindow` writes a package variable that a second limiter in the process would share.
- Times are unbounded integers of nanoseconds and the clock is monotone; `time.Time.Sub` saturates only after 292 years.
- The text of the refusal with its hint when to try again.
- The parsing of times by RFC 3339, which is a parameter, and the JSON of the results.
- The conversion of the exec command to strings, and the argument checks of the exec and resource handlers.
- `GetResource` and `PostResource` read one field of the client without its lock; only operations that take the read lock are sessions in ClientRefresh.
- The panic of `time.NewTicker` for an interval that is not positive, and the tickers themselves: a tick may come at any time.
- Base64 and JSON decoding and signature checking of tokens: `decode` is an arbitrary function from token to claims.
- Setters that exist for tests, and clients built without a semaphore.
- The environment variables that configure limits, flags, logging, prompts, tool definitions and annotation filtering.
