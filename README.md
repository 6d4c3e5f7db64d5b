# Share-boost job lifecycle, modelled in Dafny

The server (`index.js`) accepts "boost" jobs: share one post `amount` times,
one attempt every `interval` seconds. It keeps every job in memory. This
project models that in-memory job lifecycle:

- the registry of active jobs (`activeProcesses`, a `Map` that keeps insertion order);
- the history of finished jobs (`processHistory`, grown at the front with `unshift`);
- the `/api/submit` and `/api/stop/:id` handlers;
- the per-job runner `startSharingProcess`, with its interval callback and its watchdog;
- the termination protocol `completeProcess`;
- the `/total` listing.

The model has three modules:

- Common: ids, timestamps, the job `Status`, an `Option` type, and `Without`.
  `Without` is the key order a `Map` keeps after `delete`.
- TickLogic: the decision one firing of the interval callback makes, as a
  pure function (`TickStep`) of the closure counters `sharedCount` and
  `errors`. `Run` folds that step over a sequence of firings. The lemmas state
  what sequential firings do: the count never passes the target, a run ends at
  a given firing, and so on.
- Lifecycle: the imperative part. `Process` records, `Timer` handles and
  `Runner`s are classes whose fields are updated in place. `Scheduler` holds
  the registry (a key order `order` plus a map `registry`) and the history.
  Each handler and each timer callback is one method call. Every handler and
  every timer-callback method keeps the invariant `Valid()`, which says:
  - the key order lists each registered id once;
  - every registered record is active and running;
  - every history entry is terminal;
  - the count of every registered record and of every history entry lies
    between 0 and its target (0 when the target is not positive);
  - no id is in the history twice, and no id is both in the history and registered;
  - each runner captured the record registered under its id, and its count never passes the target;
  - the record registered under a runner's id has the runner's `amount` as its
    target and shows the runner's count;
  - a timer that still fires belongs to a registered job.

A process record is an object, so the model keeps the source's aliasing.
The stop handler puts the live record itself into the history. The
termination protocol puts a shallow copy there (`{...process}`). That copy
shares the timer handle with the original.

Inputs the model cannot compute are parameters:

- the generated process id (`freshId`; it must not be in use);
- the current time (`now`);
- whether the cookie is valid JSON (`cookieIsJson`);
- whether the three start-up lookups succeeded (`resolved`);
- what each share request produced (an `Outcome`: a 200 response, another
  non-throwing response, or a thrown error).

## Model

| member | source | states |
|---|---|---|
| `Common.Without` | index.js:93 | Deleting a key keeps exactly the other keys, and an absent key changes nothing. Distinctness is kept, and the length drops by one when the key was present. |
| `Common.WithoutAt` | index.js:205 | In a key order without repeats, deleting the key at position `k` cuts out exactly that position, so the other keys keep their relative order. |
| `TickLogic.TickStep` | index.js:132-175 | One firing. It makes no attempt, and completes the job unchanged, exactly when the record is not running or the target is reached. Only a 200 response changes the count, by exactly +1, and it resets the error streak. A thrown error adds one to the streak and leaves the count alone. Any other response changes nothing. The firing fails the job exactly when the streak reaches 10, and completes it after a 200 exactly when the count reaches the target. |
| `TickLogic.Run` | index.js:131-176 | The repeated firings of one live timer, fed their outcomes in order. A job that ends does so at one of the firings it was given, counting from 1. |
| `TickLogic.RunNeverOvershoots` | index.js:132-164 | Under sequential firings the count never decreases. It never exceeds `amount`, or 0 when `amount` is not positive. |
| `TickLogic.RunErrorStreak` | index.js:127-175 | While a job lives its error streak stays in 0..9. A job that ends as failed ends with exactly 10 errors. Every job ends as completed or failed, at one of the firings it was given. |
| `TickLogic.RunIgnoresLaterOutcomes` | index.js:170-174 | After the firing that terminates the job, further outcomes change nothing, because the interval is cleared. |
| `TickLogic.RunCountsSuccesses` | index.js:148-151 | The count is the starting count plus the number of 200 responses among the firings that ran. |
| `TickLogic.SuccessesComplete` | index.js:160-163 | A job that starts with `k` shares below its target and gets only 200 responses completes after `amount - k` firings, with exactly `amount` shares and no errors. |
| `TickLogic.ErrorStreakFails` | index.js:166-174 | A job below its target that meets `10 - errors` thrown errors in a row fails. Its count is unchanged and its streak is 10. |
| `Lifecycle.WatchdogDelay` | index.js:181 | The watchdog delay is at least the buffer of 30000 ms beyond the time of every one of the `amount` firings. It is exactly 30000 ms when `amount` is 0. |
| `Lifecycle.Timer.constructor` | index.js:131 | A new interval timer is live. |
| `Lifecycle.Process.constructor` | index.js:48-58 | A submitted record has count 0, status active and `isRunning` set, and no end time, update or timer. |
| `Lifecycle.Process.CopyOf` | index.js:203 | The spread copy has every field of the original, including the same timer handle. |
| `Lifecycle.Runner.constructor` | index.js:69 | A runner starts with its lookups pending: no record, no timer, no watchdog, and counters at 0. |
| `Lifecycle.OrderCountsRegistry` | index.js:66 | The key order has one entry per registered id, so its length is the registry's `size`. |
| `Lifecycle.InsertKeepsInv` | index.js:60 | Registering a fresh record with count 0 under an unused id, with a fresh runner whose `amount` is the record's target, keeps the invariant. |
| `Lifecycle.RetireKeepsInv` | index.js:195-209 | Retiring a finalised record whose timer no longer fires keeps the invariant. The id leaves the registry, and its terminal entry goes to the front of the history. |
| `Lifecycle.Listing` | index.js:14-25 | `/total` lists the registered jobs in insertion order, with sessions numbered from 1. Each row carries its record's url, count, id and target, status active, and an interval of 0 shown as 1. |
| `Lifecycle.ListingAppends` | index.js:15-23 | After a job is registered, every earlier row is unchanged. The new job is the last row, numbered with the new registry size. |
| `Lifecycle.ListingDrops` | index.js:15-23 | After a job is removed, its row is gone. Earlier rows are unchanged, and every later row moves up one session. |
| `Lifecycle.Scheduler.constructor` | index.js:11-12 | The server starts with an empty registry, an empty history and the invariant established. |
| `Lifecycle.Scheduler.LiveTimer` | index.js:131-136 | A timer that still fires belongs to a registered, active and running record: the one its runner captured. |
| `Lifecycle.Scheduler.Submit` | index.js:31-69 | A request missing any of the four fields is rejected first. An invalid cookie is rejected next. Nothing changes on rejection. Otherwise a fresh record with count 0 and status active is appended to the registry. The reported session is the registry size after insertion, and a pending runner is created for the job. |
| `Lifecycle.Scheduler.Register` | index.js:60-66 | `activeProcesses.set` with a fresh id appends the key and keeps the invariant. The size grows by one. |
| `Lifecycle.Scheduler.Finalise` | index.js:198-201 | The record gets the given status and count, an end time, and `isRunning` false. Its timer and last update are unchanged. |
| `Lifecycle.Scheduler.Retire` | index.js:203-205 | The entry goes to the front of the history, the id leaves the registry and the key order, and the invariant holds again. |
| `Lifecycle.Scheduler.CompleteProcess` | index.js:195-209 | On an unregistered id, nothing changes. Otherwise the record is finalised with the given count and terminal status. A fresh copy of it is prepended to the history, and the id leaves the registry. Afterwards the id is not registered, so a second call is a no-op. |
| `Lifecycle.Scheduler.Stop` | index.js:77-96 | An unknown id gives not-found and changes nothing. A known id is handled as follows. Its timer is cleared. The live record itself, not a copy, is marked stopped with an end time and prepended to the history. The id leaves the registry. `isRunning` and the count are left as they were. |
| `Lifecycle.Scheduler.MarkStopped` | index.js:85-90 | The record's timer, if any, is cleared. The record is marked stopped with an end time, and its other fields are unchanged. |
| `Lifecycle.Scheduler.Start` | index.js:98-192 | If a lookup failed, the job terminates as failed with count 0, and the record's last update and timer are unchanged. This is a no-op if it was stopped meanwhile. If the lookups succeeded but the job was stopped meanwhile, nothing is set up. In both of these cases the runner's counters and watchdog delay are unchanged. Otherwise the registered record is captured, and a fresh live timer is stored on the runner and on the record. `isRunning` is set, the record's status, count, end time and last update are unchanged, the counters start at 0, and the watchdog is armed with `WatchdogDelay(amount, interval)`. |
| `Lifecycle.Scheduler.MarkStarted` | index.js:115-116 | A runner whose job is gone, or whose lookups failed, captures nothing and has no timer. Its counters and watchdog delay are unchanged. |
| `Lifecycle.Scheduler.Launch` | index.js:127-187 | The registered record is captured. It gets a fresh live timer and `isRunning`, and its status, count, end time and last update are unchanged. The counters are 0, and the watchdog is armed. |
| `Lifecycle.Scheduler.Capture` | index.js:178-179 | The record holds the runner's fresh live timer and is running. Its status, count, end time and last update are unchanged, and so are the runner's counters. |
| `Lifecycle.Scheduler.Arm` | index.js:127-187 | The counters `sharedCount` and `errors` start at 0, and the watchdog is armed with the computed delay. The captured record and timer are unchanged. |
| `Lifecycle.Scheduler.Halt` | index.js:133-134 | The runner's timer is cleared and the termination protocol runs with the runner's current count. |
| `Lifecycle.Scheduler.CountShare` | index.js:149-155 | The count goes up by one and the streak is reset. The record mirrors the count and gets a new last-update time. Its status, end time, `isRunning` and timer are unchanged. |
| `Lifecycle.Scheduler.CountError` | index.js:166-167 | The error streak goes up by one. The count and the watchdog delay are unchanged. |
| `Lifecycle.Scheduler.Tick` | index.js:131-176 | One firing of a live timer changes the counters exactly as `TickStep` says, and the record is running when it fires. The record's count never decreases and never passes its target. The watchdog delay is unchanged, as the closure's constant. If the step continues, the timer stays live, the registry and history are unchanged, the record mirrors a new count, and its end time is unchanged. If the step finishes, the timer is cleared and the record is retired with the final count and `TickStep`'s status. |
| `Lifecycle.Scheduler.Succeed` | index.js:148-164 | After a 200 response the count is one higher, and the streak is reset. The job completes exactly when the target is reached. Otherwise the registry and history are unchanged, the record mirrors the count, and its end time is unchanged. |
| `Lifecycle.Scheduler.Fail` | index.js:166-174 | After a thrown error the streak is one longer and the count is unchanged. The job fails exactly when the streak reaches 10. Otherwise the registry and history are unchanged, and the record's count and end time are unchanged. |
| `Lifecycle.Scheduler.Watchdog` | index.js:182-187 | If the job is still registered, it is running. The watchdog clears its timer and retires it as timed out with the runner's count. The record's last update is unchanged, and the history copy inherits it. Otherwise, after a stop or a completion, only the timer is touched (it is cleared when `isRunning` was still set), and the registry, the history and the record itself (after a stop, the history entry) are unchanged. |
| `Lifecycle.Scheduler.Disarm` | index.js:182-183 | The watchdog has fired and cannot fire again. The runner's record, counters and watchdog delay are unchanged. |

## Left out

- HTTP wiring is not modelled: Express setup, body parsing, static files, `app.listen`, the response bodies beyond their kind, and console logging. These are I/O.
- `/history` is a plain read of `history` and needs no member.
- The outbound calls are not modelled: the share POST, `getPostID` and `getAccessToken`. They are network calls to a third party. Their results enter as the `Outcome` of each firing and as the `resolved` flag of `Start`.
- `convertCookieToString` and `JSON.parse` are not modelled; they only format credentials for those calls. `JSON.parse` is the boolean input `cookieIsJson`.
- Lifecycle.Scheduler.Submit: the 500 path of the outer `try` is not modelled. Nothing in the model's part of the handler can throw.
- Lifecycle.Scheduler.Submit: a request field counts as missing when it is absent or falsy. `amount` and `interval` are already `parseInt`'s integer result. A `NaN` from `parseInt` is not modelled.
- Lifecycle.Scheduler.Submit: the generated id is a parameter that must be unused. Collisions of `Date.now()` plus a random suffix are not modelled.
- The wall clock is not modelled. Timestamps are opaque parameters. A method call writes every timestamp from its one `now`, so when a 200 completes a job, `Tick`'s contract gives the same `lastUpdate` and `endTime`. The source reads the clock twice there (index.js:154, 200).
- Timer scheduling is not modelled. The delays of `setInterval` and `setTimeout`, and the clamping of large delays, are outside the model. A timer callback is a method call that may happen whenever its timer is live (`Tick`) or armed (`Watchdog`).
- Overlapping asynchronous firings are not modelled. An `await` can outlive the interval, so two firings can interleave. Each firing is one atomic step, so the no-overshoot bound is proved for sequential firings only.
- A stop that lands while a firing awaits its share request is not modelled either. In the source, such a firing still writes `count` and `lastUpdate` (index.js:152-155) into the stopped record, which is then the history entry itself (index.js:91). `Tick` needs a live timer, so the model cannot show that write.
- The job's `amount` and `interval` come from the runner's arguments, which are the same values the record holds.
- Lifecycle.Scheduler.CompleteProcess: it requires a terminal status, that the job's timer no longer fires, and that `count` is the job runner's count and lies between 0 and the record's target. Every caller in the source passes a terminal status and the runner's count (index.js:134, 163, 173, 185), or 0 before any share was attempted (index.js:191). Each caller either clears the interval first (index.js:133, 162, 172, 184) or runs before any interval exists (index.js:191).
- Lifecycle.Scheduler.Finalise: it requires the same count conditions as `CompleteProcess`, its only caller.
- Lifecycle.Scheduler.CountShare, Lifecycle.Scheduler.CountError, Lifecycle.Scheduler.Arm: they require a captured record, and `Arm` requires that no share has been counted yet. These are the parts of one firing or of the set-up that `Tick`, `Succeed`, `Fail` and `Launch` call, and those callers meet the requirements.
- Lifecycle.ListingAppends, Lifecycle.ListingDrops: stated over the listing function, not inside `Submit`, `Stop` or `CompleteProcess`. Those methods state the new key order and registry from which the lemmas give the new listing.
