/** The in-memory job lifecycle of the share-boost server: the registry of
    active processes (`activeProcesses`, an insertion-ordered `Map`), the
    history (`processHistory`, grown at the front), the submit and stop
    handlers, the per-job runner with its interval callback and watchdog,
    the termination protocol `completeProcess`, and the `/total` listing.

    Each timer callback is one atomic method call. A process record is an
    object: the stop handler puts the live record into the history, while
    the termination protocol puts a copy there. */
module Lifecycle {
  import opened Common
  import opened TickLogic

  /** Slack the watchdog adds to the nominal run time, in milliseconds. */
  const WatchdogBufferMs: int := 30000

  /** The watchdog delay `amount * interval * 1000 + 30000` in milliseconds:
      every one of the `amount` firings of an interval of `interval` seconds
      falls at least the buffer before it. */
  function WatchdogDelay(amount: int, interval: int): (ms: int)
    ensures 0 <= interval ==>
              forall k :: 0 <= k <= amount ==> k * (interval * 1000) + WatchdogBufferMs <= ms
    ensures amount == 0 ==> ms == WatchdogBufferMs
  {
    var step := interval * 1000;
    assert 0 <= interval ==> forall k :: 0 <= k <= amount ==> k * step <= amount * step by {
      if 0 <= interval {
        forall k | 0 <= k <= amount ensures k * step <= amount * step {
          assert (amount - k) * step >= 0;
        }
      }
    }
    amount * step + WatchdogBufferMs
  }

  /** An interval timer handle as `setInterval` returns it. */
  class Timer {
    /** `clearInterval` has been called on it: it fires no more. */
    var cleared: bool

    constructor ()
      ensures !cleared
    {
      cleared := false;
    }
  }

  /** A process record. */
  class Process {
    const id: Id
    const url: string
    const target: int
    const interval: int
    const startTime: Timestamp
    var count: int
    var status: Status
    var endTime: Option<Timestamp>
    var lastUpdate: Option<Timestamp>
    var timer: Timer?
    var isRunning: bool

    /** The record the submit handler registers: no shares yet, active and
        running, with no end time, no update and no timer. */
    ghost predicate Initial(id: Id, url: string, target: int, interval: int, startTime: Timestamp)
      reads this
    {
      && this.id == id && this.url == url && this.target == target
      && this.interval == interval && this.startTime == startTime
      && count == 0 && status == Active && isRunning
      && endTime == None && lastUpdate == None && timer == null
    }

    constructor (id: Id, url: string, target: int, interval: int, startTime: Timestamp)
      ensures Initial(id, url, target, interval, startTime)
    {
      this.id := id;
      this.url := url;
      this.target := target;
      this.interval := interval;
      this.startTime := startTime;
      count := 0;
      status := Active;
      endTime := None;
      lastUpdate := None;
      timer := null;
      isRunning := true;
    }

    /** `{...p}`: a shallow copy, which shares the timer handle. */
    constructor CopyOf(p: Process)
      ensures SameFields(p)
    {
      id := p.id;
      url := p.url;
      target := p.target;
      interval := p.interval;
      startTime := p.startTime;
      count := p.count;
      status := p.status;
      endTime := p.endTime;
      lastUpdate := p.lastUpdate;
      timer := p.timer;
      isRunning := p.isRunning;
    }

    ghost predicate SameFields(p: Process)
      reads this, p
    {
      && id == p.id && url == p.url && target == p.target && interval == p.interval
      && startTime == p.startTime && count == p.count && status == p.status
      && endTime == p.endTime && lastUpdate == p.lastUpdate && timer == p.timer
      && isRunning == p.isRunning
    }
  }

  /** The state of one `startSharingProcess` invocation: its arguments, the
      record it captured, its interval timer and closure counters, and
      whether its watchdog is still pending. */
  class Runner {
    const id: Id
    const amount: int
    const interval: int
    /** The lookups have finished (successfully or not). */
    var started: bool
    /** The record fetched from the registry once the lookups succeed. */
    var process: Process?
    var timer: Timer?
    var sharedCount: int
    var errors: int
    var watchdogArmed: bool
    var watchdogDelay: int

    /** Lookups pending: no record captured, no timer, no watchdog, and the
        closure counters at 0. */
    ghost predicate Pending()
      reads this
    {
      !started && process == null && timer == null && !watchdogArmed && sharedCount == 0 && errors == 0
    }

    constructor (id: Id, amount: int, interval: int)
      ensures this.id == id && this.amount == amount && this.interval == interval
      ensures Pending()
    {
      this.id := id;
      this.amount := amount;
      this.interval := interval;
      started := false;
      process := null;
      timer := null;
      sharedCount := 0;
      errors := 0;
      watchdogArmed := false;
      watchdogDelay := 0;
    }
  }

  /** The body of `/api/submit`. A field is `None` when the request leaves it
      out or gives a falsy value; `Some(n)` holds what `parseInt` makes of a
      truthy amount or interval. */
  datatype Request = Request(cookie: Option<string>, url: Option<string>, amount: Option<int>, interval: Option<int>)

  datatype SubmitResponse =
    | MissingFields                      // 400 'Missing required fields'
    | InvalidCookie                      // 400 'Invalid JSON in cookie'
    | Started(processId: Id, session: nat)

  datatype StopResponse = NotFound | StoppedOk

  /** One entry of the `/total` listing. */
  datatype Row = Row(session: nat, url: string, count: int, id: Id, target: int, status: Status, interval: int)

  predicate Complete(req: Request)
  {
    req.cookie.Some? && req.url.Some? && req.amount.Some? && req.interval.Some?
  }

  /** The registry as an insertion-ordered map: `order` lists each key once,
      and every record is registered under its own id. */
  ghost predicate RegistryOk(order: seq<Id>, registry: map<Id, Process>)
  {
    && Distinct(order)
    && (forall x :: x in registry <==> x in order)
    && (forall x :: x in registry ==> registry[x].id == x)
  }

  /** A record's count lies between 0 and its target (0 for a target that
      is not positive). */
  ghost predicate CountInRange(p: Process)
    reads p`count
  {
    0 <= p.count <= Max0(p.target)
  }

  /** Every registered record is active and running, with its count in range. */
  ghost predicate EntriesLive(registry: map<Id, Process>)
    reads registry.Values`status, registry.Values`isRunning, registry.Values`count
  {
    forall x :: x in registry ==>
      registry[x].status == Active && registry[x].isRunning && CountInRange(registry[x])
  }

  /** Every history entry is terminal with its count in range, no id is
      there twice, and no id is both there and registered. */
  ghost predicate HistoryOk(history: seq<Process>, historyIds: seq<Id>, registry: map<Id, Process>)
    reads history`status, history`count
  {
    && |historyIds| == |history|
    && (forall i :: 0 <= i < |history| ==>
          history[i].id == historyIds[i] && history[i].status != Active && CountInRange(history[i]))
    && Distinct(historyIds)
    && (forall x :: x in historyIds ==> x !in registry)
  }

  /** The records the runners captured. */
  ghost function Captured(runners: set<Runner>): set<Process>
    reads runners
  {
    set r | r in runners && r.process != null :: r.process
  }

  /** The interval timers the runners set up. */
  ghost function Timers(runners: set<Runner>): set<Timer>
    reads runners
  {
    set r | r in runners && r.timer != null :: r.timer
  }

  /** A runner against the registry: it captured the record registered under
      its id, and that record holds its timer; the record registered under
      its id has its `amount` as target and shows its count; its count never
      passes the target. */
  ghost predicate RunnerOk(r: Runner, registry: map<Id, Process>)
    reads r, (if r.process != null then {r.process} else {})`timer, registry.Values`count
  {
    && (!r.started ==> r.process == null)
    && (r.process == null ==> r.timer == null && !r.watchdogArmed && r.sharedCount == 0 && r.errors == 0)
    && (r.id in registry ==> registry[r.id].target == r.amount && registry[r.id].count == r.sharedCount)
    && (r.process != null ==>
          r.started && r.process.id == r.id && r.timer != null && r.process.timer == r.timer)
    && (r.process != null && r.id in registry ==> registry[r.id] == r.process)
    && 0 <= r.sharedCount <= Max0(r.amount) && 0 <= r.errors
  }

  /** One runner per job, each for an id that is registered or in the
      history. */
  ghost predicate RunnersOk(runners: set<Runner>, registry: map<Id, Process>, historyIds: seq<Id>)
    reads runners, Captured(runners)`timer, registry.Values`count
  {
    && (forall r, q :: r in runners && q in runners && r.id == q.id ==> r == q)
    && (forall r :: r in runners ==> r.id in registry || r.id in historyIds)
    && (forall r :: r in runners ==> RunnerOk(r, registry))
  }

  /** A timer that still fires belongs to a registered job. */
  ghost predicate TimersRegistered(runners: set<Runner>, registry: map<Id, Process>)
    reads runners, Timers(runners)`cleared
  {
    forall r :: r in runners && r.timer != null && !r.timer.cleared ==> r.id in registry
  }

  /** `order` has exactly one entry per registered id, so its length is
      the registry's `size`. */
  lemma OrderCountsRegistry(order: seq<Id>, registry: map<Id, Process>)
    requires RegistryOk(order, registry)
    ensures |order| == |registry|
  {
    assert registry.Keys == set x | x in order;
    DistinctElements(order);
  }

  lemma {:induction false} RegistryInsert(order: seq<Id>, registry: map<Id, Process>, id: Id, p: Process)
    requires RegistryOk(order, registry) && id !in registry && p.id == id
    ensures RegistryOk(order + [id], registry[id := p])
  {
    assert forall x :: x in order + [id] <==> x in order || x == id;
  }

  lemma {:induction false} RegistryRemove(order: seq<Id>, registry: map<Id, Process>, id: Id)
    requires RegistryOk(order, registry)
    ensures RegistryOk(Without(order, id), registry - {id})
  {
  }

  /** The scheduler invariant over its registry (`order`, `registry`), its
      history (`history`, with the ids `historyIds`) and its runners. */
  ghost predicate Inv(order: seq<Id>, registry: map<Id, Process>, history: seq<Process>,
                      historyIds: seq<Id>, runners: set<Runner>)
    reads registry.Values`status, registry.Values`isRunning, registry.Values`count, history`status, history`count
    reads runners, Captured(runners)`timer, Timers(runners)`cleared
  {
    && RegistryOk(order, registry)
    && EntriesLive(registry)
    && HistoryOk(history, historyIds, registry)
    && RunnersOk(runners, registry, historyIds)
    && TimersRegistered(runners, registry)
  }

  /** Registering a fresh record with a fresh, not yet started runner keeps
      the invariant. */
  lemma InsertKeepsInv(order: seq<Id>, registry: map<Id, Process>, history: seq<Process>,
                       historyIds: seq<Id>, runners: set<Runner>, p: Process, r: Runner)
    requires Inv(order, registry, history, historyIds, runners)
    requires p.id !in registry && p.id !in historyIds && p.status == Active && p.isRunning
    requires p.count == 0 && r.amount == p.target
    requires r !in runners && r.id == p.id && r.Pending()
    ensures Inv(order + [p.id], registry[p.id := p], history, historyIds, runners + {r})
  {
    RegistryInsert(order, registry, p.id, p);
    var reg := registry[p.id := p];
    forall q | q in runners + {r} ensures RunnerOk(q, reg) {
      if q != r {
        assert RunnerOk(q, registry);
      }
    }
  }

  /** Retiring registered id `id` (its record already finalised, its timer
      cleared) into history entry `h` keeps the invariant. */
  lemma RetireKeepsInv(order: seq<Id>, registry: map<Id, Process>, history: seq<Process>,
                       historyIds: seq<Id>, runners: set<Runner>, id: Id, h: Process)
    requires RegistryOk(order, registry) && id in registry
    requires forall x :: x in registry && x != id ==>
               registry[x].status == Active && registry[x].isRunning && CountInRange(registry[x])
    requires HistoryOk(history, historyIds, registry)
    requires h.id == id && h.status != Active && CountInRange(h)
    requires RunnersOk(runners, registry, historyIds) && TimersRegistered(runners, registry)
    requires forall r :: r in runners && r.id == id ==> r.timer == null || r.timer.cleared
    ensures Inv(Without(order, id), registry - {id}, [h] + history, [id] + historyIds, runners)
  {
    RegistryRemove(order, registry, id);
    var reg := registry - {id};
    var ids := [id] + historyIds;
    assert forall x :: x in ids <==> x == id || x in historyIds;
    forall q | q in runners ensures RunnerOk(q, reg) {
      assert RunnerOk(q, registry);
    }
  }

  /** The `/total` listing: the registered jobs in insertion order, numbered
      from 1, each reported as active, with an interval of 0 shown as 1. */
  function Listing(order: seq<Id>, registry: map<Id, Process>): (rows: seq<Row>)
    requires RegistryOk(order, registry)
    reads registry.Values
    ensures |rows| == |registry| == |order|
    ensures forall i :: 0 <= i < |rows| ==>
              rows[i].session == i + 1 && rows[i].id == order[i] && rows[i].status == Active
    ensures forall i :: 0 <= i < |rows| ==>
              order[i] in registry
              && rows[i].url == registry[order[i]].url
              && rows[i].count == registry[order[i]].count
              && rows[i].target == registry[order[i]].target
              && rows[i].interval == (if registry[order[i]].interval == 0 then 1 else registry[order[i]].interval)
  {
    OrderCountsRegistry(order, registry);
    seq(|order|, i requires 0 <= i < |order| && order[i] in registry reads registry.Values =>
      RowOf(i, registry[order[i]]))
  }

  /** The `/total` row of record `p` listed at position `i`. */
  function RowOf(i: nat, p: Process): Row
    reads p
  {
    Row(i + 1, p.url, p.count, p.id, p.target, Active, if p.interval == 0 then 1 else p.interval)
  }

  /** Registering a new record leaves every existing row as it was and adds
      the new one last, numbered by the new registry size. */
  lemma ListingAppends(order: seq<Id>, registry: map<Id, Process>, id: Id, p: Process)
    requires RegistryOk(order, registry) && id !in registry && p.id == id
    ensures RegistryOk(order + [id], registry[id := p])
    ensures Listing(order + [id], registry[id := p]) == Listing(order, registry) + [RowOf(|order|, p)]
  {
    RegistryInsert(order, registry, id, p);
    var before := Listing(order, registry);
    var after := Listing(order + [id], registry[id := p]);
    assert |after| == |before| + 1;
    forall i | 0 <= i < |before| ensures after[i] == before[i] {
      assert (order + [id])[i] == order[i];
    }
    assert (order + [id])[|order|] == id;
  }

  /** Two listings agree on a job registered as the same record. */
  lemma SameRow(o1: seq<Id>, r1: map<Id, Process>, i: int, o2: seq<Id>, r2: map<Id, Process>, j: int)
    requires RegistryOk(o1, r1) && RegistryOk(o2, r2)
    requires 0 <= i < |o1| && 0 <= j < |o2| && o1[i] == o2[j] && o2[j] in r2 && r1[o1[i]] == r2[o2[j]]
    ensures Listing(o2, r2)[j] == Listing(o1, r1)[i].(session := j + 1)
  {
  }

  /** Removing the job listed at position `k` drops its row; the jobs listed
      before it keep their rows and every later job moves up one session. */
  lemma ListingDrops(order: seq<Id>, registry: map<Id, Process>, k: int)
    requires RegistryOk(order, registry) && 0 <= k < |order|
    ensures RegistryOk(Without(order, order[k]), registry - {order[k]})
    ensures var before := Listing(order, registry);
            var after := Listing(Without(order, order[k]), registry - {order[k]});
            && |after| == |before| - 1
            && (forall i :: 0 <= i < k ==> after[i] == before[i])
            && (forall i :: k <= i < |after| ==> after[i] == before[i + 1].(session := i + 1))
  {
    var id := order[k];
    RegistryRemove(order, registry, id);
    WithoutAt(order, k);
    var rest := order[..k] + order[k + 1..];
    var reg := registry - {id};
    assert |rest| == |order| - 1;
    forall i | 0 <= i < k ensures Listing(rest, reg)[i] == Listing(order, registry)[i] {
      assert rest[i] == order[i];
      SameRow(order, registry, i, rest, reg, i);
    }
    forall i | k <= i < |rest| ensures Listing(rest, reg)[i] == Listing(order, registry)[i + 1].(session := i + 1) {
      assert rest[i] == order[i + 1];
      SameRow(order, registry, i + 1, rest, reg, i);
    }
  }

  class Scheduler {
    /** Keys of `activeProcesses` in insertion order. */
    var order: seq<Id>
    var registry: map<Id, Process>
    /** `processHistory`, most recent first. */
    var history: seq<Process>
    /** The ids of the history entries, position by position. */
    ghost var historyIds: seq<Id>
    /** The runners of all submitted jobs. */
    ghost var runners: set<Runner>

    ghost predicate Valid()
      reads this, registry.Values`status, registry.Values`isRunning, registry.Values`count
      reads history`status, history`count
      reads runners, Captured(runners)`timer, Timers(runners)`cleared
    {
      Inv(order, registry, history, historyIds, runners)
    }

    ghost function Entry(id: Id): set<object>
      reads this
    {
      if id in registry then {registry[id]} else {}
    }

    ghost function EntryTimer(id: Id): set<object>
      reads this, registry.Values
    {
      if id in registry && registry[id].timer != null then {registry[id].timer} else {}
    }

    /** The termination protocol has run on record `p` (registered as `id`)
        with `count` and `st`, given the registry, key order and history it
        found. */
    ghost predicate Retired(id: Id, p: Process, count: int, st: Status, now: Timestamp,
                            order0: seq<Id>, registry0: map<Id, Process>, history0: seq<Process>)
      reads this, p, history
    {
      && p.status == st && p.count == count && p.endTime == Some(now) && !p.isRunning
      && |history| == |history0| + 1 && history[1..] == history0
      && history[0] != p && history[0].SameFields(p)
      && registry == registry0 - {id} && order == Without(order0, id)
    }

    /** A registered record is none of the history entries. */
    lemma NotInHistory(id: Id)
      requires Valid() && id in registry
      ensures forall i :: 0 <= i < |history| ==> history[i] != registry[id]
    {
      forall i | 0 <= i < |history| ensures history[i] != registry[id] {
        assert historyIds[i] !in registry;
      }
    }

    /** A timer that still fires belongs to a registered record that is
        running: the one its runner captured. */
    lemma LiveTimer(r: Runner)
      requires Valid() && r in runners && r.timer != null && !r.timer.cleared
      ensures r.process != null && r.id in registry && registry[r.id] == r.process
      ensures r.process.isRunning && r.process.status == Active && r.process.timer == r.timer
    {
      assert RunnerOk(r, registry);
    }

    constructor ()
      ensures Valid()
      ensures order == [] && registry == map[] && history == [] && runners == {}
    {
      order := [];
      registry := map[];
      history := [];
      historyIds := [];
      runners := {};
    }

    /** The `/api/submit` handler, up to the hand-over to the runner.
        `cookieIsJson` is whether `JSON.parse` accepts the cookie; `freshId`
        is the generated process id and `now` the start time. */
    method Submit(req: Request, cookieIsJson: bool, freshId: Id, now: Timestamp)
      returns (resp: SubmitResponse, r: Runner?)
      requires Valid()
      requires freshId !in registry && freshId !in historyIds
      modifies this
      ensures Valid()
      ensures !Complete(req) ==> resp == MissingFields
      ensures Complete(req) && !cookieIsJson ==> resp == InvalidCookie
      ensures resp.Started? <==> Complete(req) && cookieIsJson
      ensures !resp.Started? ==>
                && r == null && order == old(order) && registry == old(registry)
                && history == old(history) && runners == old(runners)
      ensures resp.Started? ==>
                && resp.processId == freshId && freshId in registry
                && var p := registry[freshId];
                && fresh(p) && p.Initial(freshId, req.url.value, req.amount.value, req.interval.value, now)
                && order == old(order) + [freshId] && registry == old(registry)[freshId := p]
                && history == old(history)
                && resp.session == |registry| == |old(registry)| + 1
      ensures resp.Started? ==>
                && r != null && fresh(r) && runners == old(runners) + {r}
                && r.id == freshId && r.amount == req.amount.value && r.interval == req.interval.value
                && r.Pending()
    {
      if !Complete(req) {
        return MissingFields, null;
      }
      if !cookieIsJson {
        return InvalidCookie, null;
      }
      var p := new Process(freshId, req.url.value, req.amount.value, req.interval.value, now);
      r := new Runner(freshId, req.amount.value, req.interval.value);
      Register(p, r);
      resp := Started(freshId, |registry|);
    }

    /** Registers record `p` under its id at the end of the key order,
        together with the runner `r` that will drive it. */
    method Register(p: Process, r: Runner)
      requires Valid() && p.id !in registry && p.id !in historyIds
      requires p.status == Active && p.isRunning && p.count == 0
      requires r !in runners && r.id == p.id && r.amount == p.target && r.Pending()
      modifies this
      ensures Valid()
      ensures order == old(order) + [p.id] && registry == old(registry)[p.id := p]
      ensures history == old(history) && runners == old(runners) + {r}
      ensures |registry| == |old(registry)| + 1
    {
      InsertKeepsInv(order, registry, history, historyIds, runners, p, r);
      registry, order := registry[p.id := p], order + [p.id];
      runners := runners + {r};
    }

    /** Every part of Valid() except that the record registered as `id` has
        been finalised; the job's timer no longer fires. */
    ghost predicate ReadyToRetire(id: Id)
      reads this, registry.Values`status, registry.Values`isRunning, registry.Values`count
      reads history`status, history`count, runners, Captured(runners)`timer, Timers(runners)`cleared
    {
      && RegistryOk(order, registry) && id in registry
      && (forall x :: x in registry && x != id ==>
            registry[x].status == Active && registry[x].isRunning && CountInRange(registry[x]))
      && registry[id].status != Active && CountInRange(registry[id])
      && HistoryOk(history, historyIds, registry)
      && RunnersOk(runners, registry, historyIds) && TimersRegistered(runners, registry)
      && (forall r :: r in runners && r.id == id ==> r.timer == null || r.timer.cleared)
    }

    /** Writes the final fields of the record registered as `id`. */
    method Finalise(id: Id, count: int, st: Status, now: Timestamp)
      requires Valid() && id in registry && st != Active && 0 <= count <= Max0(registry[id].target)
      requires forall r :: r in runners && r.id == id ==> r.timer == null || r.timer.cleared
      requires forall r :: r in runners && r.id == id ==> r.sharedCount == count
      modifies registry[id]
      ensures ReadyToRetire(id)
      ensures var p := registry[id];
              p.status == st && p.count == count && p.endTime == Some(now) && !p.isRunning
              && p.lastUpdate == old(p.lastUpdate) && p.timer == old(p.timer)
    {
      var p := registry[id];
      NotInHistory(id);
      p.status, p.count, p.endTime, p.isRunning := st, count, Some(now), false;
    }

    /** Moves the finalised record registered as `id` out of the registry,
        putting `h` at the front of the history. */
    method Retire(id: Id, h: Process)
      requires ReadyToRetire(id) && h.id == id && h.status != Active && CountInRange(h)
      modifies this
      ensures Valid() && runners == old(runners)
      ensures history == [h] + old(history)
      ensures registry == old(registry) - {id} && order == Without(old(order), id)
    {
      RetireKeepsInv(order, registry, history, historyIds, runners, id, h);
      history, historyIds := [h] + history, [id] + historyIds;
      registry, order := registry - {id}, Without(order, id);
    }

    /** The termination protocol `completeProcess`: a no-op unless `id` is
        registered, in which case the record is finalised, a copy of it is
        put at the front of the history and the id leaves the registry.
        Its callers have cleared the job's interval timer beforehand. */
    method CompleteProcess(id: Id, count: int, st: Status, now: Timestamp)
      requires Valid()
      requires st != Active
      requires id in registry ==> 0 <= count <= Max0(registry[id].target)
      requires forall r :: r in runners && r.id == id ==> r.timer == null || r.timer.cleared
      requires forall r :: r in runners && r.id == id ==> r.sharedCount == count
      modifies this, Entry(id)
      ensures Valid() && runners == old(runners) && id !in registry
      ensures id !in old(registry) ==>
                order == old(order) && registry == old(registry) && history == old(history)
      ensures id in old(registry) ==>
                && Retired(id, old(registry[id]), count, st, now, old(order), old(registry), old(history))
                && fresh(history[0])
      ensures id in old(registry) ==>
                old(registry[id]).timer == old(registry[id].timer)
                && old(registry[id]).lastUpdate == old(registry[id].lastUpdate)
    {
      if id in registry {
        var p := registry[id];
        Finalise(id, count, st, now);
        var snapshot := new Process.CopyOf(p);
        Retire(id, snapshot);
      }
    }

    /** The `/api/stop/:id` handler: 404 for an unregistered id; otherwise
        the job's interval timer is cleared, the live record is marked
        stopped and put (itself, not a copy) at the front of the history,
        and the id leaves the registry. `isRunning` is left as it was. */
    method Stop(id: Id, now: Timestamp) returns (resp: StopResponse)
      requires Valid()
      modifies this, Entry(id), EntryTimer(id)
      ensures Valid() && runners == old(runners)
      ensures resp == NotFound <==> id !in old(registry)
      ensures id !in old(registry) ==>
                order == old(order) && registry == old(registry) && history == old(history)
      ensures id in old(registry) ==>
                var p := old(registry[id]);
                && history == [p] + old(history)
                && registry == old(registry) - {id} && order == Without(old(order), id)
                && p.status == Stopped && p.endTime == Some(now)
                && p.isRunning == old(p.isRunning) && p.count == old(p.count)
                && p.lastUpdate == old(p.lastUpdate) && p.timer == old(p.timer)
                && (p.timer != null ==> p.timer.cleared)
      // the job's runner fires no more
      ensures forall r :: r in runners && r.id == id ==> r.timer == null || r.timer.cleared
    {
      if id !in registry {
        return NotFound;
      }
      var p := registry[id];
      MarkStopped(id, now);
      Retire(id, p);
      resp := StoppedOk;
    }

    /** Clears the interval timer of the record registered as `id` and
        marks the record stopped. */
    method MarkStopped(id: Id, now: Timestamp)
      requires Valid() && id in registry
      modifies registry[id], EntryTimer(id)
      ensures ReadyToRetire(id)
      ensures var p := registry[id];
              p.status == Stopped && p.endTime == Some(now)
              && p.isRunning == old(p.isRunning) && p.count == old(p.count)
              && p.lastUpdate == old(p.lastUpdate) && p.timer == old(p.timer)
              && (p.timer != null ==> p.timer.cleared)
    {
      var p := registry[id];
      NotInHistory(id);
      if p.timer != null {
        p.timer.cleared := true;
      }
      p.status, p.endTime := Stopped, Some(now);
    }

    /** The rest of `startSharingProcess` once its lookups (cookie format,
        post id, access token) are done: `resolved` says whether all three
        succeeded. A failure terminates the job as failed with 0 shares; a
        job stopped meanwhile is left alone; otherwise the interval timer
        and the watchdog are set up. */
    method Start(r: Runner, resolved: bool, now: Timestamp)
      requires Valid() && r in runners && !r.started
      modifies this, r, Entry(r.id)
      ensures Valid() && runners == old(runners) && r.started
      ensures !resolved ==>
                && r.process == null && r.timer == null && !r.watchdogArmed
                && (r.id !in old(registry) ==>
                      order == old(order) && registry == old(registry) && history == old(history))
                && (r.id in old(registry) ==>
                      && Retired(r.id, old(registry[r.id]), 0, Failed, now, old(order), old(registry), old(history))
                      && fresh(history[0])
                      && old(registry[r.id]).lastUpdate == old(registry[r.id].lastUpdate)
                      && old(registry[r.id]).timer == old(registry[r.id].timer))
                && r.sharedCount == old(r.sharedCount) && r.errors == old(r.errors)
                && r.watchdogDelay == old(r.watchdogDelay)
      ensures resolved && r.id !in old(registry) ==>
                && r.process == null && r.timer == null && !r.watchdogArmed
                && r.sharedCount == old(r.sharedCount) && r.errors == old(r.errors)
                && r.watchdogDelay == old(r.watchdogDelay)
                && order == old(order) && registry == old(registry) && history == old(history)
      ensures resolved && r.id in old(registry) ==>
                var p := old(registry[r.id]);
                && r.process == p && r.timer != null && fresh(r.timer) && !r.timer.cleared
                && p.timer == r.timer && p.isRunning
                && p.count == old(p.count) && p.status == old(p.status) && p.endTime == old(p.endTime)
                && p.lastUpdate == old(p.lastUpdate)
                && r.sharedCount == 0 && r.errors == 0
                && r.watchdogArmed && r.watchdogDelay == WatchdogDelay(r.amount, r.interval)
                && order == old(order) && registry == old(registry) && history == old(history)
    {
      if !resolved {
        MarkStarted(r);
        CompleteProcess(r.id, 0, Failed, now);
        return;
      }
      if r.id !in registry {
        MarkStarted(r);
        return;
      }
      Launch(r);
    }

    /** The runner's lookups are over without a record to drive. */
    method MarkStarted(r: Runner)
      requires Valid() && r in runners && !r.started
      modifies r
      ensures Valid() && r.started && r.process == null && r.timer == null && !r.watchdogArmed
      ensures r.sharedCount == old(r.sharedCount) && r.errors == old(r.errors)
      ensures r.watchdogDelay == old(r.watchdogDelay)
      ensures forall q :: q in runners && q.id == r.id ==> q.timer == null || q.timer.cleared
    {
      r.started := true;
      assert RunnerOk(r, registry);
    }

    /** Captures the record registered under the runner's id, sets up the
        interval timer on it (held by both) and arms the watchdog. */
    method Launch(r: Runner)
      requires Valid() && r in runners && !r.started && r.id in registry
      modifies r, registry[r.id]
      ensures Valid()
      ensures var p := registry[r.id];
              && r.started && r.process == p && r.timer != null && fresh(r.timer) && !r.timer.cleared
              && p.timer == r.timer && p.isRunning
              && p.count == old(p.count) && p.status == old(p.status) && p.endTime == old(p.endTime)
              && p.lastUpdate == old(p.lastUpdate)
              && r.sharedCount == 0 && r.errors == 0
              && r.watchdogArmed && r.watchdogDelay == WatchdogDelay(r.amount, r.interval)
    {
      Capture(r);
      Arm(r);
    }

    /** The record registered under the runner's id gets a fresh interval
        timer, held by both. */
    method Capture(r: Runner)
      requires Valid() && r in runners && !r.started && r.id in registry
      modifies r, registry[r.id]
      ensures Valid()
      ensures var p := registry[r.id];
              && r.started && r.process == p && r.timer != null && fresh(r.timer) && !r.timer.cleared
              && p.timer == r.timer && p.isRunning
              && p.count == old(p.count) && p.status == old(p.status) && p.endTime == old(p.endTime)
              && p.lastUpdate == old(p.lastUpdate)
      ensures r.sharedCount == old(r.sharedCount) && r.errors == old(r.errors)
    {
      var p := registry[r.id];
      var t := new Timer();
      r.started, r.process, r.timer := true, p, t;
      p.timer, p.isRunning := t, true;
      forall q | q in runners ensures RunnerOk(q, registry) {
        if q != r {
          assert old(RunnerOk(q, registry));
          assert q.process != p;
        }
      }
    }

    /** The closure counters start at 0 and the watchdog is armed. */
    method Arm(r: Runner)
      requires Valid() && r in runners && r.process != null && r.sharedCount == 0
      modifies r
      ensures Valid()
      ensures r.started == old(r.started) && r.process == old(r.process) && r.timer == old(r.timer)
      ensures r.sharedCount == 0 && r.errors == 0
      ensures r.watchdogArmed && r.watchdogDelay == WatchdogDelay(r.amount, r.interval)
    {
      r.sharedCount, r.errors := 0, 0;
      r.watchdogArmed, r.watchdogDelay := true, WatchdogDelay(r.amount, r.interval);
      assert RunnerOk(r, registry);
    }

    /** `clearInterval(timer)` followed by the termination protocol with the
        runner's current count. */
    method Halt(r: Runner, st: Status, now: Timestamp)
      requires Valid() && r in runners && r.process != null && st != Active
      modifies this, r.timer, Entry(r.id)
      ensures Valid() && runners == old(runners)
      ensures r.timer.cleared
      ensures r.id !in old(registry) ==>
                order == old(order) && registry == old(registry) && history == old(history)
      ensures r.id in old(registry) ==>
                && Retired(r.id, r.process, r.sharedCount, st, now, old(order), old(registry), old(history))
                && fresh(history[0])
                && r.process.lastUpdate == old(r.process.lastUpdate)
    {
      r.timer.cleared := true;
      CompleteProcess(r.id, r.sharedCount, st, now);
    }

    /** A 200 response: the count moves up by one, the error streak is reset
        and the record shows the new count. */
    method CountShare(r: Runner, now: Timestamp)
      requires Valid() && r in runners && r.sharedCount < r.amount
      requires r.process != null && r.id in registry && registry[r.id] == r.process
      modifies r, r.process
      ensures Valid()
      ensures r.sharedCount == old(r.sharedCount) + 1 && r.errors == 0
      ensures r.process == old(r.process) && r.timer == old(r.timer) && r.watchdogArmed == old(r.watchdogArmed)
      ensures r.watchdogDelay == old(r.watchdogDelay)
      ensures r.process.count == r.sharedCount && r.process.lastUpdate == Some(now)
      ensures r.process.isRunning == old(r.process.isRunning)
      ensures r.process.status == old(r.process.status) && r.process.endTime == old(r.process.endTime)
      ensures r.process.timer == old(r.process.timer)
    {
      NotInHistory(r.id);
      r.sharedCount, r.errors := r.sharedCount + 1, 0;
      r.process.count, r.process.lastUpdate := r.sharedCount, Some(now);
      forall q | q in runners ensures RunnerOk(q, registry) {
        assert old(RunnerOk(q, registry));
      }
    }

    /** A thrown share request lengthens the error streak. */
    method CountError(r: Runner)
      requires Valid() && r in runners && r.process != null
      modifies r
      ensures Valid()
      ensures r.errors == old(r.errors) + 1 && r.sharedCount == old(r.sharedCount)
      ensures r.process == old(r.process) && r.timer == old(r.timer) && r.watchdogArmed == old(r.watchdogArmed)
      ensures r.watchdogDelay == old(r.watchdogDelay)
    {
      r.errors := r.errors + 1;
      assert RunnerOk(r, registry);
    }

    /** One firing of a job's interval callback, with `o` the outcome its
        share request would have. The counters move as TickStep says; when
        it finishes the job the timer is cleared and the termination
        protocol runs with the final count. */
    method Tick(r: Runner, o: Outcome, now: Timestamp)
      requires Valid() && r in runners
      requires r.timer != null && !r.timer.cleared
      modifies this, r, r.process, r.timer
      ensures Valid() && runners == old(runners)
      ensures r.process == old(r.process) && r.timer == old(r.timer)
      ensures r.watchdogArmed == old(r.watchdogArmed) && r.watchdogDelay == old(r.watchdogDelay)
      // a live timer belongs to a registered, running record
      ensures r.process != null && r.id in old(registry) && old(registry[r.id]) == r.process
      ensures old(r.process.isRunning)
      // the job's count never decreases and never passes its target
      ensures old(r.process.count) <= r.process.count <= Max0(r.process.target)
      ensures var s := TickStep(Counters(old(r.sharedCount), old(r.errors)), r.amount, old(r.process.isRunning), o);
              && r.sharedCount == s.Last().shared && r.errors == s.Last().errors
              && (s.Continue? ==>
                    && !r.timer.cleared
                    && order == old(order) && registry == old(registry) && history == old(history)
                    && r.process.count == (if s.next.shared == old(r.sharedCount) then old(r.process.count) else s.next.shared)
                    && r.process.lastUpdate == (if s.next.shared == old(r.sharedCount) then old(r.process.lastUpdate) else Some(now))
                    && r.process.endTime == old(r.process.endTime))
              && (s.Finish? ==>
                    && r.timer.cleared
                    && Retired(r.id, r.process, r.sharedCount, s.status, now, old(order), old(registry), old(history))
                    && fresh(history[0])
                    && r.process.lastUpdate == (if s.last.shared == old(r.sharedCount) then old(r.process.lastUpdate) else Some(now)))
    {
      LiveTimer(r);
      var p := r.process;
      if !p.isRunning || r.sharedCount >= r.amount {
        Halt(r, Completed, now);
        return;
      }
      match o
      case Ok200 => Succeed(r, now);
      case Non200 =>
      case Error => Fail(r, now);
    }

    /** The rest of a firing whose share request got a 200 response: the
        share is counted, and the job completes once the target is reached. */
    method Succeed(r: Runner, now: Timestamp)
      requires Valid() && r in runners && r.sharedCount < r.amount
      requires r.process != null && r.id in registry && registry[r.id] == r.process
      modifies this, r, r.process, r.timer
      ensures Valid() && runners == old(runners)
      ensures r.process == old(r.process) && r.timer == old(r.timer) && r.watchdogArmed == old(r.watchdogArmed)
      ensures r.watchdogDelay == old(r.watchdogDelay)
      ensures r.sharedCount == old(r.sharedCount) + 1 && r.errors == 0 && r.process.lastUpdate == Some(now)
      ensures r.sharedCount < r.amount ==>
                && r.timer.cleared == old(r.timer.cleared) && r.process.count == r.sharedCount
                && r.process.endTime == old(r.process.endTime)
                && order == old(order) && registry == old(registry) && history == old(history)
      ensures r.sharedCount >= r.amount ==>
                && r.timer.cleared
                && Retired(r.id, r.process, r.sharedCount, Completed, now, old(order), old(registry), old(history))
                && fresh(history[0])
    {
      CountShare(r, now);
      if r.sharedCount >= r.amount {
        Halt(r, Completed, now);
      }
    }

    /** The rest of a firing whose share request threw: the error streak
        grows, and the job fails once it reaches the limit. */
    method Fail(r: Runner, now: Timestamp)
      requires Valid() && r in runners
      requires r.process != null && r.id in registry && registry[r.id] == r.process
      modifies this, r, r.process, r.timer
      ensures Valid() && runners == old(runners)
      ensures r.process == old(r.process) && r.timer == old(r.timer) && r.watchdogArmed == old(r.watchdogArmed)
      ensures r.watchdogDelay == old(r.watchdogDelay)
      ensures r.errors == old(r.errors) + 1 && r.sharedCount == old(r.sharedCount)
      ensures r.process.lastUpdate == old(r.process.lastUpdate)
      ensures r.errors < MaxErrors ==>
                && r.timer.cleared == old(r.timer.cleared) && r.process.count == old(r.process.count)
                && r.process.endTime == old(r.process.endTime)
                && order == old(order) && registry == old(registry) && history == old(history)
      ensures r.errors >= MaxErrors ==>
                && r.timer.cleared
                && Retired(r.id, r.process, r.sharedCount, Failed, now, old(order), old(registry), old(history))
                && fresh(history[0])
    {
      CountError(r);
      if r.errors >= MaxErrors {
        Halt(r, Failed, now);
      }
    }

    /** The watchdog firing after `watchdogDelay` ms: if the captured record
        is still running, the interval timer is cleared and the termination
        protocol runs with status timeout, which does nothing when the job
        was stopped meanwhile. */
    method Watchdog(r: Runner, now: Timestamp)
      requires Valid() && r in runners && r.watchdogArmed
      modifies this, r, Entry(r.id), r.timer
      ensures Valid() && runners == old(runners)
      ensures !r.watchdogArmed && r.process == old(r.process) && r.timer == old(r.timer)
      ensures r.watchdogDelay == old(r.watchdogDelay)
      ensures r.sharedCount == old(r.sharedCount) && r.errors == old(r.errors)
      ensures r.process != null && r.timer != null
      // a registered job is still running; the watchdog times it out
      ensures r.id in old(registry) ==>
                && old(r.process.isRunning) && r.timer.cleared
                && Retired(r.id, r.process, r.sharedCount, Timeout, now, old(order), old(registry), old(history))
                && fresh(history[0])
                && r.process.lastUpdate == old(r.process.lastUpdate)
      // after a stop or a completion, nothing changes but the timer
      ensures r.id !in old(registry) ==>
                && order == old(order) && registry == old(registry) && history == old(history)
                && r.timer.cleared == (old(r.timer.cleared) || old(r.process.isRunning))
                && unchanged(r.process)
    {
      Disarm(r);
      if r.process.isRunning {
        Halt(r, Timeout, now);
      }
    }

    /** The watchdog has fired. */
    method Disarm(r: Runner)
      requires Valid() && r in runners && r.watchdogArmed
      modifies r
      ensures Valid() && !r.watchdogArmed && r.process != null
      ensures r.process == old(r.process) && r.timer == old(r.timer)
      ensures r.sharedCount == old(r.sharedCount) && r.errors == old(r.errors)
      ensures r.watchdogDelay == old(r.watchdogDelay)
    {
      r.watchdogArmed := false;
      assert RunnerOk(r, registry);
    }
  }
}
