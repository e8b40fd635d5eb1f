/** One-time jobs of cmd/scheduler/handler.go: what accepting, finishing and restoring a job does to
    the three stores that hold it.  Times are nanoseconds, stored run times milliseconds. */
module OneTimeJobs {

  const MILLI: int := 1_000_000
  const SOON: int := 5_000_000_000

  datatype Setup = Setup(handlers: set<string>, requestable: set<string>)

  /** The JSON value of a job in Redis. */
  datatype Record = Record(jobID: string, taskType: string, runAt: int, data: string)

  datatype Stored = Malformed | Well(record: Record)

  /** A job of gocron; it does not fire before `due`, and recurs until it is removed. */
  datatype Job = Job(jobID: string, taskType: string, due: int, data: string)

  /** oneTimeJobs, gocron's one-time jobs with the next unused gocron ID, and the Redis keys, named
      by the job ID behind their prefix. */
  datatype Stores = Stores(
    tracked: map<string, nat>, jobs: map<nat, Job>, next: nat, redis: map<string, Stored>)

  /** The clock readings of one ScheduleOneTimeJob: its two calls, and gocron's own. */
  datatype Clock = Clock(now: int, until: int, created: int)

  predicate InOrder(clk: Clock) {
    clk.now <= clk.until <= clk.created
  }

  /** What goes well while a job is scheduled, and while a key is restored. */
  datatype ScheduleIO = ScheduleIO(newJob: bool, save: bool)
  datatype RestoreIO = RestoreIO(get: bool, del: bool, schedule: ScheduleIO, clk: Clock)

  const ALL_WELL: ScheduleIO := ScheduleIO(true, true)

  /** ScheduleOneTimeJob: the new stores, and whether it returned without an error. */
  function Schedule(
    c: Setup, s: Stores, jobID: string, taskType: string, runAt: int, data: string,
    clk: Clock, io: ScheduleIO): (Stores, bool)
  {
    if taskType !in c.requestable || taskType !in c.handlers || !io.newJob then (s, false)
    else
      var at := if runAt <= clk.now then clk.now + SOON else runAt;
      var duration := if at - clk.until < 0 then SOON else at - clk.until;
      (Stores(s.tracked[jobID := s.next],
              s.jobs[s.next := Job(jobID, taskType, clk.created + duration, data)],
              s.next + 1,
              if io.save then s.redis[jobID := Well(Record(jobID, taskType, at / MILLI, data))] else s.redis),
       true)
  }

  /** removeOneTimeJob, with a Redis delete that takes effect or not. */
  function Remove(s: Stores, jobID: string, del: bool): Stores {
    Stores(s.tracked - {jobID},
           if jobID in s.tracked then s.jobs - {s.tracked[jobID]} else s.jobs,
           s.next,
           if del then s.redis - {jobID} else s.redis)
  }

  /** The test a stored job has to pass to be restored at `now`. */
  predicate Restorable(c: Setup, v: Stored, now: int) {
    && v.Well? && v.record.runAt * MILLI > now
    && v.record.taskType in c.handlers && v.record.taskType in c.requestable
  }

  function DropKey(s: Stores, key: string, del: bool): Stores {
    if del then s.(redis := s.redis - {key}) else s
  }

  /** One turn of the loop of RestoreOneTimeJobs. */
  function RestoreKey(c: Setup, s: Stores, key: string, now: int, io: RestoreIO): Stores {
    if !io.get || key !in s.redis then s
    else if !Restorable(c, s.redis[key], now) then DropKey(s, key, io.del)
    else
      var r := s.redis[key].record;
      var (t, ok) := Schedule(c, s, r.jobID, r.taskType, r.runAt * MILLI, r.data, io.clk, io.schedule);
      if ok then t else DropKey(s, key, io.del)
  }

  /** The loop over the first n keys. */
  function RestoreKeys(
    c: Setup, s: Stores, keys: seq<string>, n: nat, now: int, io: nat -> RestoreIO): Stores
    requires n <= |keys|
  {
    if n == 0 then s
    else RestoreKey(c, RestoreKeys(c, s, keys, n - 1, now, io), keys[n - 1], now, io(n - 1))
  }

  // ---- The three stores stay in step -------------------------------------------------------

  /** Tracked IDs and live gocron jobs are in one-to-one correspondence. */
  ghost predicate Paired(s: Stores) {
    && (forall id :: id in s.tracked ==> s.tracked[id] in s.jobs && s.jobs[s.tracked[id]].jobID == id)
    && (forall g :: g in s.jobs ==>
          g < s.next && s.jobs[g].jobID in s.tracked && s.tracked[s.jobs[g].jobID] == g)
  }

  /** Every well-formed record is filed under its own job ID. */
  ghost predicate Filed(s: Stores) {
    forall key :: key in s.redis && s.redis[key].Well? ==> s.redis[key].record.jobID == key
  }

  /** The job does what the record says, and not before the recorded time. */
  predicate Faithful(j: Job, r: Record) {
    j.jobID == r.jobID && j.taskType == r.taskType && j.data == r.data && r.runAt * MILLI <= j.due
  }

  /** A tracked job and the record under its ID agree. */
  ghost predicate Agreeing(s: Stores) {
    forall id :: id in s.tracked && id in s.redis && s.redis[id].Well? && s.tracked[id] in s.jobs ==>
      Faithful(s.jobs[s.tracked[id]], s.redis[id].record)
  }

  ghost predicate InStep(s: Stores) {
    Paired(s) && Filed(s) && Agreeing(s)
  }

  /** Scheduling succeeds exactly for a task type that may be requested and has a handler, if gocron
      takes the job; otherwise it changes nothing. */
  lemma ScheduleSucceedsIff(
    c: Setup, s: Stores, jobID: string, taskType: string, runAt: int, data: string,
    clk: Clock, io: ScheduleIO)
    ensures var (t, ok) := Schedule(c, s, jobID, taskType, runAt, data, clk, io);
            && (ok <==> taskType in c.requestable && taskType in c.handlers && io.newJob)
            && (!ok ==> t == s)
  {
  }

  /** What an accepted job is: it does not fall due before the time asked for nor before now, it
      carries what was asked for, what is stored about it agrees with it to the millisecond, and
      nothing else changes.  A time that has passed is put off by five seconds. */
  lemma ScheduledJob(
    c: Setup, s: Stores, jobID: string, taskType: string, runAt: int, data: string,
    clk: Clock, io: ScheduleIO)
    requires Schedule(c, s, jobID, taskType, runAt, data, clk, io).1 && InOrder(clk)
    ensures var t := Schedule(c, s, jobID, taskType, runAt, data, clk, io).0;
            && taskType in c.requestable && taskType in c.handlers
            && jobID in t.tracked && t.tracked[jobID] == s.next && s.next in t.jobs && t.next == s.next + 1
            && var j := t.jobs[s.next];
            && j.jobID == jobID && j.taskType == taskType && j.data == data
            && runAt <= j.due && clk.now < j.due
            && (runAt > clk.until ==> j.due == runAt + (clk.created - clk.until))
            && (clk.now < runAt < clk.until ==> j.due == clk.created + 5_000_000_000)
            && (runAt <= clk.now && clk.until <= clk.now + 5_000_000_000 ==>
                  j.due == clk.now + 5_000_000_000 + (clk.created - clk.until))
            && (io.save ==>
                  && jobID in t.redis && t.redis[jobID].Well? && Faithful(j, t.redis[jobID].record)
                  && var at := if runAt > clk.now then runAt else clk.now + 5_000_000_000;
                     at - 1_000_000 < t.redis[jobID].record.runAt * 1_000_000 <= at)
            && (!io.save ==> t.redis == s.redis)
            && (forall id :: id != jobID ==> Same(id, s.tracked, t.tracked) && Same(id, s.redis, t.redis))
            && (forall g :: g != s.next ==> Same(g, s.jobs, t.jobs))
  {
    var at := if runAt <= clk.now then clk.now + SOON else runAt;
    assert at - MILLI < at / MILLI * MILLI <= at;
  }

  /** Two maps agree on a key. */
  predicate Same<K, V(==)>(k: K, a: map<K, V>, b: map<K, V>) {
    (k in a <==> k in b) && (k in a ==> a[k] == b[k])
  }

  lemma ScheduleKeepsInStep(
    c: Setup, s: Stores, jobID: string, taskType: string, runAt: int, data: string,
    clk: Clock, io: ScheduleIO)
    requires InStep(s) && InOrder(clk) && jobID !in s.tracked
    requires jobID in s.redis && s.redis[jobID].Well? ==>
               var r := s.redis[jobID].record;
               r.taskType == taskType && r.data == data && r.runAt * MILLI <= runAt
    ensures InStep(Schedule(c, s, jobID, taskType, runAt, data, clk, io).0)
  {
    var (t, ok) := Schedule(c, s, jobID, taskType, runAt, data, clk, io);
    if ok {
      ScheduledJob(c, s, jobID, taskType, runAt, data, clk, io);
      assert s.next !in s.jobs;
    }
  }

  /** Removing takes the job out of the map and out of gocron, and out of Redis if the delete takes
      effect, and nothing else. */
  lemma RemoveKeepsInStep(s: Stores, jobID: string, del: bool)
    requires InStep(s)
    ensures var t := Remove(s, jobID, del);
            && InStep(t)
            && jobID !in t.tracked && (forall g :: g in t.jobs ==> t.jobs[g].jobID != jobID)
            && (if del then jobID !in t.redis else Same(jobID, s.redis, t.redis))
            && (forall id :: id != jobID ==> Same(id, s.tracked, t.tracked) && Same(id, s.redis, t.redis))
            && (forall g :: g in s.jobs && s.jobs[g].jobID != jobID ==> Same(g, s.jobs, t.jobs))
            && t.next == s.next
  {
  }

  /** A restored entry is the same, but for a later time if its own passes meanwhile. */
  predicate Renewed(before: Stored, after: Stored) {
    || before == after
    || (before.Well? && after.Well? && before.record.runAt <= after.record.runAt &&
        after.record == before.record.(runAt := after.record.runAt))
  }

  /** One turn touches only its own key. */
  lemma RestoreKeyEffect(c: Setup, s: Stores, key: string, now: int, io: RestoreIO)
    requires InStep(s) && InOrder(io.clk) && key !in s.tracked
    ensures var t := RestoreKey(c, s, key, now, io);
            && InStep(t)
            && t.tracked.Keys - {key} == s.tracked.Keys && t.redis.Keys - {key} == s.redis.Keys - {key}
            && (forall k :: k in s.redis && k != key ==> t.redis[k] == s.redis[k])
            && (forall k :: k in s.tracked ==> t.tracked[k] == s.tracked[k])
            && (forall g :: g in s.jobs ==> g in t.jobs && t.jobs[g] == s.jobs[g])
            && (key in t.tracked ==> key in s.redis && s.redis[key].Well? && t.tracked[key] in t.jobs &&
                                     Faithful(t.jobs[t.tracked[key]], s.redis[key].record))
            && (key in t.redis ==> key in s.redis && Renewed(s.redis[key], t.redis[key]))
            && (if key in s.redis && Restorable(c, s.redis[key], now)
                then io.get && io.schedule == ALL_WELL ==> key in t.tracked && key in t.redis
                else key !in t.tracked && (key in t.redis ==> t.redis[key] == s.redis[key]) &&
                     (io.get && io.del ==> key !in t.redis))
  {
    if io.get && key in s.redis && Restorable(c, s.redis[key], now) {
      var r := s.redis[key].record;
      ScheduleKeepsInStep(c, s, r.jobID, r.taskType, r.runAt * MILLI, r.data, io.clk, io.schedule);
      assert s.next !in s.jobs;
    }
  }

  /** The scan returns every key once. */
  ghost predicate Scanned(s: Stores, keys: seq<string>) {
    && (forall key :: key in keys <==> key in s.redis)
    && (forall i, j :: 0 <= i < j < |keys| ==> keys[i] != keys[j])
  }

  ghost predicate ClocksInOrder(io: nat -> RestoreIO) {
    forall i: nat :: InOrder(io(i).clk)
  }

  /** What the loop has made of one key: nothing before its turn; a tracked job, faithful to the
      entry, only if the entry is restorable; and the old entry or none if it is not. */
  ghost predicate KeyAfter(c: Setup, s: Stores, t: Stores, key: string, done: bool, now: int) {
    && (key in t.tracked ==>
          && done && key in s.redis && Restorable(c, s.redis[key], now)
          && t.tracked[key] in t.jobs && Faithful(t.jobs[t.tracked[key]], s.redis[key].record))
    && (key in t.redis ==> key in s.redis && Renewed(s.redis[key], t.redis[key]))
    && (key in s.redis && !done ==> key in t.redis)
    && (key in t.redis && (!done || !Restorable(c, s.redis[key], now)) ==> t.redis[key] == s.redis[key])
  }

  /** With no errors a key that had its turn is tracked and kept exactly if it is restorable. */
  ghost predicate KeySettled(c: Setup, s: Stores, t: Stores, key: string, now: int) {
    && key in s.redis
    && (key in t.tracked <==> Restorable(c, s.redis[key], now))
    && (key in t.redis <==> Restorable(c, s.redis[key], now))
  }

  ghost predicate ErrorFree(io: nat -> RestoreIO) {
    forall i: nat :: io(i).get && io(i).del && io(i).schedule == ALL_WELL
  }

  /** One turn of the loop, as it looks for any key. */
  lemma TurnKeeps(c: Setup, s: Stores, m: Stores, turn: string, now: int, io: RestoreIO, key: string, done: bool)
    requires InStep(m) && InOrder(io.clk) && turn in s.redis
    requires KeyAfter(c, s, m, turn, false, now) && KeyAfter(c, s, m, key, done, now) && (key == turn ==> !done)
    ensures var t := RestoreKey(c, m, turn, now, io);
            && InStep(t)
            && KeyAfter(c, s, t, key, done || key == turn, now)
            && (key != turn && KeySettled(c, s, m, key, now) ==> KeySettled(c, s, t, key, now))
            && (io.get && io.del && io.schedule == ALL_WELL ==> KeySettled(c, s, t, turn, now))
  {
    RestoreKeyEffect(c, m, turn, now, io);
    hide InStep, RestoreKey, Restorable;
    var t := RestoreKey(c, m, turn, now, io);
    assert key != turn ==> (key in t.tracked <==> key in m.tracked) by {
      assert key in t.tracked.Keys - {turn} <==> key in m.tracked.Keys;
    }
    assert key != turn ==> (key in t.redis <==> key in m.redis) by {
      assert key in t.redis.Keys - {turn} <==> key in m.redis.Keys - {turn};
    }
  }

  lemma {:induction false} RestoreKeepsInStep(
    c: Setup, s: Stores, keys: seq<string>, n: nat, now: int, io: nat -> RestoreIO, key: string)
    requires InStep(s) && s.tracked == map[] && s.jobs == map[]
    requires Scanned(s, keys) && ClocksInOrder(io) && n <= |keys|
    ensures var t := RestoreKeys(c, s, keys, n, now, io);
            && InStep(t)
            && KeyAfter(c, s, t, key, key in keys[..n], now)
            && (ErrorFree(io) && key in keys[..n] ==> KeySettled(c, s, t, key, now))
  {
    if n > 0 {
      var m := RestoreKeys(c, s, keys, n - 1, now, io);
      var turn := keys[n - 1];
      assert turn !in keys[..n - 1] && turn in keys;
      assert keys[..n] == keys[..n - 1] + [turn];
      RestoreKeepsInStep(c, s, keys, n - 1, now, io, key);
      RestoreKeepsInStep(c, s, keys, n - 1, now, io, turn);
      assert InOrder(io(n - 1).clk) && (ErrorFree(io) ==> io(n - 1).get && io(n - 1).del);
      hide InStep, Scanned, RestoreKey, Restorable, ClocksInOrder, KeyAfter, KeySettled;
      TurnKeeps(c, s, m, turn, now, io(n - 1), key, key in keys[..n - 1]);
    }
  }

  /** After a restore without errors the tracked IDs are the keys left in Redis, and both are the
      well-formed entries with a future run time, a registered handler and a requestable type. */
  lemma RestoreIsExact(c: Setup, s: Stores, keys: seq<string>, now: int, io: nat -> RestoreIO)
    requires InStep(s) && s.tracked == map[] && s.jobs == map[]
    requires Scanned(s, keys) && ClocksInOrder(io) && ErrorFree(io)
    ensures var t := RestoreKeys(c, s, keys, |keys|, now, io);
            && InStep(t)
            && forall key :: ExactlyRestored(c, s, t, key, now)
  {
    var t := RestoreKeys(c, s, keys, |keys|, now, io);
    assert keys[..|keys|] == keys;
    RestoreKeepsInStep(c, s, keys, |keys|, now, io, "");
    forall key
      ensures ExactlyRestored(c, s, t, key, now)
    {
      RestoreKeepsInStep(c, s, keys, |keys|, now, io, key);
    }
    hide Faithful, InStep, RestoreKeys, Renewed;
  }

  /** What such a restore makes of one key. */
  ghost predicate ExactlyRestored(c: Setup, s: Stores, t: Stores, key: string, now: int) {
    && (key in t.tracked <==> key in t.redis)
    && (key in t.tracked <==>
          && key in s.redis && s.redis[key].Well? && s.redis[key].record.runAt * 1_000_000 > now
          && s.redis[key].record.taskType in c.handlers && s.redis[key].record.taskType in c.requestable)
    && (key in t.redis ==> Renewed(s.redis[key], t.redis[key]))
    && (key in t.tracked ==>
          t.tracked[key] in t.jobs && Faithful(t.jobs[t.tracked[key]], s.redis[key].record))
  }
}

/** Runs of the scheduler process: requests, firings, crashes and restarts in any order. */
module OneTimeRuns {
  import opened OneTimeJobs

  datatype Execution = Execution(jobID: string, taskType: string, data: string, at: int)

  /** `firing` are the gocron jobs whose handlers have started and whose removals have not happened. */
  datatype World = World(
    clock: int, up: bool, stores: Stores, used: set<string>,
    executed: seq<Execution>, firing: set<nat>)

  datatype Act =
    | Tick(to: int)
    | Accept(jobID: string, taskType: string, runAt: int, data: string, clk: Clock, io: ScheduleIO)
    | Fire(job: nat)
    | Finish(job: nat, del: bool)
    | Crash
    | ScanFails
    | Restore(keys: seq<string>, now: int, ios: nat -> RestoreIO)

  /** A first start on arbitrary Redis content: junk, and records filed under their own IDs. */
  ghost predicate IsStart(w: World) {
    && !w.up && w.firing == {} && w.executed == []
    && w.stores.tracked == map[] && w.stores.jobs == map[]
    && Filed(w.stores) && w.stores.redis.Keys <= w.used
  }

  ghost predicate Enabled(c: Setup, w: World, a: Act) {
    match a
    case Tick(to) => w.clock <= to
    case Accept(jobID, _, _, _, clk, _) =>
      w.up && jobID !in w.used && w.clock <= clk.now && InOrder(clk)
    case Fire(job) => w.up && job !in w.firing && job in w.stores.jobs && w.stores.jobs[job].due <= w.clock
    case Finish(job, _) => w.up && job in w.firing && job in w.stores.jobs
    case Crash => w.up
    case ScanFails => !w.up
    case Restore(keys, now, io) =>
      !w.up && w.clock <= now && Scanned(w.stores, keys) && ClocksInOrder(io)
  }

  function Next(c: Setup, w: World, a: Act): World
    requires Enabled(c, w, a)
  {
    match a
    case Tick(to) => w.(clock := to)
    case Accept(jobID, taskType, runAt, data, clk, io) =>
      w.(clock := clk.created,
         stores := Schedule(c, w.stores, jobID, taskType, runAt, data, clk, io).0,
         used := w.used + {jobID})
    case Fire(job) =>
      var j := w.stores.jobs[job];
      w.(executed := w.executed + [Execution(j.jobID, j.taskType, j.data, w.clock)], firing := w.firing + {job})
    case Finish(job, del) =>
      w.(stores := Remove(w.stores, w.stores.jobs[job].jobID, del), firing := w.firing - {job})
    case Crash =>
      w.(up := false, firing := {}, stores := w.stores.(tracked := map[], jobs := map[]))
    case ScanFails => w.(up := true)
    case Restore(keys, now, io) =>
      w.(clock := now, up := true, stores := RestoreKeys(c, w.stores, keys, |keys|, now, io))
  }

  ghost predicate Runs(c: Setup, w: World, acts: seq<Act>)
    decreases |acts|
  {
    acts == [] || (Enabled(c, w, acts[0]) && Runs(c, Next(c, w, acts[0]), acts[1..]))
  }

  ghost function End(c: Setup, w: World, acts: seq<Act>): World
    requires Runs(c, w, acts)
    decreases |acts|
  {
    if acts == [] then w else End(c, Next(c, w, acts[0]), acts[1..])
  }

  ghost predicate AtMostOnce(w: World) {
    forall i, j :: 0 <= i < j < |w.executed| ==> w.executed[i].jobID != w.executed[j].jobID
  }

  /** A job that has run is not tracked any more, unless it is still firing, and what Redis still
      says about it lies in the past. */
  ghost predicate Spent(w: World, e: Execution) {
    && e.at <= w.clock && e.jobID in w.used
    && (e.jobID in w.stores.tracked ==> w.stores.tracked[e.jobID] in w.firing)
    && (e.jobID in w.stores.redis && w.stores.redis[e.jobID].Well? ==>
          w.stores.redis[e.jobID].record.runAt * MILLI <= e.at)
  }

  ghost predicate Inv(w: World) {
    && InStep(w.stores)
    && w.stores.tracked.Keys <= w.used && w.stores.redis.Keys <= w.used
    && (!w.up ==> w.stores.tracked == map[] && w.stores.jobs == map[] && w.firing == {})
    && (forall i :: 0 <= i < |w.executed| ==> Spent(w, w.executed[i]))
    && AtMostOnce(w)
  }

  lemma AcceptKeepsInv(c: Setup, w: World, a: Act)
    requires Inv(w) && a.Accept? && Enabled(c, w, a)
    ensures Inv(Next(c, w, a))
  {
    ScheduleKeepsInStep(c, w.stores, a.jobID, a.taskType, a.runAt, a.data, a.clk, a.io);
    var t := Next(c, w, a);
    forall i | 0 <= i < |t.executed|
      ensures Spent(t, t.executed[i])
    {
      assert Spent(w, w.executed[i]);
    }
    hide InStep;
  }

  lemma FireKeepsInv(c: Setup, w: World, job: nat)
    requires Inv(w) && Enabled(c, w, Fire(job))
    ensures Inv(Next(c, w, Fire(job)))
  {
    var t := Next(c, w, Fire(job));
    var id := w.stores.jobs[job].jobID;
    forall i | 0 <= i < |t.executed|
      ensures Spent(t, t.executed[i])
    {
      if i < |w.executed| {
        assert Spent(w, w.executed[i]);
      }
    }
    forall i | 0 <= i < |w.executed|
      ensures w.executed[i].jobID != id
    {
      assert Spent(w, w.executed[i]);
    }
  }

  lemma FinishKeepsInv(c: Setup, w: World, job: nat, del: bool)
    requires Inv(w) && Enabled(c, w, Finish(job, del))
    ensures Inv(Next(c, w, Finish(job, del)))
  {
    var t := Next(c, w, Finish(job, del));
    var id := w.stores.jobs[job].jobID;
    RemoveKeepsInStep(w.stores, id, del);
    forall i | 0 <= i < |t.executed|
      ensures Spent(t, t.executed[i])
    {
      assert Spent(w, w.executed[i]);
    }
    hide AtMostOnce;
  }

  lemma RestoreKeepsInv(c: Setup, w: World, keys: seq<string>, now: int, io: nat -> RestoreIO)
    requires Inv(w) && Enabled(c, w, Restore(keys, now, io))
    ensures Inv(Next(c, w, Restore(keys, now, io)))
  {
    var t := Next(c, w, Restore(keys, now, io));
    assert keys[..|keys|] == keys;
    RestoreKeepsInStep(c, w.stores, keys, |keys|, now, io, "");
    forall key
      ensures KeyAfter(c, w.stores, t.stores, key, key in keys, now)
    {
      RestoreKeepsInStep(c, w.stores, keys, |keys|, now, io, key);
    }
    hide InStep, AtMostOnce, RestoreKeys, Scanned;
    forall i | 0 <= i < |t.executed|
      ensures Spent(t, t.executed[i])
    {
      assert Spent(w, w.executed[i]);
      assert KeyAfter(c, w.stores, t.stores, w.executed[i].jobID, w.executed[i].jobID in keys, now);
    }
    assert forall key :: key in t.stores.tracked ==> KeyAfter(c, w.stores, t.stores, key, key in keys, now);
  }

  lemma NextKeepsInv(c: Setup, w: World, a: Act)
    requires Inv(w) && Enabled(c, w, a)
    ensures Inv(Next(c, w, a))
  {
    match a
    case Tick(to) => OthersKeepInv(c, w, a);
    case Accept(_, _, _, _, _, _) => AcceptKeepsInv(c, w, a);
    case Fire(job) => FireKeepsInv(c, w, job);
    case Finish(job, del) => FinishKeepsInv(c, w, job, del);
    case Crash => OthersKeepInv(c, w, a);
    case ScanFails => OthersKeepInv(c, w, a);
    case Restore(keys, now, io) => RestoreKeepsInv(c, w, keys, now, io);
  }

  lemma OthersKeepInv(c: Setup, w: World, a: Act)
    requires Inv(w) && Enabled(c, w, a) && (a.Tick? || a.Crash? || a.ScanFails?)
    ensures Inv(Next(c, w, a))
  {
    var t := Next(c, w, a);
    forall i | 0 <= i < |t.executed|
      ensures Spent(t, t.executed[i])
    {
      assert Spent(w, w.executed[i]);
    }
    hide AtMostOnce;
  }

  lemma {:induction false} RunKeepsInv(c: Setup, w: World, acts: seq<Act>)
    requires Inv(w) && Runs(c, w, acts)
    ensures Inv(End(c, w, acts))
    decreases |acts|
  {
    if acts != [] {
      NextKeepsInv(c, w, acts[0]);
      hide Inv, Enabled, Next;
      RunKeepsInv(c, Next(c, w, acts[0]), acts[1..]);
    }
  }

  /** No job runs twice, whatever crashes and failed deletes there are and however many handlers run
      at the same time, and in every state the tracked IDs, gocron's jobs and the stored records are in step. */
  lemma NoJobRunsTwice(c: Setup, start: World, acts: seq<Act>)
    requires IsStart(start) && Runs(c, start, acts)
    ensures AtMostOnce(End(c, start, acts)) && InStep(End(c, start, acts).stores)
  {
    RunKeepsInv(c, start, acts);
  }
}
