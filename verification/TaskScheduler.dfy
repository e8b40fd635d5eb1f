/** The scheduler object of cmd/scheduler/handler.go over gocron and Redis.  Its methods keep the
    three stores in step and do what OneTimeJobs says, whatever calls fail. */
module TaskScheduling {
  import opened OneTimeJobs

  /** The calls on gocron and on Redis, each with its result. */
  datatype GocronCall =
    | NewJobCall(jobID: string, taskType: string, duration: int, data: string, ok: bool)
    | RemoveJobCall(id: nat)

  datatype RedisCall =
    | SetCall(key: string, value: Stored, effect: bool)
    | DelCall(key: string, effect: bool)
    | GetCall(key: string, found: bool)

  class Gocron {
    var jobs: map<nat, Job>
    var next: nat
    ghost var calls: seq<GocronCall>

    constructor ()
      ensures jobs == map[] && next == 0 && calls == []
    {
      jobs, next, calls := map[], 0, [];
    }

    /** NewJob with a DurationJob; gocron reads its own clock. */
    method NewJob(jobID: string, taskType: string, duration: int, data: string, created: int)
      returns (id: nat, ok: bool)
      modifies this
      ensures calls == old(calls) + [NewJobCall(jobID, taskType, duration, data, ok)]
      ensures if ok
              then
                && id == old(next) && next == old(next) + 1
                && jobs == old(jobs)[id := Job(jobID, taskType, created + duration, data)]
              else jobs == old(jobs) && next == old(next)
    {
      id, ok := next, *;
      if ok {
        jobs := jobs[id := Job(jobID, taskType, created + duration, data)];
        next := next + 1;
      }
      calls := calls + [NewJobCall(jobID, taskType, duration, data, ok)];
    }

    method RemoveJob(id: nat)
      modifies this
      ensures calls == old(calls) + [RemoveJobCall(id)]
      ensures jobs == old(jobs) - {id} && next == old(next)
    {
      jobs := jobs - {id};
      calls := calls + [RemoveJobCall(id)];
    }
  }

  /** The keys "scheduler:onetime:*", named by what follows the prefix. */
  class RedisClient {
    var data: map<string, Stored>
    ghost var calls: seq<RedisCall>

    constructor (data: map<string, Stored>)
      ensures this.data == data && calls == []
    {
      this.data, this.calls := data, [];
    }

    method Set(key: string, value: Stored) returns (effect: bool)
      modifies this
      ensures calls == old(calls) + [SetCall(key, value, effect)]
      ensures data == if effect then old(data)[key := value] else old(data)
    {
      effect := *;
      if effect {
        data := data[key := value];
      }
      calls := calls + [SetCall(key, value, effect)];
    }

    method Del(key: string) returns (effect: bool)
      modifies this
      ensures calls == old(calls) + [DelCall(key, effect)]
      ensures data == if effect then old(data) - {key} else old(data)
    {
      effect := *;
      if effect {
        data := data - {key};
      }
      calls := calls + [DelCall(key, effect)];
    }

    method Get(key: string) returns (value: Stored, ok: bool)
      modifies this`calls
      ensures calls == old(calls) + [GetCall(key, ok)]
      ensures ok ==> key in data && value == data[key]
    {
      value, ok := Malformed, *;
      if ok && key in data {
        value := data[key];
      } else {
        ok := false;
      }
      calls := calls + [GetCall(key, ok)];
    }
  }

  datatype Disposition = Acked | Naked

  /** The schedule request of a message; None when it does not parse or no ID could be made. */
  datatype Request = Unreadable | Request(jobID: string, taskType: string, runAt: int, data: string)

  class TaskScheduler {
    const c: Setup
    const scheduler: Gocron
    const redisClient: RedisClient
    var oneTimeJobs: map<string, nat>

    function View(): Stores
      reads this, scheduler, redisClient
    {
      Stores(oneTimeJobs, scheduler.jobs, scheduler.next, redisClient.data)
    }

    constructor (c: Setup, redisClient: RedisClient)
      ensures this.c == c && this.redisClient == redisClient && fresh(scheduler)
      ensures View() == Stores(map[], map[], 0, redisClient.data)
    {
      this.c, this.redisClient := c, redisClient;
      scheduler := new Gocron();
      oneTimeJobs := map[];
    }

    /** ScheduleOneTimeJob: a job that passes the two tests is created in gocron, and once it is, saved
        under its ID; a failed save is only logged. */
    method ScheduleOneTimeJob(jobID: string, taskType: string, runAt: int, data: string, clk: Clock)
      returns (ok: bool, ghost io: ScheduleIO)
      modifies this, scheduler, redisClient
      ensures (View(), ok) == Schedule(c, old(View()), jobID, taskType, runAt, data, clk, io)
      ensures scheduler.calls == old(scheduler.calls) +
                if Acceptable(c, taskType)
                then [NewJobCall(jobID, taskType, Delay(runAt, clk), data, io.newJob)] else []
      ensures redisClient.calls == old(redisClient.calls) +
                if Acceptable(c, taskType) && io.newJob
                then [SetCall(jobID, Well(Record(jobID, taskType, WhenSaved(runAt, clk), data)), io.save)] else []
      ensures !Acceptable(c, taskType) ==> io == ScheduleIO(false, false)
      ensures (ok <==> io.newJob) && (!ok ==> View() == old(View()))
      ensures jobID !in old(oneTimeJobs) ==> |oneTimeJobs| == |old(oneTimeJobs)| + if ok then 1 else 0
    {
      ok, io := false, ScheduleIO(false, false);
      if taskType !in c.requestable {
        return;
      }
      if taskType !in c.handlers {
        return;
      }
      var at := runAt;
      if at <= clk.now {
        at := clk.now + SOON;
      }
      var duration := at - clk.until;
      if duration < 0 {
        duration := SOON;
      }
      var id, created := scheduler.NewJob(jobID, taskType, duration, data, clk.created);
      if !created {
        return;
      }
      oneTimeJobs := oneTimeJobs[jobID := id];
      var saved := redisClient.Set(jobID, Well(Record(jobID, taskType, at / MILLI, data)));
      ok, io := true, ScheduleIO(true, saved);
    }

    method RemoveOneTimeJob(jobID: string) returns (ghost del: bool)
      modifies this, scheduler, redisClient
      ensures View() == Remove(old(View()), jobID, del)
      ensures old(InStep(View())) ==> InStep(View())
      ensures scheduler.calls == old(scheduler.calls) +
                if jobID in old(oneTimeJobs) then [RemoveJobCall(old(oneTimeJobs)[jobID])] else []
      ensures redisClient.calls == old(redisClient.calls) + [DelCall(jobID, del)]
    {
      if old(InStep(View())) {
        RemoveKeepsInStep(View(), jobID, true);
        RemoveKeepsInStep(View(), jobID, false);
      }
      if jobID in oneTimeJobs {
        scheduler.RemoveJob(oneTimeJobs[jobID]);
      }
      oneTimeJobs := oneTimeJobs - {jobID};
      var effect := redisClient.Del(jobID);
      del := effect;
    }

    /** The loop of RestoreOneTimeJobs over the scanned keys.  `clks(i)` are the clock readings of the
        scheduling of key i; the history `io` tells what went well. */
    method RestoreOneTimeJobs(keys: seq<string>, now: int, clks: nat -> Clock)
      returns (restored: nat, discarded: nat, ghost io: nat -> RestoreIO)
      requires InStep(View()) && oneTimeJobs == map[] && scheduler.jobs == map[]
      requires Scanned(View(), keys) && forall i: nat :: InOrder(clks(i))
      modifies this, scheduler, redisClient
      ensures View() == RestoreKeys(c, old(View()), keys, |keys|, now, io) && InStep(View())
      ensures forall i: nat :: io(i).clk == clks(i)
      ensures redisClient.calls == old(redisClient.calls) + RedisCalls(c, old(View()), keys, |keys|, now, io)
      ensures scheduler.calls == old(scheduler.calls) + GocronCalls(c, old(View()), keys, |keys|, now, io)
      ensures restored == |oneTimeJobs| && restored + discarded == Found(io, |keys|)
      ensures forall key :: key in oneTimeJobs ==> key in keys && Restorable(c, old(redisClient.data)[key], now)
    {
      restored, discarded := 0, 0;
      ghost var outcomes: seq<RestoreIO> := [];
      ghost var run := Restore(c, View(), keys, now, clks);
      hide InStep, RestoreKey, Restorable, RedisTurn, GocronTurn, Scanned, Filed, Done;
      NothingDone(run);
      assert redisClient.calls == redisClient.calls + [] && scheduler.calls == scheduler.calls + [];
      ghost var asked: seq<RedisCall>, told: seq<GocronCall> := [], [];
      var i := 0;
      while i < |keys|
        invariant 0 <= i <= |keys| && |outcomes| == i
        invariant redisClient.calls == old(redisClient.calls) + asked
        invariant scheduler.calls == old(scheduler.calls) + told
        invariant restored == |oneTimeJobs|
        invariant Done(run, outcomes, View(), asked, told, restored + discarded)
      {
        TurnIsNew(run, outcomes, View(), asked, told, restored + discarded);
        ghost var turn;
        ghost var before := View();
        var kept, dropped;
        kept, dropped, turn := RestoreOne(keys[i], now, clks(i));
        TurnsOn(run, outcomes, before, asked, told, restored + discarded, turn);
        Associative(old(redisClient.calls), asked, RedisTurn(c, before, keys[i], now, turn));
        Associative(old(scheduler.calls), told, GocronTurn(c, before, keys[i], now, turn));
        asked, told := asked + RedisTurn(c, before, keys[i], now, turn), told + GocronTurn(c, before, keys[i], now, turn);
        restored := restored + if kept then 1 else 0;
        discarded := discarded + if dropped then 1 else 0;
        outcomes := outcomes + [turn];
        i := i + 1;
      }
      io := Outcomes(outcomes, clks);
      AllDone(run, outcomes, View(), asked, told, restored + discarded);
    }

    /** One turn of that loop: the key is read once; a job that is still due is scheduled, and the key
        is deleted if it is not, or if that fails. */
    method RestoreOne(key: string, now: int, clk: Clock)
      returns (kept: bool, dropped: bool, ghost io: RestoreIO)
      requires Filed(View()) && key !in oneTimeJobs
      modifies this, scheduler, redisClient
      ensures View() == RestoreKey(c, old(View()), key, now, io) && io.clk == clk
      ensures redisClient.calls == old(redisClient.calls) + RedisTurn(c, old(View()), key, now, io)
      ensures scheduler.calls == old(scheduler.calls) + GocronTurn(c, old(View()), key, now, io)
      ensures io.get ==> key in old(redisClient.data)
      ensures (kept ==> io.get) && (dropped <==> io.get && !kept)
      ensures |oneTimeJobs| == old(|oneTimeJobs|) + if kept then 1 else 0
    {
      hide DropKey, Schedule, Filed;
      kept, dropped, io := false, false, RestoreIO(false, false, ScheduleIO(false, false), clk);
      var value, ok := redisClient.Get(key);
      assert View() == old(View());
      if !ok {
        return;
      }
      ghost var del, sio;
      if value.Malformed? {
        del := Discard(key);
        dropped, io := true, RestoreIO(true, del, ScheduleIO(false, false), clk);
        return;
      }
      var job := value.record;
      var runAt := job.runAt * MILLI;
      if runAt <= now {
        del := Discard(key);
        dropped, io := true, RestoreIO(true, del, ScheduleIO(false, false), clk);
        return;
      }
      if job.taskType !in c.handlers {
        del := Discard(key);
        dropped, io := true, RestoreIO(true, del, ScheduleIO(false, false), clk);
        return;
      }
      if job.taskType !in c.requestable {
        del := Discard(key);
        dropped, io := true, RestoreIO(true, del, ScheduleIO(false, false), clk);
        return;
      }
      FiledHere(View(), key);
      kept, sio := ScheduleOneTimeJob(job.jobID, job.taskType, runAt, job.data, clk);
      if !kept {
        del := Discard(key);
        dropped, io := true, RestoreIO(true, del, sio, clk);
        return;
      }
      io := RestoreIO(true, false, sio, clk);
    }

    /** An entry that is not restored is deleted, if Redis does so. */
    method Discard(key: string) returns (ghost del: bool)
      modifies redisClient
      ensures View() == DropKey(old(View()), key, del)
      ensures redisClient.calls == old(redisClient.calls) + [DelCall(key, del)]
    {
      var effect := redisClient.Del(key);
      del := effect;
    }

    /** processScheduleRequest; a fresh job ID keeps the stores in step. */
    method ProcessScheduleRequest(req: Request, now: int, clk: Clock)
      returns (d: Disposition, ghost io: ScheduleIO)
      modifies this, scheduler, redisClient
      ensures old(InStep(View())) && InOrder(clk) &&
              (req.Request? ==> req.jobID !in old(oneTimeJobs) && req.jobID !in old(redisClient.data)) ==>
                InStep(View())
      ensures req.Request? && now < req.runAt * 1_000_000 && req.taskType in c.handlers ==>
                var runAt := req.runAt * 1_000_000;
                && (View(), d.Acked?) ==
                   Schedule(c, old(View()), req.jobID, req.taskType, runAt, req.data, clk, io)
                && scheduler.calls == old(scheduler.calls) +
                   (if Acceptable(c, req.taskType)
                    then [NewJobCall(req.jobID, req.taskType, Delay(runAt, clk), req.data, io.newJob)] else [])
                && redisClient.calls == old(redisClient.calls) +
                   (if Acceptable(c, req.taskType) && io.newJob
                    then [SetCall(req.jobID,
                                  Well(Record(req.jobID, req.taskType, WhenSaved(runAt, clk), req.data)),
                                  io.save)]
                    else [])
                && (d.Acked? <==> io.newJob)
      ensures req.Unreadable? || !(now < req.runAt * 1_000_000 && req.taskType in c.handlers) ==>
                && (d.Naked? <==> req.Unreadable?) && View() == old(View())
                && scheduler.calls == old(scheduler.calls) && redisClient.calls == old(redisClient.calls)
    {
      io := ScheduleIO(false, false);
      if req.Unreadable? {
        return Naked, io;
      }
      var runAt := req.runAt * MILLI;
      if runAt <= now {
        return Acked, io;
      }
      if req.taskType !in c.handlers {
        return Acked, io;
      }
      ghost var before := View();
      var ok;
      ok, io := ScheduleOneTimeJob(req.jobID, req.taskType, runAt, req.data, clk);
      if InStep(before) && InOrder(clk) && req.jobID !in before.tracked && req.jobID !in before.redis {
        ScheduleKeepsInStep(c, before, req.jobID, req.taskType, runAt, req.data, clk, io);
      }
      if !ok {
        return Naked, io;
      }
      return Acked, io;
    }
  }

  lemma FiledHere(s: Stores, key: string)
    requires Filed(s) && key in s.redis && s.redis[key].Well?
    ensures s.redis[key].record.jobID == key
  {
  }

  // ---- The calls of a restore --------------------------------------------------------------

  predicate Acceptable(c: Setup, taskType: string) {
    taskType in c.requestable && taskType in c.handlers
  }

  /** How long gocron is told to wait: until the time asked for, or five seconds. */
  function Delay(runAt: int, clk: Clock): int {
    var at := if runAt <= clk.now then clk.now + 5_000_000_000 else runAt;
    if at < clk.until then 5_000_000_000 else at - clk.until
  }

  /** The time that is saved, in milliseconds. */
  function WhenSaved(runAt: int, clk: Clock): int {
    (if runAt <= clk.now then clk.now + 5_000_000_000 else runAt) / 1_000_000
  }

  /** What one turn asks of Redis: it reads the key; it saves a job that gocron has taken; it deletes
      the key of any other entry it could read. */
  ghost function RedisTurn(c: Setup, s: Stores, key: string, now: int, io: RestoreIO): seq<RedisCall> {
    [GetCall(key, io.get)] +
    if !io.get || key !in s.redis then []
    else if Restorable(c, s.redis[key], now) && io.schedule.newJob then
      var r := s.redis[key].record;
      [SetCall(r.jobID, Well(Record(r.jobID, r.taskType, WhenSaved(r.runAt * 1_000_000, io.clk), r.data)),
               io.schedule.save)]
    else [DelCall(key, io.del)]
  }

  ghost function GocronTurn(c: Setup, s: Stores, key: string, now: int, io: RestoreIO): seq<GocronCall> {
    if io.get && key in s.redis && Restorable(c, s.redis[key], now) then
      var r := s.redis[key].record;
      [NewJobCall(r.jobID, r.taskType, Delay(r.runAt * 1_000_000, io.clk), r.data, io.schedule.newJob)]
    else []
  }

  ghost function RedisCalls(
    c: Setup, s: Stores, keys: seq<string>, n: nat, now: int, io: nat -> RestoreIO): seq<RedisCall>
    requires n <= |keys|
  {
    if n == 0 then []
    else
      RedisCalls(c, s, keys, n - 1, now, io) +
      RedisTurn(c, RestoreKeys(c, s, keys, n - 1, now, io), keys[n - 1], now, io(n - 1))
  }

  ghost function GocronCalls(
    c: Setup, s: Stores, keys: seq<string>, n: nat, now: int, io: nat -> RestoreIO): seq<GocronCall>
    requires n <= |keys|
  {
    if n == 0 then []
    else
      GocronCalls(c, s, keys, n - 1, now, io) +
      GocronTurn(c, RestoreKeys(c, s, keys, n - 1, now, io), keys[n - 1], now, io(n - 1))
  }

  /** How many of the first n keys could be read. */
  ghost function Found(io: nat -> RestoreIO, n: nat): nat {
    if n == 0 then 0 else Found(io, n - 1) + if io(n - 1).get then 1 else 0
  }

  lemma Associative<T>(a: seq<T>, b: seq<T>, c: seq<T>)
    ensures a + (b + c) == (a + b) + c
  {
  }

  // ---- The loop of a restore ---------------------------------------------------------------

  /** What a restore starts from. */
  datatype Restore = Restore(c: Setup, s: Stores, keys: seq<string>, now: int, clks: nat -> Clock)

  ghost predicate Fresh(run: Restore) {
    && InStep(run.s) && run.s.tracked == map[] && run.s.jobs == map[]
    && Scanned(run.s, run.keys) && forall i: nat :: InOrder(run.clks(i))
  }

  /** What its first turns have made of the stores and have asked for. */
  ghost predicate Done(
    run: Restore, outcomes: seq<RestoreIO>, s: Stores, asked: seq<RedisCall>, told: seq<GocronCall>, found: int)
  {
    && |outcomes| <= |run.keys| && (forall j :: 0 <= j < |outcomes| ==> outcomes[j].clk == run.clks(j))
    && var io := Outcomes(outcomes, run.clks);
    && s == RestoreKeys(run.c, run.s, run.keys, |outcomes|, run.now, io)
    && asked == RedisCalls(run.c, run.s, run.keys, |outcomes|, run.now, io)
    && told == GocronCalls(run.c, run.s, run.keys, |outcomes|, run.now, io)
    && found == Found(io, |outcomes|)
  }

  lemma NothingDone(run: Restore)
    ensures Done(run, [], run.s, [], [], 0)
  {
  }

  lemma ClocksStayInOrder(outcomes: seq<RestoreIO>, clks: nat -> Clock)
    requires forall j :: 0 <= j < |outcomes| ==> outcomes[j].clk == clks(j)
    requires forall i: nat :: InOrder(clks(i))
    ensures ClocksInOrder(Outcomes(outcomes, clks))
    ensures forall i: nat :: Outcomes(outcomes, clks)(i).clk == clks(i)
  {
  }

  /** A key is not tracked before its turn, and records stay filed under their IDs. */
  lemma TurnIsNew(
    run: Restore, outcomes: seq<RestoreIO>, s: Stores, asked: seq<RedisCall>, told: seq<GocronCall>, found: int)
    requires Fresh(run) && Done(run, outcomes, s, asked, told, found) && |outcomes| < |run.keys|
    ensures run.keys[|outcomes|] !in s.tracked && Filed(s)
  {
    var i := |outcomes|;
    ClocksStayInOrder(outcomes, run.clks);
    RestoreKeepsInStep(run.c, run.s, run.keys, i, run.now, Outcomes(outcomes, run.clks), run.keys[i]);
    assert run.keys[i] !in run.keys[..i];
  }

  lemma TurnsOn(
    run: Restore, outcomes: seq<RestoreIO>, s: Stores, asked: seq<RedisCall>, told: seq<GocronCall>, found: int,
    turn: RestoreIO)
    requires Done(run, outcomes, s, asked, told, found) && |outcomes| < |run.keys|
    requires turn.clk == run.clks(|outcomes|)
    ensures var key := run.keys[|outcomes|];
            Done(run, outcomes + [turn], RestoreKey(run.c, s, key, run.now, turn),
                 asked + RedisTurn(run.c, s, key, run.now, turn), told + GocronTurn(run.c, s, key, run.now, turn),
                 found + if turn.get then 1 else 0)
  {
    hide RestoreKey, RedisTurn, GocronTurn;
    SamePrefix(run.c, run.s, run.keys, |outcomes|, run.now,
               Outcomes(outcomes, run.clks), Outcomes(outcomes + [turn], run.clks));
  }

  lemma AllDone(
    run: Restore, outcomes: seq<RestoreIO>, t: Stores, asked: seq<RedisCall>, told: seq<GocronCall>, found: int)
    requires Fresh(run) && Done(run, outcomes, t, asked, told, found) && |outcomes| == |run.keys|
    ensures var io := Outcomes(outcomes, run.clks);
            && (forall i: nat :: io(i).clk == run.clks(i))
            && t == RestoreKeys(run.c, run.s, run.keys, |run.keys|, run.now, io) && InStep(t)
            && asked == RedisCalls(run.c, run.s, run.keys, |run.keys|, run.now, io)
            && told == GocronCalls(run.c, run.s, run.keys, |run.keys|, run.now, io)
            && found == Found(io, |run.keys|)
            && (forall key :: key in t.tracked ==>
                  key in run.keys && key in run.s.redis && Restorable(run.c, run.s.redis[key], run.now))
  {
    var io := Outcomes(outcomes, run.clks);
    ClocksStayInOrder(outcomes, run.clks);
    assert run.keys[..|run.keys|] == run.keys;
    RestoreKeepsInStep(run.c, run.s, run.keys, |run.keys|, run.now, io, "");
    forall key | key in t.tracked
      ensures key in run.keys && key in run.s.redis && Restorable(run.c, run.s.redis[key], run.now)
    {
      RestoreKeepsInStep(run.c, run.s, run.keys, |run.keys|, run.now, io, key);
    }
  }

  ghost function Outcomes(outcomes: seq<RestoreIO>, clks: nat -> Clock): nat -> RestoreIO {
    (i: nat) => if i < |outcomes| then outcomes[i] else RestoreIO(false, false, ScheduleIO(false, false), clks(i))
  }

  lemma {:induction false} SamePrefix(
    c: Setup, s: Stores, keys: seq<string>, n: nat, now: int, io: nat -> RestoreIO, io': nat -> RestoreIO)
    requires n <= |keys| && forall i: nat :: i < n ==> io(i) == io'(i)
    ensures RestoreKeys(c, s, keys, n, now, io) == RestoreKeys(c, s, keys, n, now, io')
    ensures RedisCalls(c, s, keys, n, now, io) == RedisCalls(c, s, keys, n, now, io')
    ensures GocronCalls(c, s, keys, n, now, io) == GocronCalls(c, s, keys, n, now, io')
    ensures Found(io, n) == Found(io', n)
  {
    hide RestoreKey, RedisTurn, GocronTurn;
    if n > 0 {
      SamePrefix(c, s, keys, n - 1, now, io, io');
    }
  }
}
