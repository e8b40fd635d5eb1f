/** What a run of the scheduler does for the jobs it has accepted: what runs is what was asked for, not
    before its time, and a job that has been saved is not lost. */
module OneTimeHistory {
  import opened OneTimeJobs
  import opened OneTimeRuns

  // ---- Every execution is a firing ---------------------------------------------------------

  /** What the handlers were started with, from the history of the run. */
  ghost function Firings(c: Setup, w: World, acts: seq<Act>): seq<Execution>
    requires Runs(c, w, acts)
    decreases |acts|
  {
    if acts == [] then []
    else
      (if acts[0].Fire?
       then
         var j := w.stores.jobs[acts[0].job];
         [Execution(j.jobID, j.taskType, j.data, w.clock)]
       else []) +
      Firings(c, Next(c, w, acts[0]), acts[1..])
  }

  lemma {:induction false} ExecutionsAreFirings(c: Setup, w: World, acts: seq<Act>)
    requires Runs(c, w, acts)
    ensures End(c, w, acts).executed == w.executed + Firings(c, w, acts)
    decreases |acts|
  {
    if acts != [] {
      var t := Next(c, w, acts[0]);
      ExecutionsAreFirings(c, t, acts[1..]);
      assert t.executed == w.executed + Firings(c, w, acts)[..|t.executed| - |w.executed|];
    }
  }

  /** Whether the scheduler is up, what time it is, and which IDs have been used, from the history. */
  function UpAfter(up: bool, acts: seq<Act>): bool
    decreases |acts|
  {
    if acts == [] then up
    else UpAfter(if acts[0].Crash? then false else if acts[0].ScanFails? || acts[0].Restore? then true else up,
                 acts[1..])
  }

  function TimeAfter(clock: int, acts: seq<Act>): int
    decreases |acts|
  {
    if acts == [] then clock
    else
      TimeAfter(match acts[0]
                case Tick(to) => to
                case Accept(_, _, _, _, clk, _) => clk.created
                case Restore(_, now, _) => now
                case _ => clock, acts[1..])
  }

  function UsedAfter(used: set<string>, acts: seq<Act>): set<string>
    decreases |acts|
  {
    if acts == [] then used
    else UsedAfter(used + if acts[0].Accept? then {acts[0].jobID} else {}, acts[1..])
  }

  lemma {:induction false} WorldIsAsTold(c: Setup, w: World, acts: seq<Act>)
    requires Runs(c, w, acts)
    ensures var t := End(c, w, acts);
            t.up == UpAfter(w.up, acts) && t.clock == TimeAfter(w.clock, acts) && t.used == UsedAfter(w.used, acts)
    decreases |acts|
  {
    if acts != [] {
      WorldIsAsTold(c, Next(c, w, acts[0]), acts[1..]);
      assert w.used + {} == w.used;
    }
  }

  /** A crash empties the memory and gocron, and Redis only changes when it is written to. */
  lemma CrashKeepsRedis(c: Setup, start: World, acts: seq<Act>)
    requires IsStart(start) && Runs(c, start, acts) && Enabled(c, End(c, start, acts), Crash)
    ensures var w := Next(c, End(c, start, acts), Crash);
            && w.stores.tracked == map[] && w.stores.jobs == map[] && w.firing == {}
            && w.stores.redis == End(c, start, acts).stores.redis
            && w.executed == End(c, start, acts).executed
  {
    RunKeepsInv(c, start, acts);
    NextKeepsInv(c, End(c, start, acts), Crash);
  }

  // ---- What runs is what was asked for -----------------------------------------------------

  /** A request that has been accepted. */
  datatype Asked = Asked(jobID: string, taskType: string, runAt: int, data: string)

  /** Wherever the job is, it is what was asked for, and not due a millisecond too early. */
  ghost predicate AsAsked(w: World, a: Asked) {
    && a.jobID in w.used
    && (forall i :: 0 <= i < |w.executed| && w.executed[i].jobID == a.jobID ==>
          w.executed[i].taskType == a.taskType && w.executed[i].data == a.data &&
          w.executed[i].at > a.runAt - 1_000_000)
    && (forall g :: g in w.stores.jobs && w.stores.jobs[g].jobID == a.jobID ==>
          w.stores.jobs[g].taskType == a.taskType && w.stores.jobs[g].data == a.data &&
          w.stores.jobs[g].due > a.runAt - 1_000_000)
    && (a.jobID in w.stores.redis && w.stores.redis[a.jobID].Well? ==>
          var r := w.stores.redis[a.jobID].record;
          r.taskType == a.taskType && r.data == a.data && r.runAt * 1_000_000 > a.runAt - 1_000_000)
  }

  lemma AcceptedAsAsked(c: Setup, w: World, a: Act)
    requires Inv(w) && a.Accept? && Enabled(c, w, a)
    requires a.taskType in c.requestable && a.taskType in c.handlers && a.io.newJob
    ensures AsAsked(Next(c, w, a), Asked(a.jobID, a.taskType, a.runAt, a.data))
  {
    ScheduleSucceedsIff(c, w.stores, a.jobID, a.taskType, a.runAt, a.data, a.clk, a.io);
    ScheduledJob(c, w.stores, a.jobID, a.taskType, a.runAt, a.data, a.clk, a.io);
    var t := Next(c, w, a);
    assert Same(a.jobID, w.stores.redis, t.stores.redis) || a.io.save;
    forall g | g in t.stores.jobs && t.stores.jobs[g].jobID == a.jobID
      ensures g == w.stores.next
    {
      assert g != w.stores.next ==> Same(g, w.stores.jobs, t.stores.jobs);
    }
    forall i | 0 <= i < |t.executed|
      ensures t.executed[i].jobID != a.jobID
    {
      assert Spent(w, w.executed[i]);
    }
    hide Schedule;
  }

  lemma OtherAccepted(c: Setup, w: World, a: Act, q: Asked)
    requires Inv(w) && a.Accept? && Enabled(c, w, a) && AsAsked(w, q)
    ensures AsAsked(Next(c, w, a), q)
  {
    ScheduleSucceedsIff(c, w.stores, a.jobID, a.taskType, a.runAt, a.data, a.clk, a.io);
    var t := Next(c, w, a);
    if Schedule(c, w.stores, a.jobID, a.taskType, a.runAt, a.data, a.clk, a.io).1 {
      ScheduledJob(c, w.stores, a.jobID, a.taskType, a.runAt, a.data, a.clk, a.io);
      assert Same(q.jobID, w.stores.redis, t.stores.redis);
      forall g | g in t.stores.jobs && t.stores.jobs[g].jobID == q.jobID
        ensures g in w.stores.jobs && w.stores.jobs[g] == t.stores.jobs[g]
      {
        assert g != w.stores.next ==> Same(g, w.stores.jobs, t.stores.jobs);
      }
    }
    hide Schedule;
  }

  lemma RestoredAsAsked(c: Setup, w: World, keys: seq<string>, now: int, io: nat -> RestoreIO, q: Asked)
    requires Inv(w) && Enabled(c, w, Restore(keys, now, io)) && AsAsked(w, q)
    ensures AsAsked(Next(c, w, Restore(keys, now, io)), q)
  {
    var t := Next(c, w, Restore(keys, now, io));
    assert keys[..|keys|] == keys;
    RestoreKeepsInStep(c, w.stores, keys, |keys|, now, io, q.jobID);
    assert KeyAfter(c, w.stores, t.stores, q.jobID, q.jobID in keys, now);
    hide RestoreKeys, Scanned;
    forall g | g in t.stores.jobs && t.stores.jobs[g].jobID == q.jobID
      ensures t.stores.tracked[q.jobID] == g && q.jobID in t.stores.tracked
    {
    }
  }

  lemma NextKeepsAsked(c: Setup, w: World, a: Act, q: Asked)
    requires Inv(w) && Enabled(c, w, a) && AsAsked(w, q)
    ensures AsAsked(Next(c, w, a), q)
  {
    match a
    case Accept(_, _, _, _, _, _) => OtherAccepted(c, w, a, q);
    case Restore(keys, now, io) => RestoredAsAsked(c, w, keys, now, io, q);
    case Finish(job, del) => RemoveKeepsInStep(w.stores, w.stores.jobs[job].jobID, del);
    case _ =>
  }

  lemma {:induction false} RunKeepsAsked(c: Setup, w: World, acts: seq<Act>, q: Asked)
    requires Inv(w) && Runs(c, w, acts) && AsAsked(w, q)
    ensures AsAsked(End(c, w, acts), q)
    decreases |acts|
  {
    if acts != [] {
      NextKeepsInv(c, w, acts[0]);
      NextKeepsAsked(c, w, acts[0], q);
      hide Inv, Enabled, Next, AsAsked;
      RunKeepsAsked(c, Next(c, w, acts[0]), acts[1..], q);
    }
  }

  /** In every run, whatever is executed under the ID of an accepted job has its task type and its
      data, and is not executed a millisecond before the time asked for. */
  lemma RunsAsAsked(c: Setup, start: World, before: seq<Act>, a: Act, after: seq<Act>)
    requires IsStart(start) && Runs(c, start, before) && a.Accept? && Enabled(c, End(c, start, before), a)
    requires a.taskType in c.requestable && a.taskType in c.handlers && a.io.newJob
    requires Runs(c, Next(c, End(c, start, before), a), after)
    ensures forall e :: e in End(c, Next(c, End(c, start, before), a), after).executed && e.jobID == a.jobID ==>
              e.taskType == a.taskType && e.data == a.data && e.at > a.runAt - 1_000_000
  {
    var w := End(c, start, before);
    RunKeepsInv(c, start, before);
    NextKeepsInv(c, w, a);
    AcceptedAsAsked(c, w, a);
    RunKeepsAsked(c, Next(c, w, a), after, Asked(a.jobID, a.taskType, a.runAt, a.data));
    hide Inv, Enabled, Next, Runs, End;
  }

  // ---- No job is lost ----------------------------------------------------------------------

  ghost predicate Ran(w: World, id: string) {
    exists i :: 0 <= i < |w.executed| && w.executed[i].jobID == id
  }

  /** Whatever is firing has run. */
  ghost predicate FiringHasRun(w: World) {
    forall g :: g in w.firing ==> g < w.stores.next && (g in w.stores.jobs ==> Ran(w, w.stores.jobs[g].jobID))
  }

  /** The job has run, or Redis holds it and, if the scheduler is up, gocron does too. */
  ghost predicate Safe(c: Setup, w: World, id: string) {
    || Ran(w, id)
    || (id in w.used && id in w.stores.redis && w.stores.redis[id].Well? &&
        w.stores.redis[id].record.taskType in c.handlers && w.stores.redis[id].record.taskType in c.requestable &&
        (w.up ==> id in w.stores.tracked))
  }

  /** Restarts succeed, and find the job not yet due. */
  ghost predicate Gentle(w: World, a: Act, id: string) {
    && !a.ScanFails?
    && (a.Restore? ==>
          ErrorFree(a.ios) &&
          (id in w.stores.redis && w.stores.redis[id].Well? ==> a.now < w.stores.redis[id].record.runAt * 1_000_000))
  }

  ghost predicate AllGentle(c: Setup, w: World, acts: seq<Act>, id: string)
    requires Runs(c, w, acts)
    decreases |acts|
  {
    acts == [] || (Gentle(w, acts[0], id) && AllGentle(c, Next(c, w, acts[0]), acts[1..], id))
  }

  lemma RanStays(c: Setup, w: World, a: Act, id: string)
    requires Enabled(c, w, a) && Ran(w, id)
    ensures Ran(Next(c, w, a), id)
  {
    var i :| 0 <= i < |w.executed| && w.executed[i].jobID == id;
    assert Next(c, w, a).executed[i] == w.executed[i];
  }

  lemma NextKeepsFiring(c: Setup, w: World, a: Act)
    requires Inv(w) && Enabled(c, w, a) && FiringHasRun(w)
    ensures FiringHasRun(Next(c, w, a))
  {
    var t := Next(c, w, a);
    if a.Accept? {
      ScheduleSucceedsIff(c, w.stores, a.jobID, a.taskType, a.runAt, a.data, a.clk, a.io);
      if Schedule(c, w.stores, a.jobID, a.taskType, a.runAt, a.data, a.clk, a.io).1 {
        ScheduledJob(c, w.stores, a.jobID, a.taskType, a.runAt, a.data, a.clk, a.io);
        assert forall g :: g in w.firing ==> Same(g, w.stores.jobs, t.stores.jobs);
      }
    }
    forall g | g in t.firing
      ensures g < t.stores.next && (g in t.stores.jobs ==> Ran(t, t.stores.jobs[g].jobID))
    {
      if a == Fire(g) {
        assert t.executed[|w.executed|].jobID == t.stores.jobs[g].jobID;
      } else if g in t.stores.jobs {
        assert g in w.firing && g in w.stores.jobs && w.stores.jobs[g] == t.stores.jobs[g];
        RanStays(c, w, a, w.stores.jobs[g].jobID);
      }
    }
    hide Schedule;
  }

  lemma AcceptKeepsSafe(c: Setup, w: World, a: Act, id: string)
    requires Inv(w) && a.Accept? && Enabled(c, w, a) && Safe(c, w, id)
    ensures Safe(c, Next(c, w, a), id)
  {
    ScheduleSucceedsIff(c, w.stores, a.jobID, a.taskType, a.runAt, a.data, a.clk, a.io);
    if Ran(w, id) {
      RanStays(c, w, a, id);
    } else if Schedule(c, w.stores, a.jobID, a.taskType, a.runAt, a.data, a.clk, a.io).1 {
      ScheduledJob(c, w.stores, a.jobID, a.taskType, a.runAt, a.data, a.clk, a.io);
      assert Same(id, w.stores.redis, Next(c, w, a).stores.redis);
      assert Same(id, w.stores.tracked, Next(c, w, a).stores.tracked);
    }
    hide Schedule;
  }

  lemma FinishKeepsSafe(c: Setup, w: World, job: nat, del: bool, id: string)
    requires Inv(w) && Enabled(c, w, Finish(job, del)) && FiringHasRun(w) && Safe(c, w, id)
    ensures Safe(c, Next(c, w, Finish(job, del)), id)
  {
    if Ran(w, id) {
      RanStays(c, w, Finish(job, del), id);
    } else {
      assert w.stores.jobs[job].jobID != id;
      RemoveKeepsInStep(w.stores, w.stores.jobs[job].jobID, del);
      assert Same(id, w.stores.redis, Next(c, w, Finish(job, del)).stores.redis);
      assert Same(id, w.stores.tracked, Next(c, w, Finish(job, del)).stores.tracked);
    }
  }

  lemma RestoreKeepsSafe(c: Setup, w: World, keys: seq<string>, now: int, io: nat -> RestoreIO, id: string)
    requires Inv(w) && Enabled(c, w, Restore(keys, now, io)) && Safe(c, w, id)
    requires Gentle(w, Restore(keys, now, io), id)
    ensures Safe(c, Next(c, w, Restore(keys, now, io)), id)
  {
    if Ran(w, id) {
      RanStays(c, w, Restore(keys, now, io), id);
    } else {
      RestoreIsExact(c, w.stores, keys, now, io);
      assert ExactlyRestored(c, w.stores, RestoreKeys(c, w.stores, keys, |keys|, now, io), id, now);
    }
    hide RestoreKeys, InStep, Scanned;
  }

  lemma NextKeepsSafe(c: Setup, w: World, a: Act, id: string)
    requires Inv(w) && Enabled(c, w, a) && FiringHasRun(w) && Safe(c, w, id) && Gentle(w, a, id)
    ensures Safe(c, Next(c, w, a), id)
  {
    match a
    case Accept(_, _, _, _, _, _) => AcceptKeepsSafe(c, w, a, id);
    case Restore(keys, now, io) => RestoreKeepsSafe(c, w, keys, now, io, id);
    case Finish(job, del) => FinishKeepsSafe(c, w, job, del, id);
    case _ =>
      if Ran(w, id) {
        RanStays(c, w, a, id);
      }
  }

  lemma {:induction false} RunKeepsSafe(c: Setup, w: World, acts: seq<Act>, id: string)
    requires Inv(w) && FiringHasRun(w) && Runs(c, w, acts) && Safe(c, w, id) && AllGentle(c, w, acts, id)
    ensures Safe(c, End(c, w, acts), id) && Inv(End(c, w, acts)) && FiringHasRun(End(c, w, acts))
    decreases |acts|
  {
    if acts != [] {
      NextKeepsInv(c, w, acts[0]);
      NextKeepsFiring(c, w, acts[0]);
      NextKeepsSafe(c, w, acts[0], id);
      hide Inv, Enabled, Next, FiringHasRun, Safe, Gentle;
      RunKeepsSafe(c, Next(c, w, acts[0]), acts[1..], id);
    }
  }

  lemma {:induction false} RunKeepsFiring(c: Setup, w: World, acts: seq<Act>)
    requires Inv(w) && FiringHasRun(w) && Runs(c, w, acts)
    ensures Inv(End(c, w, acts)) && FiringHasRun(End(c, w, acts))
    decreases |acts|
  {
    if acts != [] {
      NextKeepsInv(c, w, acts[0]);
      NextKeepsFiring(c, w, acts[0]);
      hide Inv, Enabled, Next, FiringHasRun;
      RunKeepsFiring(c, Next(c, w, acts[0]), acts[1..]);
    }
  }

  /** An accepted job that was saved is not lost, whatever crashes there are, as long as the restarts
      succeed before its time: it has run, or, while the scheduler is up, gocron has it and can start it
      as soon as it is due. */
  lemma NoJobLost(c: Setup, start: World, before: seq<Act>, a: Act, after: seq<Act>)
    requires IsStart(start) && Runs(c, start, before) && a.Accept? && Enabled(c, End(c, start, before), a)
    requires a.taskType in c.requestable && a.taskType in c.handlers && a.io == ALL_WELL
    requires Runs(c, Next(c, End(c, start, before), a), after)
    requires AllGentle(c, Next(c, End(c, start, before), a), after, a.jobID)
    ensures var w := End(c, Next(c, End(c, start, before), a), after);
            || Ran(w, a.jobID)
            || (!w.up && a.jobID in w.stores.redis)
            || (w.up && exists g :: g in w.stores.jobs && w.stores.jobs[g].jobID == a.jobID &&
                                    (w.stores.jobs[g].due <= w.clock ==> Enabled(c, w, Fire(g))))
  {
    var w := End(c, start, before);
    RunKeepsFiring(c, start, before);
    NextKeepsInv(c, w, a);
    NextKeepsFiring(c, w, a);
    ScheduledJob(c, w.stores, a.jobID, a.taskType, a.runAt, a.data, a.clk, a.io);
    assert Safe(c, Next(c, w, a), a.jobID);
    RunKeepsSafe(c, Next(c, w, a), after, a.jobID);
    var t := End(c, Next(c, w, a), after);
    if !Ran(t, a.jobID) && t.up {
      var g := t.stores.tracked[a.jobID];
      assert g in t.stores.jobs && t.stores.jobs[g].jobID == a.jobID && g !in t.firing;
    }
  }
}
