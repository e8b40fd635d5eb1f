/** The refresh protocol of internal/tasks/esi/refreshSystemIndexes.go and refreshAdjustedPrices.go
    over the store of internal/core/redis/redis.go, for one of its two lock keys: any number of
    refreshers, crashes, Redis errors with or without an effect, and a server whose data changes.

    The server's versions are numbered and carry distinct ETags, so an ETag is its version number.
    `items[i]` is the version whose value is stored for item i. */
module RefreshProtocol {
  import opened Options

  /** `deadline` is the life of a refresher's context and `ttl` that of the lock, in milliseconds.
      `listing(v)` are the items version v consists of, in the order the response lists them, and
      `tagged(v)` tells whether that response carries an ETag. */
  datatype Config = Config(deadline: nat, ttl: nat, listing: nat -> seq<int>, tagged: nat -> bool)

  /** `taker` is not stored: it names the refresher whose SetNX created the lock. */
  datatype Lock = Lock(expires: int, taker: nat)

  /** Where a refresher is. */
  datatype Phase =
    | Begun
    | Locked
    | Asking(tag: Option<nat>)
    | Saving(version: nat, saved: nat)
    | Tagged(version: nat)
    | Stamped(version: nat)
    | Unchanged(version: nat)
    | Failed
    | Over

  datatype Refresher = Refresher(start: int, phase: Phase)

  datatype LockResult = Took | Busy | LockError(effect: bool)

  datatype Reply = Full(version: nat) | NotModified(version: nat) | NoReply

  /** What a refresher does; `effect` tells whether Redis carried a command out and `ok` whether it
      said so. */
  datatype Op =
    | TryLock(result: LockResult)
    | ReadTag(tag: Option<nat>)
    | Answer(reply: Reply)
    | SaveItem(effect: bool, ok: bool)
    | BadItem
    | SaveTag(effect: bool, ok: bool)
    | SaveStamp(effect: bool, ok: bool)
    | Release(effect: bool)

  // ---- One refresher -----------------------------------------------------------------------

  /** The order in which one refresher acts. */
  predicate Fits(c: Config, phase: Phase, op: Op) {
    match op
    case TryLock(_) => phase.Begun?
    case ReadTag(_) => phase.Locked?
    case Answer(reply) => phase.Asking? && (reply.NotModified? ==> phase.tag == Some(reply.version))
    case SaveItem(effect, ok) =>
      phase.Saving? && phase.saved < |c.listing(phase.version)| && (ok ==> effect)
    case BadItem => phase.Saving?
    case SaveTag(effect, ok) =>
      && phase.Saving? && phase.saved == |c.listing(phase.version)|
      && if c.tagged(phase.version) then ok ==> effect else ok && !effect
    case SaveStamp(effect, ok) => phase.Tagged? && (ok ==> effect)
    case Release(_) => phase.Failed? || phase.Stamped? || phase.Unchanged?
  }

  function Advance(c: Config, phase: Phase, op: Op): Phase
    requires Fits(c, phase, op)
  {
    match op
    case TryLock(result) => if result.Took? then Locked else Over
    case ReadTag(tag) => Asking(tag)
    case Answer(Full(version)) => Saving(version, 0)
    case Answer(NotModified(version)) => Unchanged(version)
    case Answer(NoReply) => Failed
    case SaveItem(_, ok) => if ok then Saving(phase.version, phase.saved + 1) else Failed
    case BadItem => Failed
    case SaveTag(_, ok) => if ok then Tagged(phase.version) else Failed
    case SaveStamp(_, ok) => if ok then Stamped(phase.version) else Failed
    case Release(_) => Over
  }

  /** The operations that need the context to be alive to have happened at all. */
  predicate NeedsContext(op: Op) {
    match op
    case TryLock(result) => result != LockError(false)
    case ReadTag(tag) => tag.Some?
    case Answer(reply) => !reply.NoReply?
    case SaveItem(effect, _) => effect
    case BadItem => false
    case SaveTag(effect, _) => effect
    case SaveStamp(effect, _) => effect
    case Release(effect) => effect
  }

  // ---- The whole system --------------------------------------------------------------------

  datatype World = World(
    clock: int, version: nat, etag: Option<nat>, items: map<int, nat>, stamp: Option<int>,
    lock: Option<Lock>, refreshers: map<nat, Refresher>)

  datatype Act = Tick(to: int) | Publish | Begin(p: nat) | Do(p: nat, op: Op) | Crash(p: nat)

  const START: World := World(0, 0, None, map[], None, None, map[])

  predicate LockFree(w: World) {
    w.lock.None? || w.lock.value.expires <= w.clock
  }

  predicate Alive(c: Config, w: World, p: nat)
    requires p in w.refreshers
  {
    w.clock < w.refreshers[p].start + c.deadline
  }

  predicate Possible(c: Config, w: World, p: nat, op: Op)
    requires p in w.refreshers
  {
    && Fits(c, w.refreshers[p].phase, op)
    && (NeedsContext(op) ==> Alive(c, w, p))
    && match op
       case TryLock(Took) => LockFree(w)
       case TryLock(Busy) => !LockFree(w)
       case TryLock(LockError(effect)) => effect ==> LockFree(w)
       case ReadTag(tag) => tag.Some? ==> tag == w.etag
       case Answer(Full(version)) => version == w.version
       case Answer(NotModified(version)) => version == w.version
       case _ => true
  }

  predicate Enabled(c: Config, w: World, a: Act) {
    match a
    case Tick(to) => w.clock <= to
    case Publish => true
    case Begin(p) => p !in w.refreshers
    case Do(p, op) => p in w.refreshers && Possible(c, w, p, op)
    case Crash(p) => p in w.refreshers
  }

  /** What the operation does to the store. */
  function Effect(c: Config, w: World, p: nat, op: Op): World
    requires p in w.refreshers && Possible(c, w, p, op)
  {
    var phase := w.refreshers[p].phase;
    match op
    case TryLock(result) =>
      if result == Took || result == LockError(true) then w.(lock := Some(Lock(w.clock + c.ttl, p))) else w
    case SaveItem(effect, _) =>
      if effect then w.(items := w.items[c.listing(phase.version)[phase.saved] := phase.version]) else w
    case SaveTag(effect, _) => if effect then w.(etag := Some(phase.version)) else w
    case SaveStamp(effect, _) => if effect then w.(stamp := Some(w.clock)) else w
    case Release(effect) => if effect then w.(lock := None) else w
    case _ => w
  }

  function Next(c: Config, w: World, a: Act): World
    requires Enabled(c, w, a)
  {
    match a
    case Tick(to) => w.(clock := to)
    case Publish => w.(version := w.version + 1)
    case Begin(p) => w.(refreshers := w.refreshers[p := Refresher(w.clock, Begun)])
    case Do(p, op) =>
      var r := w.refreshers[p];
      Effect(c, w, p, op).(refreshers := w.refreshers[p := r.(phase := Advance(c, r.phase, op))])
    case Crash(p) => w.(refreshers := w.refreshers[p := w.refreshers[p].(phase := Over)])
  }

  ghost predicate Runs(c: Config, w: World, acts: seq<Act>)
    decreases |acts|
  {
    acts == [] || (Enabled(c, w, acts[0]) && Runs(c, Next(c, w, acts[0]), acts[1..]))
  }

  ghost function End(c: Config, w: World, acts: seq<Act>): World
    requires Runs(c, w, acts)
    decreases |acts|
  {
    if acts == [] then w else End(c, Next(c, w, acts[0]), acts[1..])
  }

  // ---- At most one refresher can write -----------------------------------------------------

  predicate Holding(phase: Phase) {
    !phase.Begun? && !phase.Over?
  }

  /** p has taken the lock, has not released it, and its context has not expired: its writes and its
      Del reach Redis. */
  predicate CanWrite(c: Config, w: World, p: nat) {
    p in w.refreshers && Holding(w.refreshers[p].phase) && Alive(c, w, p)
  }

  ghost predicate OneWriter(c: Config, w: World) {
    forall p, q :: CanWrite(c, w, p) && CanWrite(c, w, q) ==> p == q
  }

  /** A refresher that can still write is the one the lock was created for, and outlives it not. */
  ghost predicate WriterHasLock(c: Config, w: World, p: nat) {
    CanWrite(c, w, p) ==>
      w.lock.Some? && w.lock.value.taker == p && w.refreshers[p].start + c.deadline <= w.lock.value.expires
  }

  ghost predicate LockInv(c: Config, w: World) {
    && (forall p :: p in w.refreshers ==> w.refreshers[p].start <= w.clock)
    && (forall p :: WriterHasLock(c, w, p))
  }

  lemma NextKeepsLockInv(c: Config, w: World, a: Act)
    requires c.deadline <= c.ttl && LockInv(c, w) && Enabled(c, w, a)
    ensures LockInv(c, Next(c, w, a))
  {
    var t := Next(c, w, a);
    forall q
      ensures WriterHasLock(c, t, q)
    {
      assert WriterHasLock(c, w, q);
      if a.Do? {
        assert WriterHasLock(c, w, a.p);
      }
    }
  }

  // ---- Stored versions only grow, and an ETag vouches for its items ------------------------

  /** Every item of version v is stored with a value from version v or later. */
  ghost predicate Covers(c: Config, items: map<int, nat>, v: nat) {
    forall i :: 0 <= i < |c.listing(v)| ==> Fresh(items, c.listing(v)[i], v)
  }

  predicate Fresh(items: map<int, nat>, item: int, v: nat) {
    item in items && items[item] >= v
  }

  ghost predicate AtMost(items: map<int, nat>, v: nat) {
    forall i :: i in items ==> items[i] <= v
  }

  /** What a refresher's phase says about the store from then on, whatever happens to it. */
  ghost predicate Durable(c: Config, items: map<int, nat>, phase: Phase) {
    match phase
    case Saving(v, saved) =>
      saved <= |c.listing(v)| && forall i :: 0 <= i < saved ==> Fresh(items, c.listing(v)[i], v)
    case Tagged(v) => Covers(c, items, v)
    case Stamped(v) => Covers(c, items, v)
    case Unchanged(v) => Covers(c, items, v)
    case _ => true
  }

  /** What it says only while the refresher can write: nobody is ahead of it. */
  ghost predicate Current(w: World, phase: Phase) {
    match phase
    case Asking(tag) => tag.Some? ==> w.etag == tag
    case Saving(v, _) => v <= w.version && AtMost(w.items, v) && (w.etag.Some? ==> w.etag.value <= v)
    case Tagged(v) => v <= w.version && AtMost(w.items, v)
    case Stamped(v) => v <= w.version && AtMost(w.items, v)
    case _ => true
  }

  ghost predicate DataInv(c: Config, w: World) {
    && AtMost(w.items, w.version)
    && (w.etag.Some? ==> w.etag.value <= w.version && Covers(c, w.items, w.etag.value))
    && (forall p :: p in w.refreshers ==> Durable(c, w.items, w.refreshers[p].phase))
    && (forall p :: CanWrite(c, w, p) ==> Current(w, w.refreshers[p].phase))
  }

  ghost predicate Inv(c: Config, w: World) {
    LockInv(c, w) && DataInv(c, w)
  }

  /** Stored values never go back to an older version. */
  ghost predicate Grown(items: map<int, nat>, later: map<int, nat>) {
    forall i :: i in items ==> i in later && items[i] <= later[i]
  }

  /** Neither they nor the ETag do. */
  ghost predicate Monotone(w: World, t: World) {
    Grown(w.items, t.items) && TagAtLeast(t, w.etag)
  }

  /** The refresh time never goes back either. */
  ghost predicate StampedLater(w: World, t: World) {
    w.stamp.Some? ==> t.stamp.Some? && w.stamp.value <= t.stamp.value
  }

  /** The stored ETag is this one or a later one. */
  predicate TagAtLeast(w: World, etag: Option<nat>) {
    etag.Some? ==> w.etag.Some? && w.etag.value >= etag.value
  }

  /** The refresh time is stored, and is not before `since`. */
  predicate StampedSince(w: World, since: int) {
    w.stamp.Some? && w.stamp.value >= since
  }

  /** What a refresher that got past the items has left in the other two keys, for good. */
  ghost predicate Marked(c: Config, w: World, r: Refresher) {
    match r.phase
    case Tagged(v) => c.tagged(v) ==> TagAtLeast(w, Some(v))
    case Stamped(v) => (c.tagged(v) ==> TagAtLeast(w, Some(v))) && StampedSince(w, r.start)
    case Unchanged(v) => TagAtLeast(w, Some(v))
    case _ => true
  }

  ghost predicate MarkInv(c: Config, w: World) {
    && (w.stamp.Some? ==> w.stamp.value <= w.clock)
    && (forall p :: p in w.refreshers ==> Marked(c, w, w.refreshers[p]))
  }

  lemma GrownKeeps(c: Config, items: map<int, nat>, later: map<int, nat>, phase: Phase, v: nat)
    requires Grown(items, later)
    ensures Covers(c, items, v) ==> Covers(c, later, v)
    ensures Durable(c, items, phase) ==> Durable(c, later, phase)
  {
  }

  /** The store of one operation: it grows, and stays within what the phase knows. */
  lemma EffectGrows(c: Config, w: World, p: nat, op: Op)
    requires Inv(c, w) && p in w.refreshers && Possible(c, w, p, op)
    ensures Grown(w.items, Effect(c, w, p, op).items)
    ensures Durable(c, Effect(c, w, p, op).items, Advance(c, w.refreshers[p].phase, op))
    ensures var t := Effect(c, w, p, op);
            AtMost(t.items, t.version) && Monotone(w, t) &&
            (t.etag.Some? ==> t.etag.value <= t.version && Covers(c, t.items, t.etag.value))
  {
    var t := Effect(c, w, p, op);
    assert NeedsContext(op) && Holding(w.refreshers[p].phase) ==> CanWrite(c, w, p);
    assert Durable(c, w.items, w.refreshers[p].phase);
    hide LockInv;
    assert Grown(w.items, t.items);
    if w.etag.Some? {
      GrownKeeps(c, w.items, t.items, w.refreshers[p].phase, w.etag.value);
    }
  }

  /** Only a refresher that can write changes what the others rely on, and it is the only one. */
  lemma EffectKeepsCurrent(c: Config, w: World, p: nat, op: Op, q: nat)
    requires Inv(c, w) && p in w.refreshers && Possible(c, w, p, op)
    requires LockInv(c, Next(c, w, Do(p, op)))
    requires CanWrite(c, Next(c, w, Do(p, op)), q)
    ensures var t := Next(c, w, Do(p, op));
            Current(t, t.refreshers[q].phase)
  {
    var t := Next(c, w, Do(p, op));
    assert WriterHasLock(c, w, q) && WriterHasLock(c, w, p) && WriterHasLock(c, t, q);
    assert NeedsContext(op) && Holding(w.refreshers[p].phase) ==> CanWrite(c, w, p);
    hide Covers, Durable, Grown, LockInv;
  }

  lemma NextKeepsInv(c: Config, w: World, a: Act)
    requires c.deadline <= c.ttl && Inv(c, w) && Enabled(c, w, a)
    ensures Inv(c, Next(c, w, a)) && Monotone(w, Next(c, w, a))
  {
    NextKeepsLockInv(c, w, a);
    var t := Next(c, w, a);
    if a.Do? {
      EffectGrows(c, w, a.p, a.op);
    }
    assert Grown(w.items, t.items);
    forall q | q in t.refreshers
      ensures Durable(c, t.items, t.refreshers[q].phase)
    {
      if q in w.refreshers {
        GrownKeeps(c, w.items, t.items, w.refreshers[q].phase, 0);
      }
    }
    forall q | CanWrite(c, t, q)
      ensures Current(t, t.refreshers[q].phase)
    {
      if a.Do? {
        EffectKeepsCurrent(c, w, a.p, a.op, q);
      } else {
        assert CanWrite(c, w, q) && t.refreshers[q] == w.refreshers[q];
      }
    }
    hide LockInv, Durable, Current, Covers, Grown, Possible;
  }

  lemma {:induction false} RunKeepsInv(c: Config, w: World, acts: seq<Act>)
    requires c.deadline <= c.ttl && Inv(c, w) && Runs(c, w, acts)
    ensures Inv(c, End(c, w, acts)) && Monotone(w, End(c, w, acts))
    decreases |acts|
  {
    if acts != [] {
      NextKeepsInv(c, w, acts[0]);
      hide Inv, Enabled, Next;
      RunKeepsInv(c, Next(c, w, acts[0]), acts[1..]);
    }
  }

  lemma MarkStays(c: Config, w: World, t: World, r: Refresher)
    requires Marked(c, w, r) && Monotone(w, t) && StampedLater(w, t)
    ensures Marked(c, t, r)
  {
    hide Grown;
  }

  /** The acting refresher is marked by what it has just done. */
  lemma DoMarks(c: Config, w: World, p: nat, op: Op)
    requires Inv(c, w) && MarkInv(c, w) && p in w.refreshers && Possible(c, w, p, op)
    requires Monotone(w, Effect(c, w, p, op))
    ensures Marked(c, Effect(c, w, p, op), w.refreshers[p].(phase := Advance(c, w.refreshers[p].phase, op)))
  {
    assert Marked(c, w, w.refreshers[p]) && w.refreshers[p].start <= w.clock;
    assert op.Answer? && op.reply.NotModified? ==> CanWrite(c, w, p);
    hide LockInv, Covers, Durable, Grown;
  }

  /** A refresher stays marked. */
  lemma NextKeepsMarks(c: Config, w: World, a: Act)
    requires Inv(c, w) && MarkInv(c, w) && Enabled(c, w, a) && Monotone(w, Next(c, w, a))
    ensures MarkInv(c, Next(c, w, a)) && StampedLater(w, Next(c, w, a))
  {
    var t := Next(c, w, a);
    assert StampedLater(w, t) && (t.stamp.Some? ==> t.stamp.value <= t.clock);
    forall q | q in t.refreshers
      ensures Marked(c, t, t.refreshers[q])
    {
      if a.Do? && a.p == q {
        DoMarks(c, w, q, a.op);
      } else if q in w.refreshers {
        MarkStays(c, w, t, w.refreshers[q]);
      }
    }
    hide Inv, Monotone, StampedLater;
  }

  lemma {:induction false} RunKeepsMarks(c: Config, w: World, acts: seq<Act>)
    requires c.deadline <= c.ttl && Inv(c, w) && MarkInv(c, w) && Runs(c, w, acts)
    ensures MarkInv(c, End(c, w, acts)) && StampedLater(w, End(c, w, acts))
    decreases |acts|
  {
    if acts != [] {
      NextKeepsInv(c, w, acts[0]);
      NextKeepsMarks(c, w, acts[0]);
      hide Inv, Enabled, Next, MarkInv;
      RunKeepsMarks(c, Next(c, w, acts[0]), acts[1..]);
    }
  }

  // ---- The results -------------------------------------------------------------------------

  /** In every reachable state the items of the stored ETag's version are all stored, none of them
      from an older version; so are those of every refresher that has finished; and neither an item
      nor the ETag ever goes back. */
  lemma ETagVouches(c: Config, acts: seq<Act>, more: seq<Act>, p: nat)
    requires c.deadline <= c.ttl
    requires Runs(c, START, acts) && Runs(c, End(c, START, acts), more)
    ensures var w := End(c, START, acts);
            && (w.etag.Some? ==> w.etag.value <= w.version && Covers(c, w.items, w.etag.value))
            && (p in w.refreshers && (w.refreshers[p].phase.Stamped? || w.refreshers[p].phase.Unchanged?) ==>
                  Covers(c, w.items, w.refreshers[p].phase.version))
            && Monotone(w, End(c, w, more))
  {
    RunKeepsInv(c, START, acts);
    RunKeepsInv(c, End(c, START, acts), more);
  }

  /** When the server answers 304, every item it lists is stored at exactly its current version. */
  lemma NotModifiedMeansCurrent(c: Config, acts: seq<Act>, p: nat, v: nat)
    requires c.deadline <= c.ttl && Runs(c, START, acts)
    requires Enabled(c, End(c, START, acts), Do(p, Answer(NotModified(v))))
    ensures var w := End(c, START, acts);
            && v == w.version
            && (forall i :: 0 <= i < |c.listing(v)| ==>
                  c.listing(v)[i] in w.items && w.items[c.listing(v)[i]] == v)
  {
    RunKeepsInv(c, START, acts);
    var w := End(c, START, acts);
    assert CanWrite(c, w, p);
    forall i | 0 <= i < |c.listing(v)|
      ensures c.listing(v)[i] in w.items && w.items[c.listing(v)[i]] == v
    {
      assert Fresh(w.items, c.listing(v)[i], v);
    }
  }

  /** A release that reaches Redis deletes the lock of the refresher that releases it. */
  lemma ReleaseDeletesOwnLock(c: Config, acts: seq<Act>, p: nat)
    requires c.deadline <= c.ttl && Runs(c, START, acts)
    requires Enabled(c, End(c, START, acts), Do(p, Release(true)))
    ensures var w := End(c, START, acts);
            w.lock.Some? && w.lock.value.taker == p && w.clock < w.lock.value.expires
  {
    RunKeepsInv(c, START, acts);
    assert WriterHasLock(c, End(c, START, acts), p);
  }

  // ---- Runs that lead somewhere ------------------------------------------------------------

  ghost predicate Reaches(c: Config, t: World) {
    exists acts :: Runs(c, START, acts) && End(c, START, acts) == t
  }

  lemma {:induction false} RunsSnoc(c: Config, w: World, acts: seq<Act>, a: Act)
    requires Runs(c, w, acts) && Enabled(c, End(c, w, acts), a)
    ensures Runs(c, w, acts + [a]) && End(c, w, acts + [a]) == Next(c, End(c, w, acts), a)
    decreases |acts|
  {
    if acts == [] {
      assert (acts + [a])[1..] == [];
      assert Runs(c, Next(c, w, a), []);
    } else {
      assert (acts + [a])[1..] == acts[1..] + [a];
      hide Enabled, Next;
      RunsSnoc(c, Next(c, w, acts[0]), acts[1..], a);
    }
  }

  lemma ReachesStart(c: Config)
    ensures Reaches(c, START)
  {
    assert Runs(c, START, []) && End(c, START, []) == START;
  }

  lemma On(c: Config, t: World, a: Act) returns (u: World)
    requires Reaches(c, t) && Enabled(c, t, a)
    ensures u == Next(c, t, a) && Reaches(c, u)
  {
    u := Next(c, t, a);
    var acts :| Runs(c, START, acts) && End(c, START, acts) == t;
    hide Enabled, Next;
    RunsSnoc(c, START, acts, a);
  }

  /** A refresher that begins, takes the lock and, without an ETag, is sent the current version. */
  lemma BeginsSaving(c: Config, t: World, p: nat) returns (u: World)
    requires Reaches(c, t) && p !in t.refreshers && LockFree(t) && 0 < c.deadline
    ensures Reaches(c, u) && u.lock == Some(Lock(t.clock + c.ttl, p))
    ensures u == t.(lock := u.lock, refreshers := t.refreshers[p := Refresher(t.clock, Saving(t.version, 0))])
  {
    hide Reaches;
    u := On(c, t, Begin(p));
    u := On(c, u, Do(p, TryLock(Took)));
    u := On(c, u, Do(p, ReadTag(None)));
    u := On(c, u, Do(p, Answer(Full(t.version))));
  }

  lemma TwoWriters(c: Config) returns (t: World)
    requires c.deadline > c.ttl
    ensures Reaches(c, t) && !OneWriter(c, t)
  {
    ReachesStart(c);
    t := BeginsSaving(c, START, 0);
    t := On(c, t, Tick(c.ttl));
    t := BeginsSaving(c, t, 1);
    assert CanWrite(c, t, 0) && CanWrite(c, t, 1);
  }

  /** At most one refresher can write in every state of every run, exactly when the context does not
      outlive the lock. */
  lemma OneWriterIff(c: Config)
    ensures (forall acts | Runs(c, START, acts) :: OneWriter(c, End(c, START, acts))) <==> c.deadline <= c.ttl
  {
    if c.deadline <= c.ttl {
      forall acts | Runs(c, START, acts)
        ensures OneWriter(c, End(c, START, acts))
      {
        RunKeepsInv(c, START, acts);
        var w := End(c, START, acts);
        forall p, q | CanWrite(c, w, p) && CanWrite(c, w, q)
          ensures p == q
        {
          assert WriterHasLock(c, w, p) && WriterHasLock(c, w, q);
        }
      }
    } else {
      var t := TwoWriters(c);
      var acts :| Runs(c, START, acts) && End(c, START, acts) == t;
      assert !OneWriter(c, End(c, START, acts));
    }
  }

  ghost predicate ETagIsSound(c: Config, w: World) {
    w.etag.Some? ==> Covers(c, w.items, w.etag.value)
  }

  /** Item i of version u is also in the later version v, whose response carries an ETag. */
  predicate Overlap(c: Config, u: nat, v: nat, i: nat) {
    u < v && c.tagged(v) && i < |c.listing(u)| && c.listing(u)[i] in c.listing(v)
  }

  ghost predicate Overlapping(c: Config) {
    exists u: nat, v: nat, i: nat :: Overlap(c, u, v, i)
  }

  lemma {:induction false} Publishes(c: Config, t: World, v: nat) returns (u: World)
    requires Reaches(c, t) && t.version <= v
    ensures Reaches(c, u) && u == t.(version := v)
    decreases v - t.version
  {
    u := t;
    if t.version < v {
      u := On(c, t, Publish);
      u := Publishes(c, u, v);
    }
  }

  /** Refresher p, in the midst of its version, saves the next items up to n. */
  lemma {:induction false} Saves(c: Config, t: World, p: nat, v: nat, k: nat, n: nat) returns (u: World)
    requires Reaches(c, t) && p in t.refreshers && Alive(c, t, p)
    requires t.refreshers[p].phase == Saving(v, k) && k <= n <= |c.listing(v)|
    ensures Reaches(c, u)
    ensures u == t.(items := u.items, refreshers := t.refreshers[p := t.refreshers[p].(phase := Saving(v, n))])
    ensures k < n ==> c.listing(v)[n - 1] in u.items && u.items[c.listing(v)[n - 1]] == v
    decreases n - k
  {
    hide Reaches;
    u := t;
    if k < n {
      u := Saves(c, t, p, v, k, n - 1);
      u := On(c, u, Do(p, SaveItem(true, true)));
    }
  }

  /** With a context that outlives the lock, a refresher that was overtaken writes an old value under
      the ETag of a later version, whenever the two versions share an item. */
  lemma StaleOverwrite(c: Config, u: nat, v: nat, i: nat) returns (t: World)
    requires c.deadline > c.ttl && Overlap(c, u, v, i)
    ensures Reaches(c, t) && !ETagIsSound(c, t)
  {
    hide Reaches;
    ReachesStart(c);
    // The first refresher gets the old version and then loses its lock.
    t := Publishes(c, START, u);
    t := BeginsSaving(c, t, 0);
    t := On(c, t, Tick(c.ttl));
    // The second one takes it over and saves the new version with its ETag.
    t := Publishes(c, t, v);
    t := BeginsSaving(c, t, 1);
    t := Saves(c, t, 1, v, 0, |c.listing(v)|);
    t := On(c, t, Do(1, SaveTag(true, true)));
    t := Saves(c, t, 0, u, 0, i + 1);
    var j :| 0 <= j < |c.listing(v)| && c.listing(v)[j] == c.listing(u)[i];
    assert t.etag == Some(v) && !Fresh(t.items, c.listing(v)[j], v);
  }

  // ---- Without a shared item no lock is needed ---------------------------------------------

  /** A version with an ETag keeps the items that have been saved from it. */
  ghost predicate Kept(c: Config, items: map<int, nat>, phase: Phase) {
    phase.Saving? && c.tagged(phase.version) ==> Durable(c, items, phase)
  }

  ghost predicate ApartInv(c: Config, w: World) {
    && (w.etag.Some? ==> c.tagged(w.etag.value) && Covers(c, w.items, w.etag.value))
    && (forall p :: p in w.refreshers ==> Kept(c, w.items, w.refreshers[p].phase))
  }

  /** A write of version u leaves the items of every version with an ETag as fresh as they were. */
  lemma WriteApart(c: Config, items: map<int, nat>, u: nat, k: nat, v: nat)
    requires !Overlapping(c) && c.tagged(v) && k < |c.listing(u)|
    ensures var later := items[c.listing(u)[k] := u];
            forall i :: 0 <= i < |c.listing(v)| && Fresh(items, c.listing(v)[i], v) ==>
              Fresh(later, c.listing(v)[i], v)
  {
    assert !Overlap(c, u, v, k);
  }

  lemma NextKeepsApart(c: Config, w: World, a: Act)
    requires !Overlapping(c) && ApartInv(c, w) && Enabled(c, w, a)
    ensures ApartInv(c, Next(c, w, a))
  {
    var t := Next(c, w, a);
    hide Overlapping;
    if a.Do? {
      assert Kept(c, w.items, w.refreshers[a.p].phase);
      if a.op.SaveItem? && a.op.effect {
        var phase := w.refreshers[a.p].phase;
        forall v | c.tagged(v)
          ensures forall i :: 0 <= i < |c.listing(v)| && Fresh(w.items, c.listing(v)[i], v) ==>
                    Fresh(t.items, c.listing(v)[i], v)
        {
          WriteApart(c, w.items, phase.version, phase.saved, v);
        }
      }
    }
  }

  lemma {:induction false} RunKeepsApart(c: Config, w: World, acts: seq<Act>)
    requires !Overlapping(c) && ApartInv(c, w) && Runs(c, w, acts)
    ensures ApartInv(c, End(c, w, acts))
    decreases |acts|
  {
    if acts != [] {
      NextKeepsApart(c, w, acts[0]);
      hide ApartInv, Enabled, Next, Overlapping;
      RunKeepsApart(c, Next(c, w, acts[0]), acts[1..]);
    }
  }

  /** The stored ETag is sound in every run exactly when the context does not outlive the lock, or no
      version with an ETag lists an item that an earlier version lists. */
  lemma ETagSoundIff(c: Config)
    ensures (forall acts | Runs(c, START, acts) :: ETagIsSound(c, End(c, START, acts))) <==>
            c.deadline <= c.ttl || !Overlapping(c)
  {
    if c.deadline <= c.ttl || !Overlapping(c) {
      forall acts | Runs(c, START, acts)
        ensures ETagIsSound(c, End(c, START, acts))
      {
        if c.deadline <= c.ttl {
          RunKeepsInv(c, START, acts);
        } else {
          RunKeepsApart(c, START, acts);
        }
      }
    } else {
      var u: nat, v: nat, i: nat :| Overlap(c, u, v, i);
      var t := StaleOverwrite(c, u, v, i);
      var acts :| Runs(c, START, acts) && End(c, START, acts) == t;
      assert !ETagIsSound(c, End(c, START, acts));
    }
  }
}
