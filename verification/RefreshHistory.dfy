/** What a run of the refresh protocol has left behind, told from its history alone: who holds the
    lock, what the store holds, where each refresher is, and that a refresher left alone succeeds. */
module RefreshHistory {
  import opened Options
  import opened RefreshProtocol

  // ---- Histories ---------------------------------------------------------------------------

  /** The state in which act j happens. */
  ghost function Before(c: Config, acts: seq<Act>, j: nat): World
    requires j <= |acts|
  {
    if Runs(c, START, acts[..j]) then End(c, START, acts[..j]) else START
  }

  lemma {:induction false} RunsSplit(c: Config, w: World, acts: seq<Act>)
    requires Runs(c, w, acts) && acts != []
    ensures Runs(c, w, acts[..|acts| - 1])
    ensures Enabled(c, End(c, w, acts[..|acts| - 1]), acts[|acts| - 1])
    ensures End(c, w, acts) == Next(c, End(c, w, acts[..|acts| - 1]), acts[|acts| - 1])
    decreases |acts|
  {
    if |acts| == 1 {
      assert acts[1..] == [] && Runs(c, Next(c, w, acts[0]), []);
    } else {
      assert acts[1..][..|acts| - 2] == acts[..|acts| - 1][1..];
      hide Enabled, Next;
      RunsSplit(c, Next(c, w, acts[0]), acts[1..]);
    }
  }

  lemma BeforeInit(c: Config, acts: seq<Act>, j: nat)
    requires acts != [] && j < |acts|
    ensures Before(c, acts, j) == Before(c, acts[..|acts| - 1], j)
  {
    assert acts[..|acts| - 1][..j] == acts[..j];
  }

  // ---- The lock ----------------------------------------------------------------------------

  /** Act j is a SetNX of p that took effect, whatever Redis said. */
  predicate SetsLock(acts: seq<Act>, j: nat, p: nat) {
    j < |acts| && (acts[j] == Do(p, TryLock(Took)) || acts[j] == Do(p, TryLock(LockError(true))))
  }

  predicate Deletes(a: Act) {
    a.Do? && a.op == Release(true)
  }

  ghost predicate KeptByAll(acts: seq<Act>, j: nat) {
    forall k :: j < k < |acts| ==> !Deletes(acts[k])
  }

  ghost predicate KeptByItsOwner(acts: seq<Act>, j: nat, p: nat) {
    forall k :: j < k < |acts| ==> acts[k] != Do(p, Release(true))
  }

  /** The SetNX of act j is younger than the lock's life, and no Del followed it. */
  ghost predicate HeldSince(c: Config, acts: seq<Act>, now: int, j: nat, p: nat) {
    SetsLock(acts, j, p) && now < Before(c, acts, j).clock + c.ttl && KeptByAll(acts, j)
  }

  predicate Held(w: World) {
    w.lock.Some? && w.clock < w.lock.value.expires
  }

  ghost predicate LockHistory(c: Config, acts: seq<Act>, w: World) {
    && (w.lock.Some? ==> exists j :: SetsLock(acts, j, w.lock.value.taker) && KeptByAll(acts, j) &&
                                     w.lock.value.expires == Before(c, acts, j).clock + c.ttl)
    && (forall j, p :: HeldSince(c, acts, w.clock, j, p) ==>
          w.lock == Some(Lock(Before(c, acts, j).clock + c.ttl, p)))
  }

  lemma LongerHistory(c: Config, acts: seq<Act>, a: Act)
    ensures forall j: nat :: j < |acts| ==> Before(c, acts + [a], j) == Before(c, acts, j)
    ensures forall j: nat :: j < |acts| ==> (KeptByAll(acts + [a], j) <==> KeptByAll(acts, j) && !Deletes(a))
    ensures forall j: nat, p: nat :: j < |acts| ==> (SetsLock(acts + [a], j, p) <==> SetsLock(acts, j, p))
    ensures KeptByAll(acts + [a], |acts|)
  {
    var longer := acts + [a];
    assert longer[..|longer| - 1] == acts;
    forall j: nat | j < |acts|
      ensures Before(c, longer, j) == Before(c, acts, j)
    {
      BeforeInit(c, longer, j);
    }
    forall j: nat | j < |acts|
      ensures KeptByAll(longer, j) <==> KeptByAll(acts, j) && !Deletes(a)
    {
      assert forall k :: 0 <= k < |acts| ==> longer[k] == acts[k];
      assert longer[|acts|] == a;
    }
    hide Before;
  }

  predicate Takes(a: Act) {
    a.Do? && (a.op == TryLock(Took) || a.op == TryLock(LockError(true)))
  }

  lemma LockAfter(c: Config, w: World, a: Act)
    requires Enabled(c, w, a)
    ensures Next(c, w, a).lock ==
            if Takes(a) then Some(Lock(w.clock + c.ttl, a.p)) else if Deletes(a) then None else w.lock
    ensures Takes(a) ==> !Held(w)
    ensures w.clock <= Next(c, w, a).clock
  {
  }

  lemma LockHistoryStep(c: Config, acts: seq<Act>, w: World, a: Act)
    requires LockHistory(c, acts, w) && Enabled(c, w, a) && Before(c, acts + [a], |acts|) == w
    ensures LockHistory(c, acts + [a], Next(c, w, a))
  {
    var longer, t := acts + [a], Next(c, w, a);
    LongerHistory(c, acts, a);
    LockAfter(c, w, a);
    hide Before, KeptByAll, Next, Enabled;
    if t.lock.Some? {
      if Takes(a) {
        assert SetsLock(longer, |acts|, a.p);
      } else {
        var j :| SetsLock(acts, j, w.lock.value.taker) && KeptByAll(acts, j) &&
                 w.lock.value.expires == Before(c, acts, j).clock + c.ttl;
        assert SetsLock(longer, j, t.lock.value.taker) && KeptByAll(longer, j);
      }
    }
    forall j: nat, p: nat | HeldSince(c, longer, t.clock, j, p)
      ensures t.lock == Some(Lock(Before(c, longer, j).clock + c.ttl, p))
    {
      if j < |acts| {
        assert HeldSince(c, acts, w.clock, j, p);
      }
    }
  }

  lemma {:induction false} LockHistoryHolds(c: Config, acts: seq<Act>)
    requires Runs(c, START, acts)
    ensures LockHistory(c, acts, End(c, START, acts))
    decreases |acts|
  {
    if acts != [] {
      var init, a := acts[..|acts| - 1], acts[|acts| - 1];
      RunsSplit(c, START, acts);
      LockHistoryHolds(c, init);
      assert init + [a] == acts && acts[..|init|] == init;
      LockHistoryStep(c, init, End(c, START, init), a);
    }
  }

  /** For every configuration: an unexpired lock is there exactly if some SetNX took effect within the
      lock's life, whatever Redis said, and no Del took effect after it. */
  lemma LockHeldIff(c: Config, acts: seq<Act>)
    requires Runs(c, START, acts)
    ensures Held(End(c, START, acts)) <==> exists j, p :: HeldSince(c, acts, End(c, START, acts).clock, j, p)
  {
    LockHistoryHolds(c, acts);
    var w := End(c, START, acts);
    if Held(w) {
      var j :| SetsLock(acts, j, w.lock.value.taker) && KeptByAll(acts, j) &&
               w.lock.value.expires == Before(c, acts, j).clock + c.ttl;
      assert HeldSince(c, acts, w.clock, j, w.lock.value.taker);
    }
  }

  /** If the context does not outlive the lock, only the owner's own Del counts. */
  lemma {:induction false} OnlyOwnerDeletes(c: Config, acts: seq<Act>, j: nat, p: nat)
    requires c.deadline <= c.ttl && Runs(c, START, acts)
    requires SetsLock(acts, j, p) && KeptByItsOwner(acts, j, p)
    requires End(c, START, acts).clock < Before(c, acts, j).clock + c.ttl
    ensures KeptByAll(acts, j)
    decreases |acts|
  {
    var init, a := acts[..|acts| - 1], acts[|acts| - 1];
    RunsSplit(c, START, acts);
    var w := End(c, START, init);
    if j < |init| {
      BeforeInit(c, acts, j);
      assert forall k :: 0 <= k < |init| ==> init[k] == acts[k];
      assert w.clock <= End(c, START, acts).clock;
      OnlyOwnerDeletes(c, init, j, p);
      if Deletes(a) {
        LockHistoryHolds(c, init);
        assert HeldSince(c, init, w.clock, j, p);
        ReleaseDeletesOwnLock(c, init, a.p);
        assert false;
      }
    }
  }

  /** So then an unexpired lock is there exactly if some refresher's SetNX took effect within the
      lock's life and no Del of its own followed. */
  lemma LockHeldIffOwn(c: Config, acts: seq<Act>)
    requires c.deadline <= c.ttl && Runs(c, START, acts)
    ensures var w := End(c, START, acts);
            Held(w) <==>
            exists j, p :: SetsLock(acts, j, p) && w.clock < Before(c, acts, j).clock + c.ttl &&
                           KeptByItsOwner(acts, j, p)
  {
    LockHeldIff(c, acts);
    var w := End(c, START, acts);
    forall j: nat, p: nat | SetsLock(acts, j, p) && w.clock < Before(c, acts, j).clock + c.ttl && KeptByItsOwner(acts, j, p)
      ensures HeldSince(c, acts, w.clock, j, p)
    {
      OnlyOwnerDeletes(c, acts, j, p);
    }
    forall j: nat, p: nat | HeldSince(c, acts, w.clock, j, p)
      ensures KeptByItsOwner(acts, j, p)
    {
    }
  }

  /** What a SetNX is told is told by the history; an error may hide that it took the lock. */
  lemma SetNXAnswers(c: Config, acts: seq<Act>, q: nat)
    requires Runs(c, START, acts) && q in End(c, START, acts).refreshers
    requires End(c, START, acts).refreshers[q].phase.Begun? && Alive(c, End(c, START, acts), q)
    ensures var w := End(c, START, acts);
            var held := exists j, p :: HeldSince(c, acts, w.clock, j, p);
            && (Enabled(c, w, Do(q, TryLock(Took))) <==> !held) && (Enabled(c, w, Do(q, TryLock(Busy))) <==> held)
            && (Enabled(c, w, Do(q, TryLock(LockError(true)))) <==> !held)
            && Enabled(c, w, Do(q, TryLock(LockError(false))))
  {
    LockHeldIff(c, acts);
  }

  /** After a Del that took effect the next refresher gets the lock, at once. */
  lemma ReleaseFrees(c: Config, acts: seq<Act>, p: nat, q: nat)
    requires 0 < c.deadline && Runs(c, START, acts)
    requires Enabled(c, End(c, START, acts), Do(p, Release(true))) && q !in End(c, START, acts).refreshers
    ensures var more := acts + [Do(p, Release(true))] + [Begin(q)];
            && Runs(c, START, more)
            && Enabled(c, End(c, START, more), Do(q, TryLock(Took)))
            && !Enabled(c, End(c, START, more), Do(q, TryLock(Busy)))
  {
    var released := acts + [Do(p, Release(true))];
    var more := released + [Begin(q)];
    RunsSnoc(c, START, acts, Do(p, Release(true)));
    RunsSnoc(c, START, released, Begin(q));
    var w := End(c, START, more);
    forall j: nat, r: nat
      ensures !HeldSince(c, more, w.clock, j, r)
    {
      assert Deletes(more[|acts|]) && more[|acts| + 1] == Begin(q);
    }
    SetNXAnswers(c, more, q);
  }

  // ---- The store ---------------------------------------------------------------------------

  /** The phase of the refresher whose act j is. */
  ghost function PhaseAt(c: Config, acts: seq<Act>, j: nat): Phase
    requires j < |acts| && acts[j].Do?
  {
    var w := Before(c, acts, j);
    if acts[j].p in w.refreshers then w.refreshers[acts[j].p].phase else Begun
  }

  /** What act j writes, if it takes effect: an item with a version, an ETag, a refresh time. */
  ghost function ItemWritten(c: Config, acts: seq<Act>, j: nat): Option<(int, nat)>
    requires j < |acts|
  {
    if acts[j].Do? && acts[j].op.SaveItem? && acts[j].op.effect then
      var phase := PhaseAt(c, acts, j);
      if phase.Saving? && phase.saved < |c.listing(phase.version)|
      then Some((c.listing(phase.version)[phase.saved], phase.version)) else None
    else None
  }

  ghost function TagWritten(c: Config, acts: seq<Act>, j: nat): Option<nat>
    requires j < |acts|
  {
    if acts[j].Do? && acts[j].op.SaveTag? && acts[j].op.effect && PhaseAt(c, acts, j).Saving?
    then Some(PhaseAt(c, acts, j).version) else None
  }

  ghost function StampWritten(c: Config, acts: seq<Act>, j: nat): Option<int>
    requires j < |acts|
  {
    if acts[j].Do? && acts[j].op.SaveStamp? && acts[j].op.effect then Some(Before(c, acts, j).clock) else None
  }

  /** The value an item, the ETag and the refresh time have from their last write. */
  ghost function LastItem(c: Config, acts: seq<Act>, item: int): Option<nat> {
    if acts == [] then None
    else
      var written := ItemWritten(c, acts, |acts| - 1);
      if written.Some? && written.value.0 == item then Some(written.value.1)
      else LastItem(c, acts[..|acts| - 1], item)
  }

  ghost function LastTag(c: Config, acts: seq<Act>): Option<nat> {
    if acts == [] then None
    else if TagWritten(c, acts, |acts| - 1).Some? then TagWritten(c, acts, |acts| - 1)
    else LastTag(c, acts[..|acts| - 1])
  }

  ghost function LastStamp(c: Config, acts: seq<Act>): Option<int> {
    if acts == [] then None
    else if StampWritten(c, acts, |acts| - 1).Some? then StampWritten(c, acts, |acts| - 1)
    else LastStamp(c, acts[..|acts| - 1])
  }

  ghost function Publications(acts: seq<Act>): nat {
    if acts == [] then 0
    else Publications(acts[..|acts| - 1]) + if acts[|acts| - 1].Publish? then 1 else 0
  }

  ghost function LastTick(acts: seq<Act>): int {
    if acts == [] then 0
    else if acts[|acts| - 1].Tick? then acts[|acts| - 1].to
    else LastTick(acts[..|acts| - 1])
  }

  ghost function BegunAt(c: Config, acts: seq<Act>, p: nat): Option<int> {
    if acts == [] then None
    else if acts[|acts| - 1] == Begin(p) then Some(Before(c, acts, |acts| - 1).clock)
    else BegunAt(c, acts[..|acts| - 1], p)
  }

  ghost predicate ItemsAre(c: Config, acts: seq<Act>, w: World) {
    forall item :: (if item in w.items then Some(w.items[item]) else None) == LastItem(c, acts, item)
  }

  ghost predicate RefreshersAre(c: Config, acts: seq<Act>, w: World) {
    forall p: nat :: (if p in w.refreshers then Some(w.refreshers[p].start) else None) == BegunAt(c, acts, p)
  }

  lemma ItemsStep(c: Config, acts: seq<Act>, w: World, a: Act)
    requires Enabled(c, w, a) && Before(c, acts + [a], |acts|) == w && ItemsAre(c, acts, w)
    ensures ItemsAre(c, acts + [a], Next(c, w, a))
  {
    var longer, t := acts + [a], Next(c, w, a);
    assert longer[..|longer| - 1] == acts && longer[|acts|] == a;
    hide Before;
    assert ItemWritten(c, longer, |acts|) ==
           if a.Do? && a.op.SaveItem? && a.op.effect
           then Some((c.listing(w.refreshers[a.p].phase.version)[w.refreshers[a.p].phase.saved],
                      w.refreshers[a.p].phase.version))
           else None;
    hide ItemWritten, Advance;
  }

  lemma MarksAfter(c: Config, w: World, a: Act)
    requires Enabled(c, w, a)
    ensures Next(c, w, a).etag ==
            if a.Do? && a.op.SaveTag? && a.op.effect then Some(w.refreshers[a.p].phase.version) else w.etag
    ensures Next(c, w, a).stamp ==
            if a.Do? && a.op.SaveStamp? && a.op.effect then Some(w.clock) else w.stamp
  {
    hide Advance;
  }

  lemma TagStep(c: Config, acts: seq<Act>, w: World, a: Act)
    requires Enabled(c, w, a) && Before(c, acts + [a], |acts|) == w
    requires w.etag == LastTag(c, acts) && w.stamp == LastStamp(c, acts)
    ensures Next(c, w, a).etag == LastTag(c, acts + [a]) && Next(c, w, a).stamp == LastStamp(c, acts + [a])
  {
    var longer := acts + [a];
    assert longer[..|longer| - 1] == acts && longer[|acts|] == a;
    hide Before;
    assert TagWritten(c, longer, |acts|) ==
           if a.Do? && a.op.SaveTag? && a.op.effect then Some(w.refreshers[a.p].phase.version) else None;
    assert StampWritten(c, longer, |acts|) ==
           if a.Do? && a.op.SaveStamp? && a.op.effect then Some(w.clock) else None;
    MarksAfter(c, w, a);
    hide TagWritten, StampWritten, Next, Enabled;
  }

  lemma RefreshersStep(c: Config, acts: seq<Act>, w: World, a: Act)
    requires Enabled(c, w, a) && Before(c, acts + [a], |acts|) == w && RefreshersAre(c, acts, w)
    ensures RefreshersAre(c, acts + [a], Next(c, w, a))
  {
    var longer := acts + [a];
    assert longer[..|longer| - 1] == acts && longer[|acts|] == a;
    hide Before, Advance;
  }

  /** Redis holds exactly what the last write of each key wrote, if it took effect, whatever Redis said
      about it; the server's version counts its publications; and a refresher exists from its begin. */
  lemma {:induction false} StoreIsAsWritten(c: Config, acts: seq<Act>)
    requires Runs(c, START, acts)
    ensures var w := End(c, START, acts);
            && ItemsAre(c, acts, w) && RefreshersAre(c, acts, w)
            && w.etag == LastTag(c, acts) && w.stamp == LastStamp(c, acts)
            && w.version == Publications(acts) && w.clock == LastTick(acts)
    decreases |acts|
  {
    if acts != [] {
      var init, a := acts[..|acts| - 1], acts[|acts| - 1];
      RunsSplit(c, START, acts);
      StoreIsAsWritten(c, init);
      assert init + [a] == acts && acts[..|init|] == init;
      var w := End(c, START, init);
      ItemsStep(c, init, w, a);
      TagStep(c, init, w, a);
      RefreshersStep(c, init, w, a);
      hide ItemsAre, RefreshersAre, Runs, End, LastTag, LastStamp, Before;
    }
  }

  /** A refresher that has crashed or released does nothing any more. */
  lemma {:induction false} OverIsOver(c: Config, w: World, more: seq<Act>, p: nat)
    requires Runs(c, w, more) && p in w.refreshers && w.refreshers[p].phase.Over?
    ensures forall i :: 0 <= i < |more| && more[i].Do? ==> more[i].p != p
    decreases |more|
  {
    if more != [] {
      OverIsOver(c, Next(c, w, more[0]), more[1..], p);
      assert forall i :: 1 <= i < |more| ==> more[i] == more[1..][i - 1];
    }
  }

  lemma CrashIsFinal(c: Config, w: World, more: seq<Act>, p: nat)
    requires Enabled(c, w, Crash(p)) && Runs(c, Next(c, w, Crash(p)), more)
    ensures forall i :: 0 <= i < |more| && more[i].Do? ==> more[i].p != p
  {
    OverIsOver(c, Next(c, w, Crash(p)), more, p);
  }

  // ---- A refresher that is left alone succeeds ---------------------------------------------

  /** In every reachable state whose lock is free, a new refresher can take the lock, store the current
      version with its ETag and the time, and release the lock. */
  lemma RefreshCanComplete(c: Config, w: World, p: nat) returns (u: World)
    requires Reaches(c, w) && !Held(w) && p !in w.refreshers && 0 < c.deadline
    ensures Reaches(c, u) && u.version == w.version && u.clock == w.clock && u.lock == None
    ensures forall i :: 0 <= i < |c.listing(w.version)| ==>
              c.listing(w.version)[i] in u.items && u.items[c.listing(w.version)[i]] == w.version
    ensures forall item :: item !in c.listing(w.version) ==>
              (item in u.items <==> item in w.items) && (item in w.items ==> u.items[item] == w.items[item])
    ensures u.etag == (if c.tagged(w.version) then Some(w.version) else w.etag) && u.stamp == Some(w.clock)
    ensures u.refreshers == w.refreshers[p := Refresher(w.clock, Over)]
  {
    hide Reaches, Effect, Next, Enabled;
    var v := w.version;
    u := BeginsSaving(c, w, p);
    u := SavesAll(c, u, p, v, |c.listing(v)|);
    u := SaysSo(c, u, p, v);
  }

  /** With all items stored, the ETag and the time follow, and the lock is released. */
  lemma SaysSo(c: Config, t: World, p: nat, v: nat) returns (u: World)
    requires Reaches(c, t) && p in t.refreshers && Alive(c, t, p)
    requires t.refreshers[p].phase == Saving(v, |c.listing(v)|)
    ensures Reaches(c, u)
    ensures u == t.(lock := None, etag := if c.tagged(v) then Some(v) else t.etag, stamp := Some(t.clock),
                    refreshers := t.refreshers[p := t.refreshers[p].(phase := Over)])
  {
    hide Reaches;
    u := On(c, t, Do(p, SaveTag(c.tagged(v), true)));
    u := On(c, u, Do(p, SaveStamp(true, true)));
    u := On(c, u, Do(p, Release(true)));
  }

  lemma {:induction false} SavesAll(c: Config, t: World, p: nat, v: nat, n: nat) returns (u: World)
    requires Reaches(c, t) && p in t.refreshers && Alive(c, t, p)
    requires t.refreshers[p].phase == Saving(v, 0) && n <= |c.listing(v)|
    ensures Reaches(c, u)
    ensures u == t.(items := u.items, refreshers := t.refreshers[p := t.refreshers[p].(phase := Saving(v, n))])
    ensures forall i :: 0 <= i < n ==> c.listing(v)[i] in u.items && u.items[c.listing(v)[i]] == v
    ensures forall item :: item !in c.listing(v)[..n] ==>
              (item in u.items <==> item in t.items) && (item in t.items ==> u.items[item] == t.items[item])
  {
    hide Reaches;
    u := t;
    if n > 0 {
      var before := SavesAll(c, t, p, v, n - 1);
      u := On(c, before, Do(p, SaveItem(true, true)));
      assert c.listing(v)[..n] == c.listing(v)[..n - 1] + [c.listing(v)[n - 1]];
    }
  }

  /** And if the stored ETag is that of the current version, one that is told so is done. */
  lemma UnchangedCanComplete(c: Config, w: World, p: nat) returns (u: World)
    requires Reaches(c, w) && !Held(w) && p !in w.refreshers && 0 < c.deadline && w.etag == Some(w.version)
    ensures Reaches(c, u)
    ensures u == w.(lock := None, refreshers := w.refreshers[p := Refresher(w.clock, Over)])
  {
    hide Reaches;
    u := On(c, w, Begin(p));
    u := On(c, u, Do(p, TryLock(Took)));
    u := On(c, u, Do(p, ReadTag(u.etag)));
    u := On(c, u, Do(p, Answer(NotModified(w.version))));
    u := On(c, u, Do(p, Release(true)));
  }

  // ---- After the deadline ------------------------------------------------------------------

  /** What is left to a refresher whose context has expired: to be told of failures. */
  predicate Fails(op: Op) {
    match op
    case TryLock(result) => result == LockError(false)
    case ReadTag(tag) => tag == None
    case Answer(reply) => reply == NoReply
    case SaveItem(effect, ok) => !effect && !ok
    case BadItem => true
    case SaveTag(effect, _) => !effect
    case SaveStamp(effect, ok) => !effect && !ok
    case Release(effect) => !effect
  }

  lemma ExpiredOnlyFails(c: Config, w: World, p: nat, op: Op)
    requires p in w.refreshers && w.refreshers[p].start + c.deadline <= w.clock
    ensures Enabled(c, w, Do(p, op)) <==> Fits(c, w.refreshers[p].phase, op) && Fails(op)
    ensures Enabled(c, w, Do(p, op)) ==>
              Next(c, w, Do(p, op)) == w.(refreshers := Next(c, w, Do(p, op)).refreshers)
  {
  }

  /** A context of 15 s and a lock of 5 minutes, as both refreshes have them. */
  predicate AsInTheCode(c: Config) {
    c.deadline == 15_000 && c.ttl == 300_000
  }

  /** With these times, in every run: one writer at most, which writes within 15 s of its begin; a lock
      that is gone 5 minutes after its SetNX; an ETag that vouches for its items. */
  lemma TimesOfTheCode(c: Config, acts: seq<Act>, p: nat)
    requires AsInTheCode(c) && Runs(c, START, acts)
    ensures var w := End(c, START, acts);
            && OneWriter(c, w) && ETagIsSound(c, w)
            && (CanWrite(c, w, p) ==> w.clock < w.refreshers[p].start + 15_000)
            && (Held(w) <==> exists j, q :: SetsLock(acts, j, q) && w.clock < Before(c, acts, j).clock + 300_000 &&
                                            KeptByItsOwner(acts, j, q))
  {
    OneWriterIff(c);
    ETagSoundIff(c);
    LockHeldIffOwn(c, acts);
    hide OneWriter, ETagIsSound, KeptByItsOwner, SetsLock, Before;
  }
}
