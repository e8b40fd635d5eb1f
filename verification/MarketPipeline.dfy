/** The market-price pipeline of legacy/apiServer/endpoints/marketPrices.go: one goroutine per ID,
    at most five fetching at a time, sends what it finds in Redis to one channel and the IDs it does
    not find to a second; a handler turns those into results on a third; a collector receives from
    the first and the third, once per ID, in any order.  IDs are named by their position.

    A channel is everything ever sent on it and the number of receives, so its buffer holds the
    difference. */
module MarketPipeline {

  const MAX_WORKERS: nat := 5

  datatype Worker = Unspawned | Fetching | Sent | Released | Done

  datatype Handler = Idle | Holding(id: nat) | Closed

  datatype World = World(
    workers: seq<Worker>, next: nat, sem: nat,
    db: seq<nat>, dbRead: nat,
    miss: seq<nat>, missRead: nat, missClosed: bool,
    handler: Handler, final: seq<nat>, finRead: nat,
    results: seq<nat>, turns: nat)

  datatype Event =
    | Spawn | Send(i: nat) | FreeSlot(i: nat) | WorkerDone(i: nat) | CloseMissing
    | TakeMissing | SendFinal | CloseFinal
    | CollectDb | CollectFinal | CollectClosed

  /** `found[i]`: ID number i is in Redis. */
  function Start(found: seq<bool>): World {
    World(seq(|found|, _ => Unspawned), 0, 0, [], 0, [], 0, false, Idle, [], 0, [], 0)
  }

  predicate Room(sent: seq<nat>, read: nat, capacity: nat) {
    |sent| < read + capacity
  }

  predicate Is(w: World, i: nat, x: Worker) {
    i < |w.workers| && w.workers[i] == x
  }

  predicate Enabled(found: seq<bool>, w: World, e: Event) {
    match e
    case Spawn => w.next < |w.workers| && w.sem < MAX_WORKERS
    case Send(i) =>
      Is(w, i, Fetching) && i < |found| &&
      if found[i] then Room(w.db, w.dbRead, |found|) else Room(w.miss, w.missRead, |found|) && !w.missClosed
    case FreeSlot(i) => Is(w, i, Sent) && w.sem > 0
    case WorkerDone(i) => Is(w, i, Released)
    case CloseMissing => !w.missClosed && forall i :: 0 <= i < |w.workers| ==> w.workers[i] == Done
    case TakeMissing => w.handler.Idle? && w.missRead < |w.miss|
    case SendFinal => w.handler.Holding? && Room(w.final, w.finRead, |found|)
    case CloseFinal => w.handler.Idle? && w.missClosed && w.missRead >= |w.miss|
    case CollectDb => w.turns < |found| && w.dbRead < |w.db|
    case CollectFinal => w.turns < |found| && w.finRead < |w.final|
    case CollectClosed => w.turns < |found| && w.finRead >= |w.final| && w.handler.Closed?
  }

  function Next(found: seq<bool>, w: World, e: Event): World
    requires Enabled(found, w, e)
  {
    match e
    case Spawn => w.(workers := w.workers[w.next := Fetching], next := w.next + 1, sem := w.sem + 1)
    case Send(i) =>
      var v := w.(workers := w.workers[i := Sent]);
      if found[i] then v.(db := w.db + [i]) else v.(miss := w.miss + [i])
    case FreeSlot(i) => w.(workers := w.workers[i := Released], sem := w.sem - 1)
    case WorkerDone(i) => w.(workers := w.workers[i := Done])
    case CloseMissing => w.(missClosed := true)
    case TakeMissing => w.(handler := Holding(w.miss[w.missRead]), missRead := w.missRead + 1)
    case SendFinal => w.(handler := Idle, final := w.final + [w.handler.id])
    case CloseFinal => w.(handler := Closed)
    case CollectDb => w.(results := w.results + [w.db[w.dbRead]], dbRead := w.dbRead + 1, turns := w.turns + 1)
    case CollectFinal =>
      w.(results := w.results + [w.final[w.finRead]], finRead := w.finRead + 1, turns := w.turns + 1)
    case CollectClosed => w.(turns := w.turns + 1)
  }

  ghost predicate Runs(found: seq<bool>, w: World, es: seq<Event>)
    decreases |es|
  {
    es == [] || (Enabled(found, w, es[0]) && Runs(found, Next(found, w, es[0]), es[1..]))
  }

  ghost function End(found: seq<bool>, w: World, es: seq<Event>): World
    requires Runs(found, w, es)
    decreases |es|
  {
    if es == [] then w else End(found, Next(found, w, es[0]), es[1..])
  }

  // ---- Counting workers --------------------------------------------------------------------

  const HOLDING: set<Worker> := {Fetching, Sent}
  const PAST: set<Worker> := {Sent, Released, Done}

  function Count(ws: seq<Worker>, kinds: set<Worker>): nat {
    if ws == [] then 0 else (if ws[0] in kinds then 1 else 0) + Count(ws[1..], kinds)
  }

  lemma {:induction false} CountUpdate(ws: seq<Worker>, i: nat, x: Worker, kinds: set<Worker>)
    requires i < |ws|
    ensures Count(ws[i := x], kinds) ==
            Count(ws, kinds) + (if x in kinds then 1 else 0) - (if ws[i] in kinds then 1 else 0)
  {
    if i == 0 {
      assert ws[0 := x][1..] == ws[1..];
    } else {
      assert ws[i := x][1..] == ws[1..][i - 1 := x];
      CountUpdate(ws[1..], i - 1, x, kinds);
    }
  }

  lemma {:induction false} CountAll(ws: seq<Worker>, kinds: set<Worker>)
    ensures Count(ws, kinds) <= |ws|
    ensures Count(ws, kinds) == |ws| <==> forall i :: 0 <= i < |ws| ==> ws[i] in kinds
  {
    if ws != [] {
      CountAll(ws[1..], kinds);
      assert forall i :: 0 < i < |ws| ==> ws[i] == ws[1..][i - 1];
      assert forall i :: 0 <= i < |ws| - 1 ==> ws[1..][i] == ws[i + 1];
    }
  }

  lemma {:induction false} CountNone(ws: seq<Worker>, kinds: set<Worker>)
    ensures Count(ws, kinds) == 0 <==> forall i :: 0 <= i < |ws| ==> ws[i] !in kinds
  {
    if ws != [] {
      CountNone(ws[1..], kinds);
      assert forall i :: 0 < i < |ws| ==> ws[i] == ws[1..][i - 1];
      assert forall i :: 0 <= i < |ws| - 1 ==> ws[1..][i] == ws[i + 1];
    }
  }

  // ---- The invariant -----------------------------------------------------------------------

  ghost predicate Distinct(s: seq<nat>) {
    forall i, j :: 0 <= i < j < |s| ==> s[i] != s[j]
  }

  /** At most five slots are taken, one by each worker between its start and its release. */
  ghost predicate WorkersInv(found: seq<bool>, w: World) {
    && |w.workers| == |found| && w.next <= |found|
    && (forall i :: 0 <= i < |found| ==> (w.workers[i].Unspawned? <==> i >= w.next))
    && w.sem == Count(w.workers, HOLDING) <= MAX_WORKERS
    && |w.db| + |w.miss| == Count(w.workers, PAST)
    && (w.missClosed ==> forall i :: 0 <= i < |found| ==> w.workers[i] == Done)
  }

  /** A worker past its send has sent its ID on the one channel that fits, once. */
  ghost predicate SentInv(found: seq<bool>, w: World) {
    && |w.workers| == |found|
    && (forall i: nat :: i in w.db ==> i < |found| && found[i] && w.workers[i] in PAST)
    && (forall i: nat :: i in w.miss ==> i < |found| && !found[i] && w.workers[i] in PAST)
    && (forall i :: 0 <= i < |found| && w.workers[i] in PAST ==> if found[i] then i in w.db else i in w.miss)
    && Distinct(w.db) && Distinct(w.miss)
  }

  ghost predicate HandlerInv(w: World) {
    && w.missRead <= |w.miss| && |w.final| <= |w.miss|
    && w.final == w.miss[..|w.final|]
    && w.missRead == |w.final| + (if w.handler.Holding? then 1 else 0)
    && (w.handler.Holding? ==> w.handler.id == w.miss[|w.final|])
    && (w.handler.Closed? ==> w.missClosed && |w.final| == |w.miss|)
  }

  /** The collector has reported each ID it received, once; a turn brought no result only after the
      handler had closed its channel and everything on it had been received. */
  ghost predicate CollectorInv(found: seq<bool>, w: World) {
    && w.dbRead <= |w.db| && w.finRead <= |w.final|
    && |w.results| == w.dbRead + w.finRead <= w.turns <= |found|
    && (|w.results| < w.turns ==> w.handler.Closed? && w.finRead == |w.final|)
    && Distinct(w.results)
    && (forall r :: r in w.results ==> r in w.db[..w.dbRead] || r in w.final[..w.finRead])
  }

  ghost predicate Inv(found: seq<bool>, w: World) {
    WorkersInv(found, w) && SentInv(found, w) && HandlerInv(w) && CollectorInv(found, w)
  }

  lemma WorkersKept(found: seq<bool>, w: World, e: Event)
    requires WorkersInv(found, w) && Enabled(found, w, e)
    ensures WorkersInv(found, Next(found, w, e))
  {
    hide Count;
    if e.Spawn? {
      CountUpdate(w.workers, w.next, Fetching, HOLDING);
      CountUpdate(w.workers, w.next, Fetching, PAST);
    } else if e.Send? {
      CountUpdate(w.workers, e.i, Sent, HOLDING);
      CountUpdate(w.workers, e.i, Sent, PAST);
    } else if e.FreeSlot? {
      CountUpdate(w.workers, e.i, Released, HOLDING);
      CountUpdate(w.workers, e.i, Released, PAST);
    } else if e.WorkerDone? {
      CountUpdate(w.workers, e.i, Done, HOLDING);
      CountUpdate(w.workers, e.i, Done, PAST);
    }
  }

  lemma SentKept(found: seq<bool>, w: World, e: Event)
    requires SentInv(found, w) && Enabled(found, w, e)
    requires e.Spawn? ==> w.workers[w.next].Unspawned?
    ensures SentInv(found, Next(found, w, e))
  {
  }

  lemma HandlerKept(found: seq<bool>, w: World, e: Event)
    requires HandlerInv(w) && Enabled(found, w, e)
    ensures HandlerInv(Next(found, w, e))
  {
    var t := Next(found, w, e);
    if e.Send? {
      assert t.miss[..|t.final|] == w.miss[..|w.final|];
    }
  }

  lemma CollectorKept(found: seq<bool>, w: World, e: Event)
    requires Inv(found, w) && Enabled(found, w, e)
    ensures CollectorInv(found, Next(found, w, e))
  {
    hide WorkersInv;
    var t := Next(found, w, e);
    match e
    case CollectDb =>
      var x := w.db[w.dbRead];
      assert x !in w.db[..w.dbRead] && x in w.db;
      assert t.db[..t.dbRead] == w.db[..w.dbRead] + [x];
    case CollectFinal =>
      var x := w.final[w.finRead];
      assert x == w.miss[w.finRead] && x in w.miss;
      assert x !in w.final[..w.finRead];
      assert t.final[..t.finRead] == w.final[..w.finRead] + [x];
    case Send(i) => assert t.db[..t.dbRead] == w.db[..w.dbRead];
    case SendFinal => assert t.final[..t.finRead] == w.final[..w.finRead];
    case _ =>
  }

  lemma NextKeepsInv(found: seq<bool>, w: World, e: Event)
    requires Inv(found, w) && Enabled(found, w, e)
    ensures Inv(found, Next(found, w, e))
  {
    WorkersKept(found, w, e);
    SentKept(found, w, e);
    HandlerKept(found, w, e);
    CollectorKept(found, w, e);
  }

  lemma StartGood(found: seq<bool>)
    ensures Inv(found, Start(found))
  {
    CountNone(Start(found).workers, HOLDING);
    CountNone(Start(found).workers, PAST);
  }

  lemma {:induction false} RunKeepsInv(found: seq<bool>, w: World, es: seq<Event>)
    requires Inv(found, w) && Runs(found, w, es)
    ensures Inv(found, End(found, w, es))
    decreases |es|
  {
    if es != [] {
      NextKeepsInv(found, w, es[0]);
      hide Inv, Enabled, Next;
      RunKeepsInv(found, Next(found, w, es[0]), es[1..]);
    }
  }

  // ---- Safety ------------------------------------------------------------------------------

  /** In every reachable state: whoever is about to send finds room; at most five workers fetch; each
      ID past its send is on exactly the channel it belongs on; and the collector has reported no ID
      twice, and loses at most as many as were found in Redis. */
  lemma PipelineSafe(found: seq<bool>, es: seq<Event>)
    requires Runs(found, Start(found), es)
    ensures var w := End(found, Start(found), es);
            && (forall i :: 0 <= i < |w.workers| && w.workers[i] == Fetching ==>
                  Enabled(found, w, Send(i)) &&
                  if found[i] then |w.db| - w.dbRead < |found|
                  else |w.miss| - w.missRead < |found| && !w.missClosed)
            && (w.handler.Holding? ==> Enabled(found, w, SendFinal) && |w.final| - w.finRead < |found|)
            && Count(w.workers, {Fetching}) <= 5
            && |w.workers| == |found|
            && (forall i :: 0 <= i < |found| && w.workers[i] in PAST ==>
                  (i in w.db <==> found[i]) && (i in w.miss <==> !found[i]))
            && Distinct(w.db) && Distinct(w.miss) && Distinct(w.results)
            && |w.results| + |w.db| >= w.turns
  {
    StartGood(found);
    RunKeepsInv(found, Start(found), es);
    var w := End(found, Start(found), es);
    CountFewer(w.workers);
    CountAll(w.workers, PAST);
    hide Distinct;
    if |w.results| < w.turns {
      ClosedMeansAllSent(found, w);
    }
  }

  lemma {:induction false} CountFewer(ws: seq<Worker>)
    ensures Count(ws, {Fetching}) <= Count(ws, HOLDING)
  {
    if ws != [] {
      CountFewer(ws[1..]);
    }
  }

  /** Once the handler has closed, every ID is on one of the two channels. */
  lemma ClosedMeansAllSent(found: seq<bool>, w: World)
    requires Inv(found, w) && w.handler.Closed?
    ensures |w.db| + |w.final| == |found|
  {
    CountAll(w.workers, PAST);
  }

  // ---- Progress ----------------------------------------------------------------------------

  predicate Finished(found: seq<bool>, w: World) {
    w.turns == |found| && w.handler.Closed?
  }

  predicate Collects(e: Event) {
    e.CollectDb? || e.CollectFinal? || e.CollectClosed?
  }

  /** Until the handler has closed there is a step that does not depend on the collector. */
  lemma ProducersMove(found: seq<bool>, w: World) returns (e: Event)
    requires Inv(found, w) && !w.handler.Closed?
    ensures Enabled(found, w, e) && !Collects(e)
  {
    CountAll(w.workers, PAST);
    CountNone(w.workers, HOLDING);
    hide SentInv, CollectorInv, Count;
    if i: nat :| i < |w.workers| && w.workers[i] == Fetching {
      e := Send(i);
    } else if i: nat :| i < |w.workers| && w.workers[i] == Sent {
      e := FreeSlot(i);
    } else if i: nat :| i < |w.workers| && w.workers[i] == Released {
      e := WorkerDone(i);
    } else if w.next < |found| {
      e := Spawn;
    } else if !w.missClosed {
      e := CloseMissing;
    } else {
      e := if w.handler.Holding? then SendFinal else if w.missRead < |w.miss| then TakeMissing else CloseFinal;
    }
  }

  /** No reachable state is stuck before the collector has had its turn for every ID. */
  lemma NeverStuck(found: seq<bool>, es: seq<Event>)
    requires Runs(found, Start(found), es)
    ensures var w := End(found, Start(found), es);
            Finished(found, w) || exists e: Event :: Enabled(found, w, e)
  {
    StartGood(found);
    RunKeepsInv(found, Start(found), es);
    var w := End(found, Start(found), es);
    if !w.handler.Closed? {
      var e := ProducersMove(found, w);
    } else if w.turns < |found| {
      var e := if w.finRead < |w.final| then CollectFinal else CollectClosed;
      assert Enabled(found, w, e);
    }
  }

  function StepsLeft(ws: seq<Worker>): nat {
    if ws == [] then 0
    else
      (match ws[0] case Unspawned => 4 case Fetching => 3 case Sent => 2 case Released => 1 case Done => 0) +
      StepsLeft(ws[1..])
  }

  lemma {:induction false} StepsLeftUpdate(ws: seq<Worker>, i: nat, x: Worker)
    requires i < |ws|
    ensures StepsLeft(ws[i := x]) - StepsLeft([x]) == StepsLeft(ws) - StepsLeft([ws[i]])
  {
    if i == 0 {
      assert ws[0 := x][1..] == ws[1..];
    } else {
      assert ws[i := x][1..] == ws[1..][i - 1 := x];
      StepsLeftUpdate(ws[1..], i - 1, x);
    }
  }

  /** The number of steps any run can still take. */
  ghost function Rank(found: seq<bool>, w: World): int {
    StepsLeft(w.workers) + (if w.missClosed then 0 else 1) + (|found| - w.missRead) + (|found| - |w.final|) +
    (if w.handler.Closed? then 0 else 1) + (|found| - w.turns)
  }

  lemma RankNonNegative(found: seq<bool>, w: World)
    requires Inv(found, w)
    ensures Rank(found, w) >= 0
  {
    CountAll(w.workers, PAST);
  }

  lemma RankDrops(found: seq<bool>, w: World, e: Event)
    requires Enabled(found, w, e) && (e.Spawn? ==> w.workers[w.next].Unspawned?)
    ensures Rank(found, Next(found, w, e)) == Rank(found, w) - 1
  {
    StepsLeftOne();
    hide StepsLeft;
    match e
    case Spawn => StepsLeftUpdate(w.workers, w.next, Fetching);
    case Send(i) => StepsLeftUpdate(w.workers, i, Sent);
    case FreeSlot(i) => StepsLeftUpdate(w.workers, i, Released);
    case WorkerDone(i) => StepsLeftUpdate(w.workers, i, Done);
    case _ =>
  }

  /** Every step, of whatever thread, uses up one: no run is infinite. */
  lemma StepDescends(found: seq<bool>, w: World, e: Event)
    requires Inv(found, w) && Enabled(found, w, e)
    ensures Inv(found, Next(found, w, e))
    ensures 0 <= Rank(found, Next(found, w, e)) == Rank(found, w) - 1
  {
    NextKeepsInv(found, w, e);
    RankNonNegative(found, Next(found, w, e));
    RankDrops(found, w, e);
    hide SentInv, CollectorInv, HandlerInv, Rank, Next;
  }

  lemma StepsLeftOne()
    ensures StepsLeft([Unspawned]) == 4 && StepsLeft([Fetching]) == 3 && StepsLeft([Sent]) == 2
    ensures StepsLeft([Released]) == 1 && StepsLeft([Done]) == 0
  {
  }

  // ---- When every ID is reported -----------------------------------------------------------

  lemma {:induction false} RunsConcat(found: seq<bool>, w: World, a: seq<Event>, b: seq<Event>)
    requires Runs(found, w, a) && Runs(found, End(found, w, a), b)
    ensures Runs(found, w, a + b) && End(found, w, a + b) == End(found, End(found, w, a), b)
    decreases |a|
  {
    if a == [] {
      assert a + b == b;
    } else {
      assert (a + b)[0] == a[0] && (a + b)[1..] == a[1..] + b;
      RunsConcat(found, Next(found, w, a[0]), a[1..], b);
    }
  }

  /** The collector waits until the handler has closed. */
  lemma {:induction false} DriveProducers(found: seq<bool>, w: World) returns (es: seq<Event>)
    requires Inv(found, w)
    ensures Runs(found, w, es)
    ensures var t := End(found, w, es);
            && Inv(found, t) && t.handler.Closed?
            && t.turns == w.turns && t.dbRead == w.dbRead && t.finRead == w.finRead
    decreases Rank(found, w)
  {
    if w.handler.Closed? {
      es := [];
    } else {
      RankNonNegative(found, w);
      var e := ProducersMove(found, w);
      StepDescends(found, w, e);
      var t := Next(found, w, e);
      assert t.turns == w.turns && t.dbRead == w.dbRead && t.finRead == w.finRead;
      hide Inv, Rank, Enabled, Next;
      var rest := DriveProducers(found, t);
      es := [e] + rest;
      assert es[1..] == rest;
    }
  }

  /** Then it happens to receive from the handler's channel only. */
  lemma {:induction false} DriveCollector(found: seq<bool>, w: World) returns (es: seq<Event>)
    requires Inv(found, w) && w.handler.Closed?
    ensures Runs(found, w, es)
    ensures var t := End(found, w, es);
            && Inv(found, t) && t.turns == |found| && t.handler.Closed?
            && t.dbRead == w.dbRead && t.final == w.final && t.db == w.db
    decreases |found| - w.turns
  {
    if w.turns == |found| {
      es := [];
    } else {
      var e := if w.finRead < |w.final| then CollectFinal else CollectClosed;
      NextKeepsInv(found, w, e);
      var t := Next(found, w, e);
      assert t.turns == w.turns + 1 && t.dbRead == w.dbRead && t.final == w.final && t.db == w.db;
      assert t.handler == w.handler;
      hide Inv, Enabled, Next;
      var rest := DriveCollector(found, t);
      es := [e] + rest;
      assert es[1..] == rest;
    }
  }

  /** One found ID is enough for a schedule that loses it. */
  lemma SomeScheduleLoses(found: seq<bool>, i: nat) returns (es: seq<Event>)
    requires i < |found| && found[i]
    ensures Runs(found, Start(found), es)
    ensures var w := End(found, Start(found), es);
            Finished(found, w) && |w.results| < |found|
  {
    var s := Start(found);
    StartGood(found);
    var first := DriveProducers(found, s);
    var u := End(found, s, first);
    var second := DriveCollector(found, u);
    RunsConcat(found, s, first, second);
    es := first + second;
    var w := End(found, u, second);
    ClosedMeansAllSent(found, w);
    assert w.workers[i] == Done;
    assert i in w.db;
  }

  lemma NothingFoundNothingLost(found: seq<bool>, w: World)
    requires Inv(found, w) && (forall i :: 0 <= i < |found| ==> !found[i]) && w.turns == |found|
    ensures |w.results| == |found|
  {
    assert w.db != [] ==> w.db[0] in w.db;
    if |w.results| < w.turns {
      ClosedMeansAllSent(found, w);
    }
  }

  /** Every schedule reports every ID exactly when none of the IDs is in Redis: as soon as one is, the
      collector may spend its turn on the closed channel instead. */
  lemma AllReportedIff(found: seq<bool>)
    ensures (forall es | Runs(found, Start(found), es) && Finished(found, End(found, Start(found), es)) ::
               |End(found, Start(found), es).results| == |found|)
            <==> (forall i :: 0 <= i < |found| ==> !found[i])
  {
    if forall i :: 0 <= i < |found| ==> !found[i] {
      forall es | Runs(found, Start(found), es) && Finished(found, End(found, Start(found), es))
        ensures |End(found, Start(found), es).results| == |found|
      {
        StartGood(found);
        RunKeepsInv(found, Start(found), es);
        NothingFoundNothingLost(found, End(found, Start(found), es));
      }
    } else {
      var i: nat :| i < |found| && found[i];
      var es := SomeScheduleLoses(found, i);
    }
  }
}
