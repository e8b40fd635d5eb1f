/** How many tokens one limiter can record locally in any 15 minutes when up to k requests are
    between their check and their recording.  Checks are atomic; responses may be recorded late and
    out of the order of their time stamps. */
module WindowBound {
  import opened TokenWindow

  /** A request that was admitted and is not recorded yet. */
  datatype Pending = Sent | Answered(resp: Response, stamp: int)

  /** `foreign` are the responses in the history whose requests were checked on another limiter. */
  datatype World = World(
    clock: int, lim: Limiter, history: seq<Arrival>, foreign: seq<Arrival>, pending: seq<Pending>)

  /** Record and Clean may use a clock reading that is out of date when they take the lock.  When a
      response names another group than the one its request was checked in, it is dropped here and
      recorded there, as Foreign. */
  datatype Act =
    | Tick(to: int)
    | Admit
    | Answer(i: nat, resp: Response)
    | Record(i: nat, clean: int)
    | Drop(i: nat)
    | Foreign(resp: Response, stamp: int, clean: int)
    | Clean(clean: int)

  datatype Setup = Setup(limit: int, k: nat, group: string)

  function Begin(c: Setup, start: int): World {
    World(start, NewLimiter(c.limit, start), [], [], [])
  }

  /** The responses leave the limit as it is. */
  predicate KeepsLimit(resp: Response, limit: int) {
    resp.limit.Num? && resp.limit.n > 0 ==> resp.limit.n == limit
  }

  predicate Enabled(c: Setup, w: World, a: Act) {
    match a
    case Tick(to) => w.clock <= to
    case Admit =>
      && |w.pending| < c.k
      && Decide(Cleaned(w.lim, w.clock), c.group, ESTIMATED_TOKENS, w.clock, w.clock).Admitted?
    case Answer(i, resp) => i < |w.pending| && w.pending[i].Sent? && KeepsLimit(resp, c.limit)
    case Record(i, clean) => i < |w.pending| && w.pending[i].Answered? && clean <= w.clock
    case Drop(i) => i < |w.pending|
    case Foreign(resp, stamp, clean) => KeepsLimit(resp, c.limit) && stamp <= w.clock && clean <= w.clock
    case Clean(clean) => clean <= w.clock
  }

  function Without(pending: seq<Pending>, i: nat): seq<Pending>
    requires i < |pending|
  {
    pending[..i] + pending[i + 1..]
  }

  function Next(c: Setup, w: World, a: Act): World
    requires Enabled(c, w, a)
  {
    match a
    case Tick(to) => w.(clock := to)
    case Admit => w.(lim := Cleaned(w.lim, w.clock), pending := w.pending + [Sent])
    case Answer(i, resp) => w.(pending := w.pending[i := Answered(resp, w.clock)])
    case Record(i, clean) =>
      var p := w.pending[i];
      w.(lim := Updated(w.lim, p.resp, Cost(p.resp.status), p.stamp, clean),
         history := w.history + [Arrival(p.resp, p.stamp)],
         pending := Without(w.pending, i))
    case Drop(i) => w.(pending := Without(w.pending, i))
    case Foreign(resp, stamp, clean) =>
      w.(lim := Updated(w.lim, resp, Cost(resp.status), stamp, clean),
         history := w.history + [Arrival(resp, stamp)],
         foreign := w.foreign + [Arrival(resp, stamp)])
    case Clean(clean) => w.(lim := Cleaned(w.lim, clean))
  }

  ghost predicate Runs(c: Setup, w: World, acts: seq<Act>)
    decreases |acts|
  {
    acts == [] || (Enabled(c, w, acts[0]) && Runs(c, Next(c, w, acts[0]), acts[1..]))
  }

  ghost function End(c: Setup, w: World, acts: seq<Act>): World
    requires Runs(c, w, acts)
    decreases |acts|
  {
    if acts == [] then w else End(c, Next(c, w, acts[0]), acts[1..])
  }

  /** The tokens recorded with a time stamp in (from, from + 15 min]. */
  function Spent(log: seq<Consumption>, from: int): int {
    if log == [] then 0
    else
      var last := log[|log| - 1];
      Spent(log[..|log| - 1], from) + if from < last.consumed <= from + WINDOW then last.tokens else 0
  }

  /** Every entry counts, once, for the 15 minutes after `from`. */
  lemma SpentOne(c: Consumption, from: int)
    ensures Spent([c], from) == if from < c.consumed <= from + 900_000_000_000 then c.tokens else 0
  {
    assert Spent([c][..0], from) == 0;
  }

  lemma {:induction false} SpentConcat(a: seq<Consumption>, b: seq<Consumption>, from: int)
    ensures Spent(a + b, from) == Spent(a, from) + Spent(b, from)
  {
    if b == [] {
      assert a + b == a;
    } else {
      assert (a + b)[..|a + b| - 1] == a + b[..|b| - 1];
      SpentConcat(a, b[..|b| - 1], from);
    }
  }

  /** The most that pending requests can still add to that window. */
  function Threat(pending: seq<Pending>, from: int, clock: int): int {
    if pending == [] then 0
    else
      var p := pending[0];
      (match p
       case Sent => if clock <= from + WINDOW then 5 else 0
       case Answered(resp, stamp) => if from < stamp <= from + WINDOW then Cost(resp.status) else 0) +
      Threat(pending[1..], from, clock)
  }

  lemma {:induction false} ThreatBounds(pending: seq<Pending>, from: int, clock: int)
    ensures 0 <= Threat(pending, from, clock) <= 5 * |pending|
  {
    if pending != [] {
      ThreatBounds(pending[1..], from, clock);
    }
  }

  lemma {:induction false} ThreatConcat(a: seq<Pending>, b: seq<Pending>, from: int, clock: int)
    ensures Threat(a + b, from, clock) == Threat(a, from, clock) + Threat(b, from, clock)
  {
    if a == [] {
      assert a + b == b;
    } else {
      assert (a + b)[1..] == a[1..] + b;
      ThreatConcat(a[1..], b, from, clock);
    }
  }

  lemma {:induction false} ThreatFades(pending: seq<Pending>, from: int, clock: int, later: int)
    requires clock <= later
    ensures Threat(pending, from, later) <= Threat(pending, from, clock)
  {
    if pending != [] {
      ThreatFades(pending[1..], from, clock, later);
    }
  }

  /** Splitting one request off. */
  lemma ThreatAt(pending: seq<Pending>, i: nat, from: int, clock: int)
    requires i < |pending|
    ensures Threat(pending, from, clock) ==
            Threat(Without(pending, i), from, clock) + Threat([pending[i]], from, clock)
  {
    assert pending == pending[..i] + ([pending[i]] + pending[i + 1..]);
    ThreatConcat(pending[..i], [pending[i]] + pending[i + 1..], from, clock);
    ThreatConcat([pending[i]], pending[i + 1..], from, clock);
    ThreatConcat(pending[..i], pending[i + 1..], from, clock);
  }

  lemma {:induction false} SpentWithinWindow(log: seq<Consumption>, from: int, at: int)
    requires NonNegative(log) && at - WINDOW <= from
    ensures Spent(log, from) <= Total(InWindow(log, at))
  {
    if log != [] {
      var init, last := log[..|log| - 1], log[|log| - 1];
      assert last in log;
      SpentWithinWindow(init, from, at);
      assert log == init + [last];
      InWindowSnoc(init, last, at);
    }
  }

  lemma {:induction false} RecordedNonNegative(history: seq<Arrival>)
    ensures NonNegative(Recorded(history))
  {
    if history != [] {
      RecordedNonNegative(history[..|history| - 1]);
    }
  }

  /** What one response adds to that window. */
  function Gain(a: Arrival, from: int): int {
    if a.resp.remaining.Absent? && from < a.stamp <= from + WINDOW then Cost(a.resp.status) else 0
  }

  lemma SpentSnoc(history: seq<Arrival>, a: Arrival, from: int)
    ensures Spent(Recorded(history + [a]), from) == Spent(Recorded(history), from) + Gain(a, from)
  {
    assert (history + [a])[..|history|] == history;
    var c := Consumption(Cost(a.resp.status), a.stamp);
    assert (Recorded(history) + [c])[..|Recorded(history)|] == Recorded(history);
    assert Recorded(history) + [] == Recorded(history);
  }

  lemma {:induction false} SpentNonNegative(log: seq<Consumption>, from: int)
    requires NonNegative(log)
    ensures Spent(log, from) >= 0
  {
    if log != [] {
      assert log[|log| - 1] in log;
      SpentNonNegative(log[..|log| - 1], from);
    }
  }

  ghost predicate Inv(c: Setup, w: World) {
    && w.lim.limit == c.limit
    && |w.pending| <= c.k
    && (forall p :: p in w.pending && p.Answered? ==> KeepsLimit(p.resp, c.limit))
    && Refines(w.lim, w.history, c.limit, w.clock)
    && Bounded(c, w)
  }

  /** What is recorded in the window after `from`, and what can still be. */
  ghost function Load(w: World, from: int): int {
    Spent(Recorded(w.history), from) + Threat(w.pending, from, w.clock)
  }

  /** The most that window may hold. */
  ghost function Bound(c: Setup, w: World, from: int): int {
    c.limit - 2 + 5 * c.k + Spent(Recorded(w.foreign), from)
  }

  ghost predicate Bounded(c: Setup, w: World) {
    forall from :: Load(w, from) <= Bound(c, w, from)
  }

  lemma AdmitKeepsBound(c: Setup, w: World, from: int)
    requires Inv(c, w) && Enabled(c, w, Admit)
    ensures Load(Next(c, w, Admit), from) <= Bound(c, w, from)
  {
    var t := Next(c, w, Admit);
    ThreatConcat(w.pending, [Sent], from, w.clock);
    if w.clock <= from + WINDOW {
      AdmitsByHistory(w.lim, w.history, c.limit, w.clock, c.group, ESTIMATED_TOKENS, w.clock, w.clock, w.clock);
      RecordedNonNegative(w.history);
      SpentWithinWindow(Recorded(w.history), from, w.clock);
      ThreatBounds(t.pending, from, t.clock);
      RecordedNonNegative(w.foreign);
      SpentNonNegative(Recorded(w.foreign), from);
    } else {
      assert Threat([Sent], from, w.clock) == 0;
      assert Load(w, from) <= Bound(c, w, from);
    }
  }

  lemma OtherKeepsBound(c: Setup, w: World, a: Act, from: int)
    requires Enabled(c, w, a) && !a.Admit?
    ensures Load(Next(c, w, a), from) - Load(w, from) <= Bound(c, Next(c, w, a), from) - Bound(c, w, from)
  {
    var t := Next(c, w, a);
    match a
    case Tick(to) => ThreatFades(w.pending, from, w.clock, to);
    case Answer(i, resp) =>
      ThreatAt(w.pending, i, from, w.clock);
      ThreatAt(t.pending, i, from, w.clock);
      assert Without(t.pending, i) == Without(w.pending, i);
    case Record(i, clean) =>
      ThreatAt(w.pending, i, from, w.clock);
      SpentSnoc(w.history, Arrival(w.pending[i].resp, w.pending[i].stamp), from);
    case Drop(i) =>
      ThreatAt(w.pending, i, from, w.clock);
      ThreatBounds([w.pending[i]], from, w.clock);
    case Foreign(resp, stamp, _) =>
      SpentSnoc(w.history, Arrival(resp, stamp), from);
      SpentSnoc(w.foreign, Arrival(resp, stamp), from);
    case Clean(_) =>
  }

  lemma AgreeLonger(w: World, to: int)
    requires w.clock <= to
    ensures AgreeFrom(w.lim.log, Recorded(w.history), w.clock) ==> AgreeFrom(w.lim.log, Recorded(w.history), to)
  {
  }

  lemma NextRefines(c: Setup, w: World, a: Act)
    requires Inv(c, w) && Enabled(c, w, a)
    ensures var t := Next(c, w, a);
            Refines(t.lim, t.history, c.limit, t.clock)
  {
    hide Bounded, AgreeFrom, Decide, Cleaned, Updated;
    match a {
      case Tick(to) => AgreeLonger(w, to);
      case Admit => CleanedRefines(w.lim, w.history, c.limit, w.clock, w.clock);
      case Answer(i, resp) =>
      case Record(i, clean) =>
        UpdatedRefines(w.lim, w.history, c.limit, w.clock, w.pending[i].resp, w.pending[i].stamp, clean);
      case Drop(i) =>
      case Foreign(resp, stamp, clean) =>
        UpdatedRefines(w.lim, w.history, c.limit, w.clock, resp, stamp, clean);
      case Clean(clean) => CleanedRefines(w.lim, w.history, c.limit, w.clock, clean);
    }
  }

  lemma NextKeepsLimit(c: Setup, w: World, a: Act)
    requires Inv(c, w) && Enabled(c, w, a)
    ensures var t := Next(c, w, a);
            && t.lim.limit == c.limit
            && |t.pending| <= c.k
            && (forall p :: p in t.pending && p.Answered? ==> KeepsLimit(p.resp, c.limit))
  {
    hide Bounded, Refines, Decide, InWindow;
    if a.Record? {
      assert w.pending[a.i] in w.pending;
    }
  }

  lemma NextKeepsInv(c: Setup, w: World, a: Act)
    requires Inv(c, w) && Enabled(c, w, a)
    ensures Inv(c, Next(c, w, a))
  {
    NextRefines(c, w, a);
    NextKeepsLimit(c, w, a);
    forall from
      ensures Load(Next(c, w, a), from) <= Bound(c, Next(c, w, a), from)
    {
      if a.Admit? {
        AdmitKeepsBound(c, w, from);
      } else {
        OtherKeepsBound(c, w, a, from);
        assert Load(w, from) <= Bound(c, w, from);
      }
    }
    hide Load, Bound, Refines, Next, Enabled;
  }

  lemma {:induction false} RunKeepsInv(c: Setup, w: World, acts: seq<Act>)
    requires Inv(c, w) && Runs(c, w, acts)
    ensures Inv(c, End(c, w, acts))
    decreases |acts|
  {
    if acts != [] {
      NextKeepsInv(c, w, acts[0]);
      hide Inv, Enabled, Next;
      RunKeepsInv(c, Next(c, w, acts[0]), acts[1..]);
    }
  }

  /** In every run, every window of 15 minutes holds at most limit - 2 + 5k recorded tokens, and what
      was charged to the limiter in it for requests that had been checked on another one. */
  lemma WindowBounded(c: Setup, start: int, acts: seq<Act>, from: int)
    requires c.limit >= 2 && Runs(c, Begin(c, start), acts)
    ensures var w := End(c, Begin(c, start), acts);
            Spent(Recorded(w.history), from) <= c.limit - 2 + 5 * c.k + Spent(Recorded(w.foreign), from)
  {
    RunKeepsInv(c, Begin(c, start), acts);
    var w := End(c, Begin(c, start), acts);
    assert Load(w, from) <= Bound(c, w, from);
    ThreatBounds(w.pending, from, w.clock);
  }

  // ---- These runs are runs of the limiter --------------------------------------------------

  /** What an act does to the limiter. */
  ghost function OpsOf(w: World, a: Act): seq<Op> {
    match a
    case Admit => [Check(w.clock)]
    case Record(i, clean) =>
      if i < |w.pending| && w.pending[i].Answered?
      then [Respond(w.pending[i].resp, w.pending[i].stamp, clean)] else []
    case Foreign(resp, stamp, clean) => [Respond(resp, stamp, clean)]
    case Clean(clean) => [Check(clean)]
    case _ => []
  }

  ghost function OpsOfRun(c: Setup, w: World, acts: seq<Act>): seq<Op>
    requires Runs(c, w, acts)
    decreases |acts|
  {
    if acts == [] then [] else OpsOf(w, acts[0]) + OpsOfRun(c, Next(c, w, acts[0]), acts[1..])
  }

  function TimeAfter(clock: int, acts: seq<Act>): int
    decreases |acts|
  {
    if acts == [] then clock else TimeAfter(TimeOf(clock, acts[0]), acts[1..])
  }

  function TimeOf(clock: int, a: Act): int {
    if a.Tick? then a.to else clock
  }

  /** How many requests are under way: admitted, and neither recorded nor dropped. */
  function UnderWay(n: int, acts: seq<Act>): int
    decreases |acts|
  {
    if acts == [] then n
    else UnderWay(CountOf(n, acts[0]), acts[1..])
  }

  function CountOf(n: int, a: Act): int {
    match a
    case Admit => n + 1
    case Record(_, _) => n - 1
    case Drop(_) => n - 1
    case _ => n
  }

  lemma {:induction false} PlayConcat(l: Limiter, a: seq<Op>, b: seq<Op>)
    ensures Play(l, a + b) == Play(Play(l, a), b)
    ensures HistoryOf(a + b) == HistoryOf(a) + HistoryOf(b)
  {
    hide Apply;
    if b == [] {
      assert a + b == a;
    } else {
      assert (a + b)[..|a + b| - 1] == a + b[..|b| - 1];
      PlayConcat(l, a, b[..|b| - 1]);
    }
  }

  lemma OnePlayed(c: Setup, w: World, a: Act)
    requires Enabled(c, w, a)
    ensures Next(c, w, a).lim == Play(w.lim, OpsOf(w, a))
    ensures Next(c, w, a).history == w.history + HistoryOf(OpsOf(w, a))
    ensures Next(c, w, a).clock == TimeOf(w.clock, a) && |Next(c, w, a).pending| == CountOf(|w.pending|, a)
  {
    var ops := OpsOf(w, a);
    hide Cleaned, Updated, Decide;
    if ops != [] {
      assert ops[..0] == [] && Play(w.lim, []) == w.lim && HistoryOf([]) == [];
      assert Play(w.lim, ops) == Apply(w.lim, ops[0]);
    }
  }

  lemma JoinPlays(l: Limiter, h: seq<Arrival>, first: seq<Op>, rest: seq<Op>)
    ensures Play(Play(l, first), rest) == Play(l, first + rest)
    ensures (h + HistoryOf(first)) + HistoryOf(rest) == h + HistoryOf(first + rest)
  {
    PlayConcat(l, first, rest);
    hide *;
    assert h + (HistoryOf(first) + HistoryOf(rest)) == (h + HistoryOf(first)) + HistoryOf(rest);
  }

  /** The limiter has gone through exactly the checks and responses of the run. */
  lemma {:induction false} LimiterIsPlayed(c: Setup, w: World, acts: seq<Act>)
    requires Runs(c, w, acts)
    ensures var t, ops := End(c, w, acts), OpsOfRun(c, w, acts);
            t.lim == Play(w.lim, ops) && t.history == w.history + HistoryOf(ops)
    decreases |acts|
  {
    if acts == [] {
      assert w.history + HistoryOf([]) == w.history;
    } else {
      var u := Next(c, w, acts[0]);
      OnePlayed(c, w, acts[0]);
      LimiterIsPlayed(c, u, acts[1..]);
      JoinPlays(w.lim, w.history, OpsOf(w, acts[0]), OpsOfRun(c, u, acts[1..]));
      hide Play, HistoryOf, OpsOf, Next, Enabled;
    }
  }

  /** The clock shows what it was last set to, and the requests under way are those admitted and not
      yet recorded or dropped. */
  lemma {:induction false} WorldIsAsTold(c: Setup, w: World, acts: seq<Act>)
    requires Runs(c, w, acts)
    ensures End(c, w, acts).clock == TimeAfter(w.clock, acts)
    ensures |End(c, w, acts).pending| == UnderWay(|w.pending|, acts)
    decreases |acts|
  {
    if acts != [] {
      OnePlayed(c, w, acts[0]);
      hide Next, Enabled, TimeOf, CountOf;
      WorldIsAsTold(c, Next(c, w, acts[0]), acts[1..]);
    }
  }

  // ---- The bound is exact ------------------------------------------------------------------

  lemma {:induction false} RunsConcat(c: Setup, w: World, a: seq<Act>, b: seq<Act>)
    requires Runs(c, w, a) && Runs(c, End(c, w, a), b)
    ensures Runs(c, w, a + b) && End(c, w, a + b) == End(c, End(c, w, a), b)
    decreases |a|
  {
    if a == [] {
      assert a + b == b;
    } else {
      assert (a + b)[0] == a[0] && (a + b)[1..] == a[1..] + b;
      RunsConcat(c, Next(c, w, a[0]), a[1..], b);
    }
  }

  lemma RunsCons(c: Setup, w: World, a: Act, rest: seq<Act>) returns (acts: seq<Act>)
    requires Enabled(c, w, a) && Runs(c, Next(c, w, a), rest)
    ensures Runs(c, w, acts) && End(c, w, acts) == End(c, Next(c, w, a), rest)
  {
    acts := [a] + rest;
    assert acts[1..] == rest;
    hide Enabled, Next;
  }

  function Plain(status: int): Response {
    Response(status, Absent, Absent, Absent, Absent, "")
  }

  /** Everything so far happened at one instant, and `total` tokens are recorded. */
  ghost predicate Instant(c: Setup, w: World, total: int) {
    && w.clock >= ZERO_TIME
    && w.lim.limit == c.limit
    && w.lim.retryAfter == ZERO_TIME
    && (forall i :: 0 <= i < |w.lim.log| ==> w.lim.log[i].consumed == w.clock)
    && Recorded(w.history) == w.lim.log
    && Total(w.lim.log) == total
  }

  lemma CleanedNow(l: Limiter, clock: int)
    requires forall i :: 0 <= i < |l.log| ==> l.log[i].consumed == clock
    ensures Cleaned(l, clock) == l.(used := Total(l.log), lastUpdate := clock)
  {
    AfterAll(l.log, clock - WINDOW);
  }

  lemma AdmitNow(c: Setup, w: World, total: int)
    requires Instant(c, w, total) && total + 2 <= c.limit && |w.pending| < c.k
    ensures Enabled(c, w, Admit)
    ensures var t := Next(c, w, Admit);
            Instant(c, t, total) && t.pending == w.pending + [Sent] && t.clock == w.clock && t.foreign == w.foreign
  {
    CleanedNow(w.lim, w.clock);
    hide Cleaned, Updated, Total, Recorded, Oldest, Without, Cost;
    assert Decide(Cleaned(w.lim, w.clock), c.group, ESTIMATED_TOKENS, w.clock, w.clock).Admitted?;
    hide Decide;
    assert Next(c, w, Admit) == w.(lim := Cleaned(w.lim, w.clock), pending := w.pending + [Sent]);
    hide Next;
  }

  /** A response without headers, recorded at the instant at which everything else was. */
  lemma UpdatedNow(l: Limiter, clock: int, status: int)
    requires status != TOO_MANY_REQUESTS && forall i :: 0 <= i < |l.log| ==> l.log[i].consumed == clock
    ensures var t := Updated(l, Plain(status), Cost(status), clock, clock);
            && t.limit == l.limit && t.retryAfter == l.retryAfter
            && t.log == l.log + [Consumption(Cost(status), clock)]
            && Total(t.log) == Total(l.log) + Cost(status)
  {
    var t := Updated(l, Plain(status), Cost(status), clock, clock);
    AfterAll(l.log, clock - WINDOW);
    assert t.log == l.log + [Consumption(Cost(status), clock)];
    assert t.log[..|l.log|] == l.log;
  }

  /** Such a response keeps everything at that instant. */
  lemma InstantGrows(c: Setup, w: World, total: int, status: int, t: World)
    requires Instant(c, w, total) && status != TOO_MANY_REQUESTS && t.clock == w.clock
    requires t.lim == Updated(w.lim, Plain(status), Cost(status), w.clock, w.clock)
    requires t.history == w.history + [Arrival(Plain(status), w.clock)]
    ensures Instant(c, t, total + Cost(status))
  {
    RecordedSnoc(w.history, status, w.clock);
    hide Updated, Total, Recorded, Plain, Cost;
    UpdatedNow(w.lim, w.clock, status);
  }

  lemma RecordedSnoc(history: seq<Arrival>, status: int, stamp: int)
    ensures Recorded(history + [Arrival(Plain(status), stamp)]) ==
            Recorded(history) + [Consumption(Cost(status), stamp)]
  {
    assert (history + [Arrival(Plain(status), stamp)])[..|history|] == history;
  }

  lemma RecordNow(c: Setup, w: World, total: int, status: int)
    requires Instant(c, w, total) && w.pending != [] && status != TOO_MANY_REQUESTS
    requires w.pending[0] == Answered(Plain(status), w.clock)
    ensures var t := Next(c, w, Record(0, w.clock));
            && Instant(c, t, total + Cost(status)) && t.pending == w.pending[1..]
            && t.clock == w.clock && t.foreign == w.foreign
  {
    InstantGrows(c, w, total, status, Next(c, w, Record(0, w.clock)));
    hide Updated, Instant, Cost;
  }

  lemma AnswerAndRecord(c: Setup, w: World, total: int, status: int) returns (acts: seq<Act>)
    requires Instant(c, w, total) && w.pending != [] && w.pending[0].Sent? && status != TOO_MANY_REQUESTS
    ensures Runs(c, w, acts)
    ensures var t := End(c, w, acts);
            && Instant(c, t, total + Cost(status)) && t.pending == w.pending[1..]
            && t.clock == w.clock && t.foreign == w.foreign
  {
    var first, second := Answer(0, Plain(status)), Record(0, w.clock);
    var u := Next(c, w, first);
    assert Enabled(c, w, first) && Enabled(c, u, second);
    RecordNow(c, u, total, status);
    var t := Next(c, u, second);
    assert Runs(c, t, []) && End(c, t, []) == t;
    hide Instant, Next, Enabled, Runs, End, Updated;
    acts := RunsCons(c, u, second, []);
    acts := RunsCons(c, w, first, acts);
  }

  lemma {:induction false} Fill(c: Setup, w: World, total: int) returns (acts: seq<Act>)
    requires Instant(c, w, total) && w.pending == [] && 0 <= total <= c.limit - 2 && c.k >= 1
    ensures Runs(c, w, acts)
    ensures var t := End(c, w, acts);
            Instant(c, t, c.limit - 2) && t.pending == [] && t.clock == w.clock && t.foreign == w.foreign
    decreases c.limit - total
  {
    if total == c.limit - 2 {
      acts := [];
    } else {
      AdmitNow(c, w, total);
      var u := Next(c, w, Admit);
      var one := AnswerAndRecord(c, u, total, 304);
      var rest := Fill(c, End(c, u, one), total + 1);
      RunsConcat(c, u, one, rest);
      acts := [Admit] + (one + rest);
      assert acts[1..] == one + rest;
    }
  }

  ghost predicate AllSent(pending: seq<Pending>) {
    forall i :: 0 <= i < |pending| ==> pending[i].Sent?
  }

  lemma {:induction false} AdmitAll(c: Setup, w: World, total: int) returns (acts: seq<Act>)
    requires Instant(c, w, total) && total + 2 <= c.limit && AllSent(w.pending) && |w.pending| <= c.k
    ensures Runs(c, w, acts)
    ensures var t := End(c, w, acts);
            && Instant(c, t, total) && AllSent(t.pending) && |t.pending| == c.k
            && t.clock == w.clock && t.foreign == w.foreign
    decreases c.k - |w.pending|
  {
    if |w.pending| == c.k {
      acts := [];
    } else {
      AdmitNow(c, w, total);
      var rest := AdmitAll(c, Next(c, w, Admit), total);
      acts := [Admit] + rest;
      assert acts[1..] == rest;
    }
  }

  lemma {:induction false} FailAll(c: Setup, w: World, total: int) returns (acts: seq<Act>)
    requires Instant(c, w, total) && AllSent(w.pending)
    ensures Runs(c, w, acts)
    ensures var t := End(c, w, acts);
            Instant(c, t, total + 5 * |w.pending|) && t.clock == w.clock && t.foreign == w.foreign
    decreases |w.pending|
  {
    if w.pending == [] {
      acts := [];
    } else {
      var one := AnswerAndRecord(c, w, total, 404);
      var rest := FailAll(c, End(c, w, one), total + 5);
      RunsConcat(c, w, one, rest);
      acts := one + rest;
    }
  }

  lemma {:induction false} SpentAtInstant(log: seq<Consumption>, clock: int)
    requires forall i :: 0 <= i < |log| ==> log[i].consumed == clock
    ensures Spent(log, clock - 1) == Total(log)
  {
    if log != [] {
      SpentAtInstant(log[..|log| - 1], clock);
    }
  }

  /** Cheap responses up to the limit, then k failures. */
  lemma SpendAll(c: Setup, w: World) returns (acts: seq<Act>, spent: int)
    requires c.limit >= 2 && c.k >= 1 && Instant(c, w, 0) && w.pending == []
    ensures Runs(c, w, acts)
    ensures var t := End(c, w, acts);
            Instant(c, t, spent) && t.clock == w.clock && t.foreign == w.foreign
    ensures spent == c.limit - 2 + 5 * c.k
  {
    assert AllSent([]);
    hide *;
    var fill := Fill(c, w, 0);
    var u := End(c, w, fill);
    var admit := AdmitAll(c, u, c.limit - 2);
    var v := End(c, u, admit);
    var fail := FailAll(c, v, c.limit - 2);
    RunsConcat(c, u, admit, fail);
    RunsConcat(c, w, fill, admit + fail);
    acts, spent := fill + (admit + fail), c.limit - 2 + 5 * |v.pending|;
  }

  lemma InstantSpends(c: Setup, w: World, total: int)
    requires Instant(c, w, total)
    ensures Spent(Recorded(w.history), w.clock - 1) == total
  {
    SpentAtInstant(w.lim.log, w.clock);
  }

  lemma SpentAtOnce(foreign: seq<Arrival>, clock: int)
    ensures Spent(Recorded(foreign + [Arrival(Plain(404), clock)]), clock - 1) ==
            Spent(Recorded(foreign), clock - 1) + 5
  {
    hide Spent, Recorded;
    SpentSnoc(foreign, Arrival(Plain(404), clock), clock - 1);
  }

  lemma ForeignNow(c: Setup, w: World, total: int) returns (acts: seq<Act>)
    requires Instant(c, w, total)
    ensures Runs(c, w, acts)
    ensures var t := End(c, w, acts);
            Instant(c, t, total + 5) && t.clock == w.clock && t.foreign == w.foreign + [Arrival(Plain(404), w.clock)]
  {
    hide Updated, Spent, Recorded, Total, After;
    var foreign := Foreign(Plain(404), w.clock, w.clock);
    var t := Next(c, w, foreign);
    InstantGrows(c, w, total, 404, t);
    assert Runs(c, t, []) && End(c, t, []) == t;
    acts := RunsCons(c, w, foreign, []);
    hide Runs, Instant;
  }

  /** Failures of f requests that were checked on another limiter. */
  lemma {:induction false} FailForeign(c: Setup, w: World, total: int, f: nat, goal: int) returns (acts: seq<Act>)
    requires Instant(c, w, total) && goal == total + 5 * f
    ensures Runs(c, w, acts)
    ensures var t := End(c, w, acts);
            && Instant(c, t, goal) && t.clock == w.clock
            && Spent(Recorded(t.foreign), w.clock - 1) == Spent(Recorded(w.foreign), w.clock - 1) + goal - total
    decreases f
  {
    hide Instant, Spent, Recorded, Next, Enabled;
    if f == 0 {
      acts := [];
    } else {
      hide *;
      var one := ForeignNow(c, w, total);
      SpentAtOnce(w.foreign, w.clock);
      var rest := FailForeign(c, End(c, w, one), total + 5, f - 1, goal);
      RunsConcat(c, w, one, rest);
      acts := one + rest;
    }
  }

  /** Some run spends exactly that: cheap responses up to the limit, k failures, and f failures of
      requests that were checked elsewhere.  With one request at a time and a limit of 2 already one
      newly discovered path doubles limit - 2 + 5k. */
  lemma BoundIsReached(c: Setup, start: int, f: nat) returns (acts: seq<Act>, from: int)
    requires c.limit >= 2 && c.k >= 1 && start >= ZERO_TIME
    ensures Runs(c, Begin(c, start), acts)
    ensures var w := End(c, Begin(c, start), acts);
            && Spent(Recorded(w.foreign), from) == 5 * f
            && Spent(Recorded(w.history), from) == c.limit - 2 + 5 * c.k + 5 * f
  {
    var w := Begin(c, start);
    assert Instant(c, w, 0) && w.pending == [] && w.clock == start;
    from := start - 1;
    assert Spent(Recorded(w.foreign), from) == 0;
    hide *;
    var own, spent := SpendAll(c, w);
    var u, goal := End(c, w, own), spent + 5 * f;
    var foreign := FailForeign(c, u, spent, f, goal);
    RunsConcat(c, w, own, foreign);
    acts := own + foreign;
    InstantSpends(c, End(c, u, foreign), goal);
  }
}
