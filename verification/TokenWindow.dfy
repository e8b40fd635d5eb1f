/** The token bucket of internal/core/esi/rate_limited_client.go: a log of token consumptions that is
    pruned to a floating window of 15 minutes.  Times are nanoseconds. */
module TokenWindow {

  const SECOND: int := 1_000_000_000
  const MINUTE: int := 60_000_000_000
  const WINDOW: int := 900_000_000_000
  const SOON: int := 300_000_000_000

  /** time.Time{}, before every clock reading. */
  const ZERO_TIME: int := -62_135_596_800_000_000_000

  const DEFAULT_TOKEN_LIMIT: int := 1000
  const ESTIMATED_TOKENS: int := 2
  const TOO_MANY_REQUESTS: int := 429

  datatype Consumption = Consumption(tokens: int, consumed: int)

  datatype Limiter = Limiter(
    limit: int, used: int, log: seq<Consumption>, retryAfter: int, lastUpdate: int)

  /** A header that should hold a number. */
  datatype Header = Absent | Garbled | Num(n: int)

  datatype Response = Response(
    status: int, limit: Header, remaining: Header, used: Header, retryAfter: Header, group: string)

  datatype Reason = RetryAfterActive | InsufficientTokens | ServerSaid429

  datatype RateLimitError = RateLimitError(
    retryable: bool, retryAfter: int, reason: Reason, group: string,
    tokenUsed: int, tokenLimit: int, estimatedTokens: int)

  datatype Decision = Admitted | Limited(error: RateLimitError)

  /** getTokensForStatus: only a client's error costs 5, and only a server's error is free. */
  function Cost(status: int): (tokens: int)
    ensures 0 <= tokens <= 5
    ensures tokens == 5 <==> 400 <= status < 500
    ensures tokens == 0 <==> status >= 500
    ensures tokens == 1 <==> 300 <= status < 400
    ensures tokens == 2 <==> status < 300
  {
    if 200 <= status < 300 then 2
    else if 300 <= status < 400 then 1
    else if 400 <= status < 500 then 5
    else if status >= 500 then 0
    else 2
  }

  /** The entries consumed strictly after the cutoff, in order. */
  function After(log: seq<Consumption>, cutoff: int): seq<Consumption> {
    if log == [] then []
    else
      var last := log[|log| - 1];
      After(log[..|log| - 1], cutoff) + if last.consumed > cutoff then [last] else []
  }

  function Total(log: seq<Consumption>): int {
    if log == [] then 0 else Total(log[..|log| - 1]) + log[|log| - 1].tokens
  }

  function Later(a: int, b: int): int {
    if a < b then b else a
  }

  /** The entries inside the window that ends at `at`. */
  function InWindow(log: seq<Consumption>, at: int): seq<Consumption> {
    After(log, at - WINDOW)
  }

  /** The earliest time in the log. */
  function Oldest(log: seq<Consumption>): int
    requires log != []
  {
    var last := log[|log| - 1];
    if |log| == 1 then last.consumed
    else
      var t := Oldest(log[..|log| - 1]);
      if last.consumed < t then last.consumed else t
  }

  function NewLimiter(limit: int, now: int): Limiter {
    Limiter(limit, 0, [], ZERO_TIME, now)
  }

  /** cleanupOldConsumptions. */
  function Cleaned(l: Limiter, now: int): Limiter {
    var kept := InWindow(l.log, now);
    l.(log := kept, used := Total(kept), lastUpdate := now)
  }

  /** The verdict of canMakeRequest after its cleanup; `now` and `until` are its two later clock
      readings. */
  function Decide(l: Limiter, group: string, estimate: int, now: int, until: int): Decision {
    if now < l.retryAfter then
      Limited(RateLimitError(true, l.retryAfter, RetryAfterActive, group, l.used, l.limit, estimate))
    else if l.used + estimate > l.limit then
      var expiry := if l.log != [] then Oldest(l.log) + WINDOW else now + WINDOW;
      Limited(RateLimitError(now < expiry && expiry - until < SOON, expiry, InsufficientTokens,
                             group, l.used, l.limit, estimate))
    else Admitted
  }

  function HeaderLimit(resp: Response): int {
    if resp.limit.Num? then resp.limit.n else 0
  }

  function Deadline(resp: Response, stamp: int, current: int): int {
    if resp.status == TOO_MANY_REQUESTS then
      match resp.retryAfter
      case Absent => stamp + WINDOW
      case Garbled => current
      case Num(seconds) => stamp + seconds * SECOND
    else current
  }

  /** What a response changes in a limiter that has just been cleaned up. */
  function Merged(c: Limiter, resp: Response, tokens: int, stamp: int): Limiter {
    var limit := if HeaderLimit(resp) > 0 then HeaderLimit(resp) else c.limit;
    var used :=
      match resp.remaining
      case Absent => c.used + tokens
      case Garbled => c.used
      case Num(remaining) =>
        match resp.used
        case Absent => limit - remaining
        case Garbled => c.used
        case Num(u) => u;
    c.(limit := limit,
       used := used,
       log := if resp.remaining.Absent? then c.log + [Consumption(tokens, stamp)] else c.log,
       retryAfter := Deadline(resp, stamp, c.retryAfter))
  }

  /** updateFromHeaders on the limiter it settles on.  `stamp` is the clock reading at its start,
      `now` the later one of the cleanup. */
  function Updated(l: Limiter, resp: Response, tokens: int, stamp: int, now: int): Limiter {
    Merged(Cleaned(l, now), resp, tokens, stamp)
  }

  // ---- Laws of the log ---------------------------------------------------------------------

  lemma {:induction false} AfterAfter(log: seq<Consumption>, first: int, second: int)
    ensures After(After(log, first), second) == After(log, if first < second then second else first)
  {
    if log != [] {
      var init, last := log[..|log| - 1], log[|log| - 1];
      AfterAfter(init, first, second);
      if last.consumed > first {
        assert (After(init, first) + [last])[..|After(init, first)|] == After(init, first);
      } else {
        assert After(log, first) == After(init, first);
      }
    }
  }

  lemma EmptyAfter(log: seq<Consumption>, cutoff: int)
    requires log == []
    ensures After(log, cutoff) == [] && Total(log) == 0
  {
  }

  lemma AfterStep(log: seq<Consumption>, i: nat, cutoff: int)
    requires i < |log|
    ensures After(log[..i + 1], cutoff) == After(log[..i], cutoff) + if log[i].consumed > cutoff then [log[i]] else []
    ensures Total(After(log[..i + 1], cutoff)) ==
            Total(After(log[..i], cutoff)) + if log[i].consumed > cutoff then log[i].tokens else 0
  {
    assert log[..i + 1][..i] == log[..i];
    var kept := After(log[..i], cutoff);
    assert kept + [] == kept && (kept + [log[i]])[..|kept|] == kept;
  }

  lemma {:induction false} AfterAll(log: seq<Consumption>, cutoff: int)
    requires forall i :: 0 <= i < |log| ==> log[i].consumed > cutoff
    ensures After(log, cutoff) == log
  {
    if log != [] {
      AfterAll(log[..|log| - 1], cutoff);
    }
  }

  lemma {:induction false} AfterMembers(log: seq<Consumption>, cutoff: int)
    ensures forall c :: c in After(log, cutoff) <==> c in log && c.consumed > cutoff
  {
    if log != [] {
      AfterMembers(log[..|log| - 1], cutoff);
      assert log == log[..|log| - 1] + [log[|log| - 1]];
    }
  }

  lemma InWindowCleaned(l: Limiter, now: int, at: int)
    ensures InWindow(Cleaned(l, now).log, at) == InWindow(l.log, Later(at, now))
  {
    AfterAfter(l.log, now - WINDOW, at - WINDOW);
  }

  lemma InWindowSnoc(log: seq<Consumption>, c: Consumption, at: int)
    ensures InWindow(log + [c], at) == InWindow(log, at) + if c.consumed > at - WINDOW then [c] else []
    ensures Total(InWindow(log + [c], at)) ==
            Total(InWindow(log, at)) + if c.consumed > at - WINDOW then c.tokens else 0
  {
    assert (log + [c])[..|log|] == log;
    var kept := InWindow(log, at);
    assert (kept + [c])[..|kept|] == kept;
    assert kept + [] == kept;
  }

  ghost predicate NonNegative(log: seq<Consumption>) {
    forall c :: c in log ==> c.tokens >= 0
  }

  lemma {:induction false} TotalNonNegative(log: seq<Consumption>)
    requires NonNegative(log)
    ensures Total(log) >= 0
  {
    if log != [] {
      assert log[|log| - 1] in log;
      TotalNonNegative(log[..|log| - 1]);
    }
  }

  // ---- The pruned log against the full history ---------------------------------------------

  /** One response, with the clock reading taken at its arrival. */
  datatype Arrival = Arrival(resp: Response, stamp: int)

  /** What was consumed by the responses without X-Ratelimit-Remaining. */
  function Recorded(history: seq<Arrival>): seq<Consumption> {
    if history == [] then []
    else
      var a := history[|history| - 1];
      Recorded(history[..|history| - 1]) +
      if a.resp.remaining.Absent? then [Consumption(Cost(a.resp.status), a.stamp)] else []
  }

  /** The retry-after deadline the latest 429 set. */
  function LatestDeadline(history: seq<Arrival>): int {
    if history == [] then ZERO_TIME
    else
      var a := history[|history| - 1];
      Deadline(a.resp, a.stamp, LatestDeadline(history[..|history| - 1]))
  }

  /** The last positive X-Ratelimit-Limit, or the limit the limiter was created with. */
  function LatestLimit(history: seq<Arrival>, initial: int): int {
    if history == [] then initial
    else
      var limit := HeaderLimit(history[|history| - 1].resp);
      if limit > 0 then limit else LatestLimit(history[..|history| - 1], initial)
  }

  /** The two logs hold the same entries in every window that ends at `latest` or later. */
  ghost predicate AgreeFrom(log: seq<Consumption>, recorded: seq<Consumption>, latest: int) {
    forall at :: at >= latest ==> InWindow(log, at) == InWindow(recorded, at)
  }

  /** The pruned log is as good as the history from the latest cleanup on. */
  ghost predicate Refines(l: Limiter, history: seq<Arrival>, initial: int, latest: int) {
    && l.limit == LatestLimit(history, initial)
    && l.retryAfter == LatestDeadline(history)
    && AgreeFrom(l.log, Recorded(history), latest)
  }

  lemma CleanedRefines(l: Limiter, history: seq<Arrival>, initial: int, latest: int, now: int)
    requires Refines(l, history, initial, latest)
    ensures Refines(Cleaned(l, now), history, initial, Later(latest, now))
  {
    forall at | at >= Later(latest, now)
      ensures InWindow(Cleaned(l, now).log, at) == InWindow(Recorded(history), at)
    {
      InWindowCleaned(l, now, at);
    }
  }

  lemma AgreeSnoc(log: seq<Consumption>, recorded: seq<Consumption>, c: Consumption, latest: int)
    requires AgreeFrom(log, recorded, latest)
    ensures AgreeFrom(log + [c], recorded + [c], latest)
  {
    forall at | at >= latest
      ensures InWindow(log + [c], at) == InWindow(recorded + [c], at)
    {
      InWindowSnoc(log, c, at);
      InWindowSnoc(recorded, c, at);
    }
  }

  lemma UpdatedRefines(
    l: Limiter, history: seq<Arrival>, initial: int, latest: int, resp: Response, stamp: int, now: int)
    requires Refines(l, history, initial, latest)
    ensures Refines(Updated(l, resp, Cost(resp.status), stamp, now), history + [Arrival(resp, stamp)],
                    initial, Later(latest, now))
  {
    var t := Updated(l, resp, Cost(resp.status), stamp, now);
    var longer := history + [Arrival(resp, stamp)];
    assert longer[..|history|] == history;
    CleanedRefines(l, history, initial, latest, now);
    hide AgreeFrom, InWindow;
    if resp.remaining.Absent? {
      var c := Consumption(Cost(resp.status), stamp);
      AgreeSnoc(Cleaned(l, now).log, Recorded(history), c, Later(latest, now));
      assert Recorded(longer) == Recorded(history) + [c];
    } else {
      assert Recorded(longer) == Recorded(history);
    }
  }

  /** canMakeRequest on the pruned log decides exactly by the full history. */
  lemma AdmitsByHistory(
    l: Limiter, history: seq<Arrival>, initial: int, latest: int,
    group: string, estimate: int, clean: int, now: int, until: int)
    requires Refines(l, history, initial, latest) && latest <= clean
    ensures Decide(Cleaned(l, clean), group, estimate, now, until).Admitted? <==>
            && LatestDeadline(history) <= now
            && Total(InWindow(Recorded(history), clean)) + estimate <= LatestLimit(history, initial)
  {
  }

  /** What a limiter goes through: checks and responses, each with its clock readings. */
  datatype Op = Check(clean: int) | Respond(resp: Response, stamp: int, clean: int)

  function Apply(l: Limiter, op: Op): Limiter {
    match op
    case Check(clean) => Cleaned(l, clean)
    case Respond(resp, stamp, clean) => Updated(l, resp, Cost(resp.status), stamp, clean)
  }

  function Play(l: Limiter, ops: seq<Op>): Limiter {
    if ops == [] then l else Apply(Play(l, ops[..|ops| - 1]), ops[|ops| - 1])
  }

  function HistoryOf(ops: seq<Op>): seq<Arrival> {
    if ops == [] then []
    else
      var op := ops[|ops| - 1];
      HistoryOf(ops[..|ops| - 1]) + if op.Respond? then [Arrival(op.resp, op.stamp)] else []
  }

  function LatestClean(ops: seq<Op>, start: int): int {
    if ops == [] then start else Later(LatestClean(ops[..|ops| - 1], start), ops[|ops| - 1].clean)
  }

  lemma {:induction false} PlayRefines(limit: int, start: int, ops: seq<Op>)
    ensures Refines(Play(NewLimiter(limit, start), ops), HistoryOf(ops), limit, LatestClean(ops, start))
  {
    if ops != [] {
      var init, op := ops[..|ops| - 1], ops[|ops| - 1];
      var l := Play(NewLimiter(limit, start), init);
      PlayRefines(limit, start, init);
      match op {
        case Check(clean) =>
          CleanedRefines(l, HistoryOf(init), limit, LatestClean(init, start), clean);
          assert HistoryOf(ops) == HistoryOf(init);
        case Respond(resp, stamp, clean) =>
          UpdatedRefines(l, HistoryOf(init), limit, LatestClean(init, start), resp, stamp, clean);
      }
    }
  }

  /** Over every run of one limiter whose clock does not go back: a request is admitted exactly when
      no retry-after deadline is ahead and the responses of the last 15 minutes that came without
      X-Ratelimit-Remaining leave room for the estimate.  Nothing else the server said counts. */
  lemma AdmitsExactly(
    limit: int, start: int, ops: seq<Op>, group: string, estimate: int, clean: int, now: int, until: int)
    requires LatestClean(ops, start) <= clean
    ensures var h := HistoryOf(ops);
            Decide(Cleaned(Play(NewLimiter(limit, start), ops), clean), group, estimate, now, until).Admitted? <==>
            && LatestDeadline(h) <= now
            && Total(InWindow(Recorded(h), clean)) + estimate <= LatestLimit(h, limit)
  {
    PlayRefines(limit, start, ops);
    AdmitsByHistory(Play(NewLimiter(limit, start), ops), HistoryOf(ops), limit, LatestClean(ops, start),
                    group, estimate, clean, now, until);
  }

  /** The usage a server reports is overwritten by the next cleanup: two responses that differ only
      in the numbers of X-Ratelimit-Remaining and X-Ratelimit-Used lead to the same limiter. */
  lemma ServerUsageForgotten(l: Limiter, r1: Response, r2: Response, tokens: int, stamp: int, now: int, next: int)
    requires r1.(remaining := Absent, used := Absent) == r2.(remaining := Absent, used := Absent)
    requires !r1.remaining.Absent? && !r2.remaining.Absent?
    ensures Cleaned(Updated(l, r1, tokens, stamp, now), next) == Cleaned(Updated(l, r2, tokens, stamp, now), next)
  {
  }

  /** So whatever usage a response reports, an exhausted bucket included, the next check only goes by
      the deadline and by what had been recorded before. */
  lemma ReportedUsageNeverCounts(
    l: Limiter, resp: Response, tokens: int, stamp: int, clean: int,
    group: string, estimate: int, next: int, now: int, until: int)
    requires !resp.remaining.Absent?
    ensures var t := Updated(l, resp, tokens, stamp, clean);
            Decide(Cleaned(t, next), group, estimate, now, until).Admitted? <==>
            && Deadline(resp, stamp, l.retryAfter) <= now
            && Total(InWindow(l.log, Later(next, clean))) + estimate <= t.limit
  {
    InWindowCleaned(l, clean, next);
  }

  // ---- RetryAfter is a sound lower bound ---------------------------------------------------

  /** Every check with this estimate before `until` will find too few tokens. */
  ghost predicate ShortUntil(l: Limiter, estimate: int, until: int) {
    && NonNegative(l.log)
    && (forall at :: at < until ==> Total(InWindow(l.log, at)) + estimate > l.limit)
  }

  ghost predicate NotRaising(op: Op, limit: int) {
    op.Respond? ==> HeaderLimit(op.resp) <= limit
  }

  lemma {:induction false} OldestIsLeast(log: seq<Consumption>) returns (k: nat)
    requires log != []
    ensures k < |log| && log[k].consumed == Oldest(log)
    ensures forall i :: 0 <= i < |log| ==> Oldest(log) <= log[i].consumed
  {
    k := |log| - 1;
    if |log| > 1 {
      var j := OldestIsLeast(log[..|log| - 1]);
      if log[j].consumed <= log[k].consumed {
        k := j;
      }
    }
  }

  lemma NothingExpired(log: seq<Consumption>, at: int)
    requires log == [] || at < Oldest(log) + WINDOW
    ensures InWindow(log, at) == log
  {
    if log != [] {
      var k := OldestIsLeast(log);
    }
    hide Oldest;
    AfterAll(log, at - WINDOW);
  }

  lemma CleanedNonNegative(l: Limiter, now: int)
    requires NonNegative(l.log)
    ensures NonNegative(Cleaned(l, now).log)
  {
    AfterMembers(l.log, now - WINDOW);
  }

  lemma AppliedNonNegative(l: Limiter, op: Op)
    requires NonNegative(l.log)
    ensures NonNegative(Apply(l, op).log)
  {
    CleanedNonNegative(l, op.clean);
  }

  lemma RefusedIsShort(l: Limiter, group: string, estimate: int, clean: int, now: int, until: int)
    requires NonNegative(l.log)
    requires var d := Decide(Cleaned(l, clean), group, estimate, now, until);
             d.Limited? && d.error.reason.InsufficientTokens?
    ensures var d := Decide(Cleaned(l, clean), group, estimate, now, until);
            ShortUntil(Cleaned(l, clean), estimate, d.error.retryAfter)
  {
    var c := Cleaned(l, clean);
    var d := Decide(c, group, estimate, now, until);
    CleanedNonNegative(l, clean);
    assert c.used == Total(c.log);
    hide NonNegative, Oldest, Total, Cleaned, InWindow;
    forall at | at < d.error.retryAfter
      ensures Total(InWindow(c.log, at)) + estimate > c.limit
    {
      NothingExpired(c.log, at);
    }
  }

  lemma StaysShort(l: Limiter, op: Op, estimate: int, until: int)
    requires ShortUntil(l, estimate, until) && op.clean < until && NotRaising(op, l.limit)
    ensures ShortUntil(Apply(l, op), estimate, until) && Apply(l, op).limit <= l.limit
  {
    var t := Apply(l, op);
    var c := Cleaned(l, op.clean);
    AppliedNonNegative(l, op);
    hide NonNegative;
    forall at | at < until
      ensures Total(InWindow(t.log, at)) + estimate > t.limit
    {
      InWindowCleaned(l, op.clean, at);
      assert Total(InWindow(c.log, at)) + estimate > l.limit;
      if op.Respond? {
        InWindowSnoc(c.log, Consumption(Cost(op.resp.status), op.stamp), at);
      }
    }
  }

  lemma {:induction false} StaysShortThroughout(l: Limiter, ops: seq<Op>, estimate: int, until: int)
    requires ShortUntil(l, estimate, until)
    requires forall op :: op in ops ==> op.clean < until
    requires forall i :: 0 <= i < |ops| ==> NotRaising(ops[i], Play(l, ops[..i]).limit)
    ensures ShortUntil(Play(l, ops), estimate, until)
  {
    if ops != [] {
      var init := ops[..|ops| - 1];
      forall i | 0 <= i < |init|
        ensures NotRaising(init[i], Play(l, init[..i]).limit)
      {
        assert init[..i] == ops[..i];
      }
      StaysShortThroughout(l, init, estimate, until);
      StaysShort(Play(l, init), ops[|ops| - 1], estimate, until);
    }
  }

  lemma {:induction false} PlayNonNegative(limit: int, start: int, ops: seq<Op>)
    ensures NonNegative(Play(NewLimiter(limit, start), ops).log)
  {
    if ops != [] {
      PlayNonNegative(limit, start, ops[..|ops| - 1]);
      AppliedNonNegative(Play(NewLimiter(limit, start), ops[..|ops| - 1]), ops[|ops| - 1]);
    }
  }

  /** When tokens are short, every check with the same estimate before the reported RetryAfter is
      refused too, whatever happens in between on that limiter, unless its limit is raised. */
  lemma RetryAfterIsSound(
    limit: int, start: int, before: seq<Op>, group: string, estimate: int, clean: int, now: int, until: int,
    ops: seq<Op>, clean': int, now': int, until': int)
    requires var l := Cleaned(Play(NewLimiter(limit, start), before), clean);
             var d := Decide(l, group, estimate, now, until);
             && d.Limited? && d.error.reason.InsufficientTokens?
             && clean' < d.error.retryAfter
             && (forall op :: op in ops ==> op.clean < d.error.retryAfter)
             && (forall i :: 0 <= i < |ops| ==> NotRaising(ops[i], Play(l, ops[..i]).limit))
    ensures var l := Cleaned(Play(NewLimiter(limit, start), before), clean);
            Decide(Cleaned(Play(l, ops), clean'), group, estimate, now', until').Limited?
  {
    var l := Play(NewLimiter(limit, start), before);
    var d := Decide(Cleaned(l, clean), group, estimate, now, until);
    PlayNonNegative(limit, start, before);
    RefusedIsShort(l, group, estimate, clean, now, until);
    StaysShortThroughout(Cleaned(l, clean), ops, estimate, d.error.retryAfter);
  }

  lemma OldestLeaves(log: seq<Consumption>)
    requires log != []
    ensures exists x :: x in log && x !in InWindow(log, Oldest(log) + WINDOW)
  {
    AfterMembers(log, Oldest(log));
    var k := OldestIsLeast(log);
    var x := log[k];
    assert x in log && x !in InWindow(log, Oldest(log) + WINDOW);
  }

  /** At that instant an oldest entry, if there is one, has left the window; and with an empty log
      the refusal is called retryable only if ten minutes pass between two clock readings. */
  lemma RetryAfterFreesOldest(l: Limiter, group: string, estimate: int, clean: int, now: int, until: int)
    requires var d := Decide(Cleaned(l, clean), group, estimate, now, until);
             d.Limited? && d.error.reason.InsufficientTokens?
    ensures var c := Cleaned(l, clean);
            var e := Decide(c, group, estimate, now, until).error;
            if c.log != []
            then (exists x :: x in c.log && x !in InWindow(c.log, e.retryAfter))
            else (e.retryable <==> until - now > 10 * MINUTE)
  {
    var c := Cleaned(l, clean);
    if c.log != [] {
      OldestLeaves(c.log);
    }
    hide Oldest, InWindow, Cleaned;
  }
}
