/** What a limiter does, told in plain terms from everything it has gone through: which response
    blocks it and until which nanosecond, how many tokens count, and what a refusal says. */
module LimiterLaws {
  import opened TokenWindow

  // ---- In plain terms ----------------------------------------------------------------------

  /** A 429 whose Retry-After is missing or a number. */
  predicate Blocks(op: Op) {
    op.Respond? && op.resp.status == 429 && !op.resp.retryAfter.Garbled?
  }

  /** Until when: that many seconds from the response, or 15 minutes. */
  function BlockedUntil(op: Op): int
    requires Blocks(op)
  {
    if op.resp.retryAfter.Num? then op.stamp + op.resp.retryAfter.n * 1_000_000_000
    else op.stamp + 900_000_000_000
  }

  /** The last such response: a later 429 with a Retry-After that is no number changes nothing. */
  ghost predicate LastBlock(ops: seq<Op>, i: nat) {
    i < |ops| && Blocks(ops[i]) && forall j :: i < j < |ops| ==> !Blocks(ops[j])
  }

  ghost predicate Blocked(ops: seq<Op>, now: int) {
    exists i: nat :: LastBlock(ops, i) && now < BlockedUntil(ops[i])
  }

  function Price(status: int): int {
    if status >= 500 then 0 else if status >= 400 then 5 else if status >= 300 then 1 else 2
  }

  /** A response that is counted by the client itself. */
  predicate Counts(op: Op) {
    op.Respond? && op.resp.remaining.Absent?
  }

  function TokensSince(ops: seq<Op>, cutoff: int): int {
    if ops == [] then 0
    else
      var op := ops[|ops| - 1];
      TokensSince(ops[..|ops| - 1], cutoff) +
      if Counts(op) && op.stamp > cutoff then Price(op.resp.status) else 0
  }

  /** The last positive number in X-Ratelimit-Limit. */
  function StatedLimit(ops: seq<Op>, initial: int): int {
    if ops == [] then initial
    else
      var op := ops[|ops| - 1];
      if op.Respond? && op.resp.limit.Num? && op.resp.limit.n > 0 then op.resp.limit.n
      else StatedLimit(ops[..|ops| - 1], initial)
  }

  /** Response i is the earliest of those counted after the cutoff. */
  ghost predicate EarliestSince(ops: seq<Op>, cutoff: int, i: nat) {
    && i < |ops| && Counts(ops[i]) && ops[i].stamp > cutoff
    && forall j :: 0 <= j < |ops| && Counts(ops[j]) && ops[j].stamp > cutoff ==> ops[i].stamp <= ops[j].stamp
  }

  ghost predicate NoneSince(ops: seq<Op>, cutoff: int) {
    forall j :: 0 <= j < |ops| && Counts(ops[j]) ==> ops[j].stamp <= cutoff
  }

  // ---- The history in these terms ----------------------------------------------------------

  lemma {:induction false} LimitIsStated(ops: seq<Op>, initial: int)
    ensures LatestLimit(HistoryOf(ops), initial) == StatedLimit(ops, initial)
  {
    if ops != [] {
      var init, op := ops[..|ops| - 1], ops[|ops| - 1];
      LimitIsStated(init, initial);
      assert op.Respond? ==> HistoryOf(ops)[..|HistoryOf(init)|] == HistoryOf(init);
      assert !op.Respond? ==> HistoryOf(ops) == HistoryOf(init);
    }
  }

  lemma {:induction false} SomeLastBlock(ops: seq<Op>, i: nat) returns (k: nat)
    requires i < |ops| && Blocks(ops[i])
    ensures LastBlock(ops, k)
    decreases |ops| - i
  {
    k := i;
    if j: nat :| i < j < |ops| && Blocks(ops[j]) {
      k := SomeLastBlock(ops, j);
    }
  }

  lemma HistorySnoc(ops: seq<Op>)
    requires ops != []
    ensures var init, op := ops[..|ops| - 1], ops[|ops| - 1];
            && (!op.Respond? ==> HistoryOf(ops) == HistoryOf(init))
            && (op.Respond? ==>
                  && HistoryOf(ops) == HistoryOf(init) + [Arrival(op.resp, op.stamp)]
                  && HistoryOf(ops)[..|HistoryOf(ops)| - 1] == HistoryOf(init))
  {
  }

  /** The deadline in plain terms; only a block changes it. */
  lemma DeadlineStep(ops: seq<Op>)
    requires ops != []
    ensures var op := ops[|ops| - 1];
            LatestDeadline(HistoryOf(ops)) ==
            if Blocks(op) then BlockedUntil(op) else LatestDeadline(HistoryOf(ops[..|ops| - 1]))
  {
    HistorySnoc(ops);
    hide HistoryOf;
  }

  lemma {:induction false} DeadlineIsBlock(ops: seq<Op>)
    ensures forall i: nat :: LastBlock(ops, i) ==> LatestDeadline(HistoryOf(ops)) == BlockedUntil(ops[i])
    ensures (forall i :: 0 <= i < |ops| ==> !Blocks(ops[i])) ==>
              LatestDeadline(HistoryOf(ops)) == -62_135_596_800_000_000_000
  {
    if ops != [] {
      var init := ops[..|ops| - 1];
      DeadlineStep(ops);
      DeadlineIsBlock(init);
      hide HistoryOf, LatestDeadline, Blocks, BlockedUntil;
      assert forall i :: 0 <= i < |init| ==> init[i] == ops[i];
      forall i: nat | LastBlock(ops, i)
        ensures LatestDeadline(HistoryOf(ops)) == BlockedUntil(ops[i])
      {
        if i < |init| {
          assert LastBlock(init, i);
        }
      }
    }
  }

  lemma RecordedOne(h: seq<Arrival>, op: Op)
    requires op.Respond?
    ensures Recorded(h + [Arrival(op.resp, op.stamp)]) ==
            if Counts(op) then Recorded(h) + [Consumption(Price(op.resp.status), op.stamp)] else Recorded(h)
  {
    assert (h + [Arrival(op.resp, op.stamp)])[..|h|] == h;
    assert Recorded(h) + [] == Recorded(h);
  }

  lemma {:induction false} TokensCount(ops: seq<Op>, at: int)
    ensures Total(InWindow(Recorded(HistoryOf(ops)), at)) == TokensSince(ops, at - 900_000_000_000)
  {
    if ops != [] {
      var init, op := ops[..|ops| - 1], ops[|ops| - 1];
      TokensCount(init, at);
      if op.Respond? {
        var h := HistoryOf(init);
        RecordedOne(h, op);
        hide InWindow, Total, Recorded;
        if Counts(op) {
          InWindowSnoc(Recorded(h), Consumption(Price(op.resp.status), op.stamp), at);
        }
      } else {
        assert HistoryOf(ops) == HistoryOf(init);
      }
    }
  }

  lemma {:induction false} RecordedMembers(ops: seq<Op>, c: Consumption)
    ensures c in Recorded(HistoryOf(ops)) <==>
            exists i :: 0 <= i < |ops| && Counts(ops[i]) && c == Consumption(Price(ops[i].resp.status), ops[i].stamp)
  {
    if ops != [] {
      var init, op := ops[..|ops| - 1], ops[|ops| - 1];
      RecordedMembers(init, c);
      assert op.Respond? ==> HistoryOf(ops)[..|HistoryOf(init)|] == HistoryOf(init);
      assert !op.Respond? ==> HistoryOf(ops) == HistoryOf(init);
      assert forall i :: 0 <= i < |init| ==> init[i] == ops[i];
      if Counts(op) {
        assert Recorded(HistoryOf(ops)) ==
               Recorded(HistoryOf(init)) + [Consumption(Price(op.resp.status), op.stamp)];
      } else {
        assert Recorded(HistoryOf(ops)) == Recorded(HistoryOf(init));
      }
    }
  }

  // ---- What a check says -------------------------------------------------------------------

  /** The limiter after these operations and one more cleanup. */
  function CleanedAfter(limit: int, start: int, ops: seq<Op>, clean: int): Limiter {
    Cleaned(Play(NewLimiter(limit, start), ops), clean)
  }

  lemma CleanedAfterIs(limit: int, start: int, ops: seq<Op>, clean: int)
    requires LatestClean(ops, start) <= clean
    ensures var l := CleanedAfter(limit, start, ops, clean);
            && l.log == InWindow(Recorded(HistoryOf(ops)), clean)
            && l.used == TokensSince(ops, clean - 900_000_000_000)
            && l.limit == StatedLimit(ops, limit)
            && l.retryAfter == LatestDeadline(HistoryOf(ops))
  {
    PlayRefines(limit, start, ops);
    TokensCount(ops, clean);
    LimitIsStated(ops, limit);
    hide InWindow, Total, Recorded, HistoryOf, Play;
  }

  /** What every check decides, over every run with a clock that does not go back. */
  lemma CheckDecides(
    limit: int, start: int, ops: seq<Op>, group: string, estimate: int, clean: int, now: int, until: int)
    requires LatestClean(ops, start) <= clean && -62_135_596_800_000_000_000 <= now
    ensures var d := Decide(CleanedAfter(limit, start, ops, clean), group, estimate, now, until);
            var used, most := TokensSince(ops, clean - 900_000_000_000), StatedLimit(ops, limit);
            && (d.Admitted? <==> !Blocked(ops, now) && used + estimate <= most)
            && (d.Limited? ==>
                  d.error == RateLimitError(d.error.retryable, d.error.retryAfter,
                    if Blocked(ops, now) then RetryAfterActive else InsufficientTokens,
                    group, used, most, estimate))
            && (forall i: nat :: LastBlock(ops, i) && now < BlockedUntil(ops[i]) ==>
                  d.Limited? && d.error.retryable && d.error.retryAfter == BlockedUntil(ops[i]))
  {
    CleanedAfterIs(limit, start, ops, clean);
    DeadlineIsBlock(ops);
    if i: nat :| i < |ops| && Blocks(ops[i]) {
      var k := SomeLastBlock(ops, i);
    }
    hide CleanedAfter, TokensSince, StatedLimit, LatestDeadline, HistoryOf;
  }

  /** A 429 blocks every check until its Retry-After has passed, in seconds, or for 15 minutes if it
      names none; from then on the tokens alone decide. */
  lemma RetryAfterBlocks(
    limit: int, start: int, ops: seq<Op>, i: nat, group: string, estimate: int, clean: int, now: int, until: int)
    requires LatestClean(ops, start) <= clean && -62_135_596_800_000_000_000 <= now
    requires i < |ops| && ops[i].Respond? && ops[i].resp.status == 429 && !ops[i].resp.retryAfter.Garbled?
    requires forall j :: i < j < |ops| && ops[j].Respond? && ops[j].resp.status == 429 ==>
               ops[j].resp.retryAfter.Garbled?
    ensures var d := Decide(CleanedAfter(limit, start, ops, clean), group, estimate, now, until);
            var end := ops[i].stamp + (if ops[i].resp.retryAfter.Num? then ops[i].resp.retryAfter.n * 1_000_000_000
                                       else 900_000_000_000);
            if now < end then d.Limited? && d.error.retryAfter == end && d.error.retryable
            else d.Admitted? <==>
                 TokensSince(ops, clean - 900_000_000_000) + estimate <= StatedLimit(ops, limit)
  {
    CheckDecides(limit, start, ops, group, estimate, clean, now, until);
    assert LastBlock(ops, i);
    assert forall j: nat :: LastBlock(ops, j) ==> j == i;
    hide CleanedAfter, TokensSince, StatedLimit, Decide;
  }

  /** When tokens are short, the refusal names the instant at which the earliest counted response will
      be 15 minutes old, and may be retried if that is ahead and less than five minutes away. */
  lemma ShortageSays(
    limit: int, start: int, ops: seq<Op>, group: string, estimate: int, clean: int, now: int, until: int)
    requires LatestClean(ops, start) <= clean && -62_135_596_800_000_000_000 <= now
    requires var d := Decide(CleanedAfter(limit, start, ops, clean), group, estimate, now, until);
             d.Limited? && d.error.reason.InsufficientTokens?
    ensures var e := Decide(CleanedAfter(limit, start, ops, clean), group, estimate, now, until).error;
            var cutoff := clean - 900_000_000_000;
            && (forall i: nat :: EarliestSince(ops, cutoff, i) ==> e.retryAfter == ops[i].stamp + 900_000_000_000)
            && (NoneSince(ops, cutoff) ==> e.retryAfter == now + 900_000_000_000)
            && (e.retryable <==> now < e.retryAfter && e.retryAfter - until < 300_000_000_000)
  {
    CleanedAfterIs(limit, start, ops, clean);
    var log := CleanedAfter(limit, start, ops, clean).log;
    ShortageInstant(ops, clean, log);
    hide CleanedAfter, TokensSince, StatedLimit, LatestDeadline, InWindow, Oldest, EarliestSince, NoneSince;
  }

  lemma ShortageInstant(ops: seq<Op>, clean: int, log: seq<Consumption>)
    requires log == InWindow(Recorded(HistoryOf(ops)), clean)
    ensures var cutoff := clean - 900_000_000_000;
            && (forall i: nat :: EarliestSince(ops, cutoff, i) ==> log != [] && Oldest(log) == ops[i].stamp)
            && (NoneSince(ops, cutoff) ==> log == [])
  {
    var cutoff := clean - 900_000_000_000;
    AfterMembers(Recorded(HistoryOf(ops)), cutoff);
    hide After, Recorded, HistoryOf, Oldest;
    forall i: nat | EarliestSince(ops, cutoff, i)
      ensures log != [] && Oldest(log) == ops[i].stamp
    {
      RecordedMembers(ops, Consumption(Price(ops[i].resp.status), ops[i].stamp));
      OldestSince(ops, cutoff, log, i);
    }
    if NoneSince(ops, cutoff) && log != [] {
      assert log[0] in log;
      RecordedMembers(ops, log[0]);
      assert false;
    }
  }

  lemma OldestSince(ops: seq<Op>, cutoff: int, log: seq<Consumption>, i: nat)
    requires EarliestSince(ops, cutoff, i) && log != []
    requires forall c :: c in log <==> c in Recorded(HistoryOf(ops)) && c.consumed > cutoff
    ensures Oldest(log) == ops[i].stamp
  {
    var k := OldestIsLeast(log);
    var c := Consumption(Price(ops[i].resp.status), ops[i].stamp);
    RecordedMembers(ops, c);
    RecordedMembers(ops, log[k]);
    hide Recorded, HistoryOf, Oldest, Price;
    assert log[k] in log && c in log;
  }

  /** What a response leaves in the limiter: what the server reports, if it can be read, or what has
      been counted. */
  lemma UsageAfterResponse(limit: int, start: int, ops: seq<Op>, resp: Response, stamp: int, clean: int)
    requires LatestClean(ops, start) <= clean
    ensures var t := Play(NewLimiter(limit, start), ops + [Respond(resp, stamp, clean)]);
            var counted := TokensSince(ops, clean - 900_000_000_000);
            && t.limit == StatedLimit(ops + [Respond(resp, stamp, clean)], limit)
            && t.lastUpdate == clean
            && match (resp.remaining, resp.used)
               case (Absent, _) => t.used == counted + Price(resp.status)
               case (Garbled, _) => t.used == counted
               case (Num(remaining), Absent) => t.limit - t.used == remaining
               case (Num(_), Garbled) => t.used == counted
               case (Num(_), Num(used)) => t.used == used
  {
    var longer := ops + [Respond(resp, stamp, clean)];
    assert longer[..|ops|] == ops;
    CleanedAfterIs(limit, start, ops, clean);
    hide TokensSince, InWindow, Recorded, LatestDeadline, HistoryOf;
  }
}
