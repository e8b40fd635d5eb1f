/** The limiter objects of internal/core/esi/rate_limited_client.go and the client that shares them.
    Clock readings are parameters; every method's effect is stated by TokenWindow and
    LimiterDirectory. */
module EsiClient {
  import opened TokenWindow
  import opened LimiterDirectory

  class GroupLimiter {
    const name: string
    const initialLimit: int

    var tokenLimit: int
    var tokenUsed: int
    var consumptions: seq<Consumption>
    var lastUpdate: int
    var retryAfter: int

    ghost var history: seq<Arrival>  // every response charged to this limiter
    ghost var latestClean: int       // the latest clock reading of a cleanup

    function View(): Limiter
      reads this
    {
      Limiter(tokenLimit, tokenUsed, consumptions, retryAfter, lastUpdate)
    }

    ghost predicate Valid()
      reads this
    {
      Refines(View(), history, initialLimit, latestClean)
    }

    /** Valid, but for a limit that the response about to be charged has already set. */
    ghost predicate ReadyFor(resp: Response)
      reads this
    {
      && Refines(View().(limit := LatestLimit(history, initialLimit)), history, initialLimit, latestClean)
      && (tokenLimit == LatestLimit(history, initialLimit) || tokenLimit == HeaderLimit(resp) > 0)
    }

    lemma ValidIsReady(resp: Response)
      requires Valid()
      ensures ReadyFor(resp)
    {
    }

    constructor (name: string, tokenLimit: int, now: int)
      ensures Valid() && this.name == name && initialLimit == tokenLimit
      ensures View() == NewLimiter(tokenLimit, now) && history == [] && latestClean == now
    {
      this.name, this.initialLimit, this.tokenLimit := name, tokenLimit, tokenLimit;
      tokenUsed, consumptions, lastUpdate, retryAfter := 0, [], now, ZERO_TIME;
      history, latestClean := [], now;
    }

    method CleanupOldConsumptions(now: int)
      modifies this
      ensures View() == Cleaned(old(View()), now)
      ensures history == old(history) && latestClean == Later(old(latestClean), now)
    {
      hide After, Total;
      var cutoff := now - WINDOW;
      var validConsumptions: seq<Consumption> := [];
      var totalTokens := 0;
      var i := 0;
      assert After(consumptions[..0], cutoff) == [] && Total([]) == 0 by {
        EmptyAfter(consumptions[..0], cutoff);
      }
      while i < |consumptions|
        invariant 0 <= i <= |consumptions|
        invariant validConsumptions == After(consumptions[..i], cutoff)
        invariant totalTokens == Total(validConsumptions)
        invariant View() == old(View()) && history == old(history) && latestClean == old(latestClean)
      {
        var c := consumptions[i];
        AfterStep(consumptions, i, cutoff);
        if c.consumed > cutoff {
          validConsumptions := validConsumptions + [c];
          totalTokens := totalTokens + c.tokens;
        }
        i := i + 1;
      }
      assert consumptions[..i] == consumptions;
      consumptions, tokenUsed, lastUpdate := validConsumptions, totalTokens, now;
      latestClean := Later(latestClean, now);
    }

    /** The earliest entry, as the loop over the log finds it. */
    method OldestConsumption() returns (t: int)
      requires consumptions != []
      ensures t == Oldest(consumptions)
    {
      t := consumptions[0].consumed;
      var i := 0;
      while i < |consumptions|
        invariant 0 <= i <= |consumptions|
        invariant t == if i == 0 then consumptions[0].consumed else Oldest(consumptions[..i])
      {
        assert consumptions[..i + 1][..i] == consumptions[..i];
        if consumptions[i].consumed < t {
          t := consumptions[i].consumed;
        }
        i := i + 1;
      }
      assert consumptions[..i] == consumptions;
    }

    /** canMakeRequest; with a clock that does not go back it decides by the full history. */
    method CanMakeRequest(estimate: int, clean: int, now: int, until: int) returns (d: Decision)
      requires Valid()
      modifies this
      ensures Valid() && View() == Cleaned(old(View()), clean) && history == old(history)
      ensures latestClean == Later(old(latestClean), clean)
      ensures d == Decide(View(), name, estimate, now, until)
      ensures old(latestClean) <= clean ==>
                (d.Admitted? <==>
                 && LatestDeadline(history) <= now
                 && Total(InWindow(Recorded(history), clean)) + estimate <= LatestLimit(history, initialLimit))
    {
      hide AgreeFrom, InWindow, Recorded, LatestDeadline, LatestLimit, Total;
      CleanedRefines(View(), history, initialLimit, latestClean, clean);
      if latestClean <= clean {
        AdmitsByHistory(View(), history, initialLimit, latestClean, name, estimate, clean, now, until);
      }
      CleanupOldConsumptions(clean);
      if now < retryAfter {
        return Limited(RateLimitError(true, retryAfter, RetryAfterActive, name, tokenUsed, tokenLimit, estimate));
      }
      if tokenUsed + estimate > tokenLimit {
        var oldestExpiry := now + WINDOW;
        if |consumptions| > 0 {
          var oldest := OldestConsumption();
          oldestExpiry := oldest + WINDOW;
        }
        var retryable := false;
        if now < oldestExpiry && oldestExpiry - until < SOON {
          retryable := true;
        }
        return Limited(RateLimitError(retryable, oldestExpiry, InsufficientTokens, name,
                                      tokenUsed, tokenLimit, estimate));
      }
      return Admitted;
    }

    /** The part of updateFromHeaders that follows the choice of the limiter. */
    method Charge(resp: Response, tokens: int, stamp: int, clean: int)
      requires ReadyFor(resp) && tokens == Cost(resp.status)
      modifies this
      ensures Valid() && View() == Updated(old(View()), resp, tokens, stamp, clean)
      ensures history == old(history) + [Arrival(resp, stamp)]
      ensures latestClean == Later(old(latestClean), clean)
    {
      hide AgreeFrom, Recorded, After, Total, InWindow, Oldest;
      ghost var before := View().(limit := LatestLimit(history, initialLimit));
      UpdatedRefines(before, history, initialLimit, latestClean, resp, stamp, clean);
      assert Updated(View(), resp, tokens, stamp, clean) == Updated(before, resp, tokens, stamp, clean);
      hide Refines, Cleaned, LatestLimit, LatestDeadline;
      var headerLimit := if resp.limit.Num? then resp.limit.n else 0;
      CleanupOldConsumptions(clean);
      if headerLimit > 0 && headerLimit != tokenLimit {
        tokenLimit := headerLimit;
      }
      if !resp.remaining.Absent? {
        if resp.remaining.Num? {
          if !resp.used.Absent? {
            if resp.used.Num? {
              tokenUsed := resp.used.n;
            }
          } else {
            tokenUsed := tokenLimit - resp.remaining.n;
          }
        }
      } else {
        consumptions := consumptions + [Consumption(tokens, stamp)];
        tokenUsed := tokenUsed + tokens;
      }
      if resp.status == TOO_MANY_REQUESTS {
        if !resp.retryAfter.Absent? {
          if resp.retryAfter.Num? {
            retryAfter := stamp + resp.retryAfter.n * SECOND;
          }
        } else {
          retryAfter := stamp + WINDOW;
        }
      }
      history := history + [Arrival(resp, stamp)];
    }
  }

  /** The choice of a limiter may already have given it the limit the response states. */
  predicate SettledFrom(before: Limiter, l: Limiter, resp: Response) {
    l == before || (HeaderLimit(resp) > 0 && l == before.(limit := HeaderLimit(resp)))
  }

  lemma LimitOverwritten(before: Limiter, l: Limiter, resp: Response, tokens: int, stamp: int, clean: int)
    requires SettledFrom(before, l, resp)
    ensures Updated(l, resp, tokens, stamp, clean) == Updated(before, resp, tokens, stamp, clean)
  {
  }

  /** The clock readings of one DoRequest, in the order they are taken. */
  datatype Clock = Clock(check: int, now: int, until: int, stamp: int, created: int, clean: int, reply: int)

  /** What the network does after a request was admitted. */
  datatype Network = Failed | Replied(resp: Response)

  datatype Outcome = Refused(error: RateLimitError) | TransportError | Ok(resp: Response)

  class ESIClient {
    var limiters: map<string, GroupLimiter>
    const defLim: GroupLimiter
    var pathToGroup: map<string, string>

    /** Each limiter is filed under its own name, so distinct groups are distinct objects, and none
        of them is the default limiter; every mapped path has a limiter. */
    ghost predicate Structured()
      reads this
    {
      && defLim.name == "default"
      && (forall g :: g in limiters ==> limiters[g].name == g && limiters[g] != defLim)
      && WellFormed(Dir())
    }

    ghost predicate Valid()
      reads this, defLim, set g | g in limiters :: limiters[g]
    {
      && Structured()
      && defLim.Valid()
      && (forall g :: g in limiters ==> limiters[g].Valid())
    }

    /** Valid, but for one limiter that is being charged. */
    ghost predicate ValidBut(gl: GroupLimiter)
      reads this, defLim, set g | g in limiters :: limiters[g]
    {
      && (defLim != gl ==> defLim.Valid())
      && (forall g :: g in limiters && limiters[g] != gl ==> limiters[g].Valid())
    }

    function Dir(): Directory
      reads this
    {
      Directory(pathToGroup, limiters.Keys)
    }

    ghost predicate Owns(gl: GroupLimiter)
      reads this
    {
      gl == defLim || (gl.name in limiters && limiters[gl.name] == gl)
    }

    ghost function TargetOf(gl: GroupLimiter): Target {
      if gl == defLim then DefaultLimiter else GroupLimiterOf(gl.name)
    }

    /** The limiter object of a target. */
    ghost function LimiterOf(t: Target): GroupLimiter
      reads this
    {
      if t.GroupLimiterOf? && t.group in limiters then limiters[t.group] else defLim
    }

    constructor (now: int)
      ensures Valid() && Dir() == EMPTY && fresh(defLim)
      ensures defLim.View() == Limiter(1000, 0, [], -62_135_596_800_000_000_000, now)
    {
      defLim := new GroupLimiter("default", DEFAULT_TOKEN_LIMIT, now);
      limiters, pathToGroup := map[], map[];
    }

    method GetLimiterForPath(path: string) returns (gl: GroupLimiter, known: bool)
      requires Valid()
      ensures Owns(gl) && TargetOf(gl) == Lookup(Dir(), path)
      ensures known <==> gl != defLim
    {
      if path in pathToGroup {
        var groupName := pathToGroup[path];
        if groupName in limiters {
          return limiters[groupName], true;
        }
      }
      return defLim, false;
    }

    /** getOrCreateGroupLimiter, for a response whose limit header reads `tokenLimit`. */
    method GetOrCreateGroupLimiter(
      groupName: string, path: string, tokenLimit: int, now: int, ghost resp: Response)
      returns (gl: GroupLimiter)
      requires Valid() && tokenLimit == HeaderLimit(resp)
      modifies this, if groupName in limiters then {limiters[groupName]} else {}
      ensures Structured() && groupName in limiters && limiters[groupName] == gl && gl.ReadyFor(resp)
      ensures Dir() == Directory(old(pathToGroup)[path := groupName], old(limiters.Keys) + {groupName})
      ensures forall g :: g in old(limiters) ==> g in limiters && limiters[g] == old(limiters[g])
      ensures if groupName in old(limiters)
              then
                && gl.View() == old(gl.View()).(limit := if tokenLimit > 0 then tokenLimit else old(gl.tokenLimit))
                && gl.history == old(gl.history)
              else
                && fresh(gl)
                && gl.View() == NewLimiter(if tokenLimit == 0 then DEFAULT_TOKEN_LIMIT else tokenLimit, now)
                && gl.history == []
    {
      if groupName in limiters {
        gl := limiters[groupName];
        if tokenLimit > 0 && tokenLimit != gl.tokenLimit {
          gl.tokenLimit := tokenLimit;
        }
        pathToGroup := pathToGroup[path := groupName];
        assert limiters.Keys == old(limiters.Keys) + {groupName};
        return;
      }
      gl := new GroupLimiter(groupName, if tokenLimit == 0 then DEFAULT_TOKEN_LIMIT else tokenLimit, now);
      limiters := limiters[groupName := gl];
      pathToGroup := pathToGroup[path := groupName];
    }

    /** The first half of updateFromHeaders: the choice of the limiter, by name as `Route` says. */
    method SettleLimiter(gl: GroupLimiter, resp: Response, path: string, created: int)
      returns (actual: GroupLimiter)
      requires Valid() && Owns(gl)
      modifies this, set g | g in limiters :: limiters[g]
      ensures Structured() && Owns(actual) && actual.ReadyFor(resp) && ValidBut(actual)
      ensures Dir() == Route(old(Dir()), TargetOf(gl), path, resp.group).0
      ensures TargetOf(actual) == Route(old(Dir()), TargetOf(gl), path, resp.group).1
      ensures forall g :: g in old(limiters) ==> g in limiters && limiters[g] == old(limiters[g])
      ensures if old(allocated(actual))
              then
                && actual.history == old(actual.history)
                && SettledFrom(old(actual.View()), actual.View(), resp)
              else
                && resp.group !in old(limiters) && resp.group in limiters && limiters[resp.group] == actual
                && actual.history == []
                && actual.View() ==
                   NewLimiter(if HeaderLimit(resp) == 0 then DEFAULT_TOKEN_LIMIT else HeaderLimit(resp), created)
      ensures limiters.Keys == old(limiters.Keys) + if old(allocated(actual)) then {} else {resp.group}
      ensures unchanged(defLim)
      ensures forall g :: g in old(limiters) && limiters[g] != actual ==> unchanged(limiters[g])
    {
      hide Refines, LatestLimit, LatestDeadline;
      var tokenLimit := if resp.limit.Num? then resp.limit.n else 0;
      if resp.group != "" {
        var pathKnown := path in pathToGroup;
        var hasLimiter := resp.group in limiters;
        if pathKnown && pathToGroup[path] == resp.group && hasLimiter {
          actual := limiters[resp.group];
          actual.ValidIsReady(resp);
        } else if resp.group != gl.name || !hasLimiter {
          actual := GetOrCreateGroupLimiter(resp.group, path, tokenLimit, created, resp);
        } else {
          actual := gl;
          gl.ValidIsReady(resp);
        }
      } else {
        actual := gl;
        gl.ValidIsReady(resp);
      }
    }

    /** updateFromHeaders: it settles on the limiter that `Route` names, charges that one, and leaves
        every other limiter alone. */
    method UpdateFromHeaders(
      gl: GroupLimiter, resp: Response, tokens: int, path: string, stamp: int, created: int, clean: int)
      returns (actual: GroupLimiter)
      requires Valid() && Owns(gl) && tokens == Cost(resp.status)
      modifies this, defLim, set g | g in limiters :: limiters[g]
      ensures Valid() && Owns(actual)
      ensures Dir() == Route(old(Dir()), TargetOf(gl), path, resp.group).0
      ensures TargetOf(actual) == Route(old(Dir()), TargetOf(gl), path, resp.group).1
      ensures forall g :: g in old(limiters) ==> g in limiters && limiters[g] == old(limiters[g])
      ensures if old(allocated(actual))
              then
                && actual.View() == Updated(old(actual.View()), resp, tokens, stamp, clean)
                && actual.history == old(actual.history) + [Arrival(resp, stamp)]
              else
                var limit := if HeaderLimit(resp) == 0 then DEFAULT_TOKEN_LIMIT else HeaderLimit(resp);
                && resp.group !in old(limiters)
                && actual.View() == Updated(NewLimiter(limit, created), resp, tokens, stamp, clean)
                && actual.history == [Arrival(resp, stamp)]
      ensures defLim != actual ==> unchanged(defLim)
      ensures forall g :: g in old(limiters) && limiters[g] != actual ==> unchanged(limiters[g])
    {
      actual := SettleLimiter(gl, resp, path, created);
      hide Refines, Updated, Route, LatestLimit, LatestDeadline, NewLimiter, Structured, Cost, HeaderLimit;
      hide SettledFrom;
      if old(allocated(actual)) {
        LimitOverwritten(old(actual.View()), actual.View(), resp, tokens, stamp, clean);
      }
      label settled:
      actual.Charge(resp, tokens, stamp, clean);
      assert ValidBut(actual) && Dir() == old@settled(Dir());
    }

    /** What the check of this request says. */
    ghost function Verdict(path: string, c: Clock): Decision
      reads this, LimiterOf(Lookup(Dir(), path))
    {
      var gl := LimiterOf(Lookup(Dir(), path));
      Decide(Cleaned(gl.View(), c.check), gl.name, ESTIMATED_TOKENS, c.now, c.until)
    }

    /** DoRequest by a client that handles one request at a time. */
    method DoRequest(path: string, c: Clock, network: Network) returns (r: Outcome)
      requires Valid()
      modifies this, defLim, set g | g in limiters :: limiters[g]
      ensures Valid()
      ensures forall g :: g in old(limiters) ==> g in limiters && limiters[g] == old(limiters[g])
      ensures old(Verdict(path, c)).Limited? ==> r == Refused(old(Verdict(path, c)).error)
      ensures old(Verdict(path, c)).Admitted? && network.Failed? ==> r == TransportError
      ensures old(Verdict(path, c)).Limited? || network.Failed? ==>
                && Dir() == old(Dir())
                && defLim.history == old(defLim.history)
                && (forall g :: g in old(limiters) ==> limiters[g].history == old(limiters[g].history))
      ensures old(Verdict(path, c)).Admitted? && network.Replied? ==>
                var resp := network.resp;
                var actual := LimiterOf(Route(old(Dir()), Lookup(old(Dir()), path), path, resp.group).1);
                && Dir() == Handle(old(Dir()), Exchange(path, resp.group))
                && actual.history ==
                   (if old(allocated(actual)) then old(actual.history) else []) + [Arrival(resp, c.stamp)]
                && (defLim != actual ==> defLim.history == old(defLim.history))
                && (forall g :: g in old(limiters) && limiters[g] != actual ==>
                      limiters[g].history == old(limiters[g].history))
                && (if resp.status == TOO_MANY_REQUESTS
                    then
                      && r.Refused? && r.error.reason.ServerSaid429? && r.error.group == actual.name
                      && (r.error.retryable <==> resp.retryAfter.Num?)
                      && r.error.retryAfter ==
                         c.reply + (if resp.retryAfter.Num? then resp.retryAfter.n * 1_000_000_000
                                    else 900_000_000_000)
                      && r.error.tokenUsed == actual.tokenUsed && r.error.tokenLimit == actual.tokenLimit
                      && r.error.estimatedTokens == 5
                    else r == Ok(resp))
    {
      hide Refines, Updated, Cleaned, LatestLimit, LatestDeadline, Recorded, InWindow, Total;
      hide Route, Lookup, WellFormed, Decide;
      var gl, known := GetLimiterForPath(path);
      assert gl == LimiterOf(Lookup(Dir(), path));
      var d := gl.CanMakeRequest(ESTIMATED_TOKENS, c.check, c.now, c.until);
      if d.Limited? {
        return Refused(d.error);
      }
      if network.Failed? {
        return TransportError;
      }
      var resp := network.resp;
      var actual := UpdateFromHeaders(gl, resp, Cost(resp.status), path, c.stamp, c.created, c.clean);
      if resp.status == TOO_MANY_REQUESTS {
        var retryAfter := if resp.retryAfter.Num? then c.reply + resp.retryAfter.n * SECOND else c.reply + WINDOW;
        return Refused(RateLimitError(resp.retryAfter.Num?, retryAfter, ServerSaid429, actual.name,
                                      actual.tokenUsed, actual.tokenLimit, Cost(resp.status)));
      }
      return Ok(resp);
    }
  }
}
