/** What whole runs of the paged work queue guarantee: what is recorded, what is sent, the exact
    order without failures, and the exact page count up to which the channel can never fill. */
module PageQueueLaws {
  import opened PageQueue

  // ---- The history determines the results, and no request is lost --------------------------

  ghost function Bodies<T>(log: seq<Attempt<T>>): seq<T> {
    if log == [] then []
    else
      var last := log[|log| - 1].outcome;
      Bodies(log[..|log| - 1]) + if last.Fetched? then last.items else []
  }

  /** For every page fetched successfully at least once, the ETag of its last successful fetch. */
  ghost function LastETags<T>(log: seq<Attempt<T>>): map<int, string> {
    if log == [] then map[]
    else
      var a := log[|log| - 1];
      var before := LastETags(log[..|log| - 1]);
      if a.outcome.Fetched? then before[a.page := a.outcome.etag] else before
  }

  ghost function Tries<T>(log: seq<Attempt<T>>, page: int, retries: nat): nat {
    if log == [] then 0
    else
      var a := log[|log| - 1];
      Tries(log[..|log| - 1], page, retries) + if a.page == page && a.retries == retries then 1 else 0
  }

  ghost function Failures<T>(log: seq<Attempt<T>>, page: int, retries: nat): nat {
    if log == [] then 0
    else
      var a := log[|log| - 1];
      Failures(log[..|log| - 1], page, retries) +
      if a.page == page && a.retries == retries && a.outcome.Failed? then 1 else 0
  }

  ghost function Waiting(queue: seq<Request>, page: int, retries: nat): nat {
    if queue == [] then 0
    else
      (if queue[0].page == page && queue[0].retries == retries then 1 else 0) +
      Waiting(queue[1..], page, retries)
  }

  lemma {:induction false} WaitingConcat(a: seq<Request>, b: seq<Request>, page: int, retries: nat)
    ensures Waiting(a + b, page, retries) == Waiting(a, page, retries) + Waiting(b, page, retries)
  {
    if a == [] {
      assert a + b == b;
    } else {
      assert (a + b)[1..] == a[1..] + b;
      WaitingConcat(a[1..], b, page, retries);
    }
  }

  lemma {:induction false} FreshAreUntried(shared: Params, pages: seq<int>, page: int, retries: nat)
    requires retries > 0
    ensures Waiting(FreshRequests(shared, pages), page, retries) == 0
  {
    if pages != [] {
      FreshAreUntried(shared, pages[1..], page, retries);
    }
  }

  /** Every failed fetch of a page at one level of retries is matched by one fetch, made or still
      waiting, at the next level. */
  ghost predicate Flow<T>(s: State<T>, page: int, retries: nat) {
    Tries(s.log, page, retries + 1) + Waiting(s.queue, page, retries + 1) == Failures(s.log, page, retries)
  }

  ghost predicate Recorded<T>(s: State<T>) {
    && s.items == Bodies(s.log)
    && s.etags == LastETags(s.log)
    && (forall p, r: nat | r < MAX_RETRIES :: Flow(s, p, r))
    && (forall p :: p in s.completed ==> exists r: nat :: r <= MAX_RETRIES && Tries(s.log, p, r) > 0)
  }

  lemma StepKeepsFlow<T(!new)>(net: Net<T>, prev: map<int, string>, s: State<T>, page: int, retries: nat)
    requires s.queue != [] && retries < MAX_RETRIES && Flow(s, page, retries)
    ensures Flow(Step(net, prev, s), page, retries)
  {
    var t := Step(net, prev, s);
    var rest := s.queue[1..];
    var taken := s.(queue := rest);
    var pushes := Pushes(net, prev, taken, s.queue[0]);
    assert t.log[..|s.log|] == s.log;
    WaitingConcat(rest, pushes, page, retries + 1);
    match net(|s.log|) {
      case Failed =>
      case Fetched(_, _, header) =>
        var after := AfterFetch(net, prev, taken, s.queue[0]);
        FreshAreUntried(after.shared, Unmarked(after.completed, 2, AvailablePages(header)), page, retries + 1);
    }
  }

  lemma StepKeepsRecorded<T(!new)>(net: Net<T>, prev: map<int, string>, s: State<T>, n: int)
    requires Bounded(net, n) && WithinPages(s, n) && s.queue != [] && Recorded(s)
    ensures Recorded(Step(net, prev, s))
  {
    var t := Step(net, prev, s);
    assert t.log[..|s.log|] == s.log;
    forall p, r: nat | r < MAX_RETRIES
      ensures Flow(t, p, r)
    {
      StepKeepsFlow(net, prev, s, p, r);
    }
    forall p | p in t.completed
      ensures exists r: nat :: r <= MAX_RETRIES && Tries(t.log, p, r) > 0
    {
      var r: nat := if p == s.queue[0].page then s.queue[0].retries
                    else var r: nat :| r <= MAX_RETRIES && Tries(s.log, p, r) > 0; r;
      assert Tries(t.log, p, r) > 0;
    }
  }

  lemma {:induction false} FinalRecorded<T(!new)>(net: Net<T>, prev: map<int, string>, s: State<T>, n: int)
    requires Bounded(net, n) && WithinPages(s, n) && Recorded(s)
    ensures Recorded(Final(net, prev, s, n))
    decreases Turns(net, prev, s, n)
  {
    if s.queue != [] {
      StepDescends(net, prev, s, n);
      StepKeepsRecorded(net, prev, s, n);
      FinalRecorded(net, prev, Step(net, prev, s), n);
    }
  }

  lemma {:induction false} NoETagMeansAllFailed<T>(log: seq<Attempt<T>>, page: int, retries: nat)
    ensures Failures(log, page, retries) <= Tries(log, page, retries)
    ensures page !in LastETags(log) ==> Failures(log, page, retries) == Tries(log, page, retries)
  {
    if log != [] {
      NoETagMeansAllFailed(log[..|log| - 1], page, retries);
    }
  }

  // ---- What each request carries -----------------------------------------------------------

  /** The parameters every fetch of a page is made with.  The private copies are taken from the
      caller's map after page 1 has written its own ETag into it. */
  function Carried(prev: map<int, string>, initial: Params, page: int): Params {
    var first := WithETag(prev, 1, initial);
    if page == 1 then first else WithETag(prev, page, PageParams(first, page))
  }

  /** A request that is not for page 1 owns parameters that lead to what `Carried` says. */
  ghost predicate Addressed(prev: map<int, string>, initial: Params, q: Request) {
    if q.page == 1 then q.source.Shared?
    else q.source.Own? && WithETag(prev, q.page, q.source.params) == Carried(prev, initial, q.page)
  }

  ghost predicate WellAddressed<T>(prev: map<int, string>, initial: Params, s: State<T>) {
    && s.shared == (if s.log == [] then initial else Carried(prev, initial, 1))
    && (forall a :: a in s.log ==> a.sent == Carried(prev, initial, a.page))
    && (forall q :: q in s.queue ==> Addressed(prev, initial, q) && (s.log == [] ==> q.page == 1))
  }

  lemma PushesAddressed<T(!new)>(net: Net<T>, prev: map<int, string>, initial: Params, s: State<T>, r: Request)
    requires Addressed(prev, initial, r) && (s.log == [] ==> r.page == 1)
    requires s.shared == if s.log == [] then initial else Carried(prev, initial, 1)
    ensures Sent(prev, s, r) == Carried(prev, initial, r.page)
    ensures AfterFetch(net, prev, s, r).shared == Carried(prev, initial, 1)
    ensures forall q :: q in Pushes(net, prev, s, r) ==> Addressed(prev, initial, q)
  {
    var after := AfterFetch(net, prev, s, r);
    assert after.shared == Carried(prev, initial, 1);
    match net(|s.log|)
    case Failed =>
    case Fetched(_, _, header) =>
      var pages := Unmarked(after.completed, 2, AvailablePages(header));
      var pushes := FreshRequests(after.shared, pages);
      forall q | q in pushes
        ensures Addressed(prev, initial, q)
      {
        var i :| 0 <= i < |pushes| && pushes[i] == q;
        assert pages[i] in pages;
      }
  }

  lemma StepKeepsAddressed<T(!new)>(net: Net<T>, prev: map<int, string>, initial: Params, s: State<T>)
    requires s.queue != [] && WellAddressed(prev, initial, s)
    ensures WellAddressed(prev, initial, Step(net, prev, s))
  {
    var taken := s.(queue := s.queue[1..]);
    assert s.queue[0] in s.queue;
    PushesAddressed(net, prev, initial, taken, s.queue[0]);
    hide Pushes, Sent, Carried, Addressed;
  }

  /** Every fetch of page p >= 2 sends p's own previous ETag if there is one, and otherwise the
      previous ETag of page 1, because the copies are taken from an aliased map. */
  lemma {:induction false} EveryFetchCarries<T(!new)>(
    net: Net<T>, prev: map<int, string>, initial: Params, s: State<T>, n: int)
    requires Bounded(net, n) && WithinPages(s, n) && WellAddressed(prev, initial, s)
    ensures forall a :: a in Final(net, prev, s, n).log ==>
              && a.sent == Carried(prev, initial, a.page)
              && (a.page in prev ==> a.sent["If-None-Match"] == [prev[a.page]])
              && (a.page !in prev && 1 in prev ==> a.sent["If-None-Match"] == [prev[1]])
    decreases Turns(net, prev, s, n)
  {
    if s.queue != [] {
      StepDescends(net, prev, s, n);
      StepKeepsAddressed(net, prev, initial, s);
      EveryFetchCarries(net, prev, initial, Step(net, prev, s), n);
    }
  }

  /** The number a decimal numeral stands for. */
  function DigitsValue(s: string): int {
    if s == "" then 0 else 10 * DigitsValue(s[..|s| - 1]) + (s[|s| - 1] as int - '0' as int)
  }

  function Value(s: string): int {
    if s != "" && s[0] == '-' then -DigitsValue(s[1..]) else DigitsValue(s)
  }

  /** A numeral without leading zeros. */
  predicate Canonical(s: string) {
    && s != "" && (forall i :: 0 <= i < |s| ==> '0' <= s[i] <= '9')
    && (|s| > 1 ==> s[0] != '0')
  }

  lemma {:induction false} DigitsRoundTrip(n: nat)
    ensures DigitsValue(Digits(n)) == n && Canonical(Digits(n))
    ensures n > 0 ==> Digits(n)[0] != '0'
  {
    if n >= 10 {
      DigitsRoundTrip(n / 10);
      assert Digits(n)[..|Digits(n)| - 1] == Digits(n / 10);
    }
  }

  lemma ItoaRoundTrip(n: int)
    ensures Value(Itoa(n)) == n
    ensures n >= 0 ==> Canonical(Itoa(n))
  {
    DigitsRoundTrip(if n < 0 then -n else n);
    if n < 0 {
      assert ("-" + Digits(-n))[1..] == Digits(-n);
    }
  }

  /** The parameter `key` is what the caller passed. */
  predicate AsPassed(key: string, sent: Params, initial: Params) {
    (key in sent <==> key in initial) && (key in initial ==> sent[key] == initial[key])
  }

  /** What a fetch of one page sends, key by key. */
  ghost predicate SendsForPage(prev: map<int, string>, initial: Params, page: int, sent: Params) {
    && (forall key :: key != "page" && key != "If-None-Match" ==> AsPassed(key, sent, initial))
    && (if page == 1 then AsPassed("page", sent, initial)
        else "page" in sent && |sent["page"]| == 1 && Value(sent["page"][0]) == page && Canonical(sent["page"][0]))
    && (if page in prev then "If-None-Match" in sent && sent["If-None-Match"] == [prev[page]]
        else if 1 in prev then "If-None-Match" in sent && sent["If-None-Match"] == [prev[1]]
        else AsPassed("If-None-Match", sent, initial))
  }

  lemma CarriedForPage(prev: map<int, string>, initial: Params, page: int)
    requires page >= 1
    ensures SendsForPage(prev, initial, page, Carried(prev, initial, page))
  {
    ItoaRoundTrip(page);
    hide Itoa, Value, Canonical;
  }

  /** Every fetch asks for its own page in decimal, sends the ETag as above, and otherwise what the
      caller passed. */
  lemma EveryFetchSends<T(!new)>(net: Net<T>, prev: map<int, string>, initial: Params, n: int)
    requires n >= 1 && Bounded(net, n)
    ensures WithinPages(Init<T>(initial), n)
    ensures forall a :: a in Final(net, prev, Init<T>(initial), n).log ==>
              a.page >= 1 && SendsForPage(prev, initial, a.page, a.sent)
  {
    var s := Init<T>(initial);
    InitStarts<T>(prev, initial, n);
    EveryFetchCarries(net, prev, initial, s, n);
    FinalWithin(net, prev, s, n);
    forall a | a in Final(net, prev, s, n).log
      ensures SendsForPage(prev, initial, a.page, a.sent)
    {
      CarriedForPage(prev, initial, a.page);
    }
  }

  lemma {:induction false} FinalWithin<T(!new)>(net: Net<T>, prev: map<int, string>, s: State<T>, n: int)
    requires Bounded(net, n) && WithinPages(s, n) && (forall a :: a in s.log ==> 1 <= a.page <= n)
    ensures forall a :: a in Final(net, prev, s, n).log ==> 1 <= a.page <= n
    decreases Turns(net, prev, s, n)
  {
    if s.queue != [] {
      StepDescends(net, prev, s, n);
      var t := Step(net, prev, s);
      assert s.queue[0] in s.queue;
      assert forall a :: a in t.log ==> a in s.log || a.page == s.queue[0].page;
      hide Step, Rank;
      FinalWithin(net, prev, t, n);
    }
  }

  // ---- A constant page count: one scan over the pages, then the leftovers ------------------

  ghost predicate Constant<T(!new)>(net: Net<T>, n: int) {
    forall k: nat :: net(k).Fetched? ==> Reports(net(k).header, n)
  }

  /** A header reports n pages; one page is also what a header without a number means. */
  predicate Reports(h: PageHeader, n: int) {
    h == Pages(n) || (n == 1 && !h.Pages?)
  }

  /** The count the code reads is the one reported: without a usable number, one page. */
  lemma CountReported(h: PageHeader, n: int)
    ensures h.Pages? ==> (Reports(h, n) ==> AvailablePages(h) == n) && AvailablePages(h) == h.count
    ensures !h.Pages? ==> AvailablePages(h) == 1
  {
  }

  ghost predicate AllSucceed<T(!new)>(net: Net<T>, n: int) {
    forall k: nat :: net(k).Fetched? && Reports(net(k).header, n)
  }

  ghost function Range(a: int, b: int): (ps: seq<int>)
    ensures |ps| == if a <= b then b - a + 1 else 0
    ensures forall i :: 0 <= i < |ps| ==> ps[i] == a + i
    decreases b - a + 1
  {
    if a > b then [] else [a] + Range(a + 1, b)
  }

  ghost function PageSet(b: int): (ps: set<int>)
    ensures forall p :: p in ps <==> 1 <= p <= b
    decreases b
  {
    if b < 1 then {} else PageSet(b - 1) + {b}
  }

  ghost function PagesIn(queue: seq<Request>): (ps: seq<int>)
    ensures |ps| == |queue|
  {
    seq(|queue|, i requires 0 <= i < |queue| => queue[i].page)
  }

  ghost function PagesOf<T>(log: seq<Attempt<T>>): (ps: seq<int>)
    ensures |ps| == |log|
  {
    seq(|log|, i requires 0 <= i < |log| => log[i].page)
  }

  lemma {:induction false} UnmarkedIsRange(b: int, from: int, n: int)
    requires 2 <= from && 1 <= b
    ensures Unmarked(PageSet(b), from, n) == Range(if from <= b then b + 1 else from, n)
    decreases n - from + 1
  {
    if from <= n {
      UnmarkedIsRange(b, from + 1, n);
    }
  }

  /** Page 1 has not been fetched yet and is the only request. */
  ghost predicate Alone<T>(s: State<T>) {
    && s.queue == [Request(1, |s.log|, Shared)]
    && |s.log| <= MAX_RETRIES
    && s.completed <= {1}
    && s.etags == map[]
    && (forall a :: a in s.log ==> a.page == 1 && a.outcome.Failed?)
  }

  /** Pages 1..p-1 have been dequeued, and p..n come next in that order. */
  ghost predicate Scanning<T>(s: State<T>, p: int, n: int) {
    && 2 <= p <= n + 1
    && s.completed == PageSet(p - 1)
    && n + 1 - p <= |s.queue|
    && PagesIn(s.queue)[..n + 1 - p] == Range(p, n)
  }

  lemma StepPages<T(!new)>(net: Net<T>, prev: map<int, string>, s: State<T>, n: int)
    requires Constant(net, n) && s.queue != []
    ensures var t := Step(net, prev, s);
            var r := s.queue[0];
            && t.completed == s.completed + {r.page}
            && PagesOf(t.log) == PagesOf(s.log) + [r.page]
            && s.etags.Keys <= t.etags.Keys
            && PagesIn(t.queue) ==
               PagesIn(s.queue)[1..] +
               (if net(|s.log|).Fetched? then Unmarked(t.completed, 2, n)
                else if r.retries < MAX_RETRIES then [r.page] else [])
  {
  }

  lemma AloneFails<T(!new)>(net: Net<T>, prev: map<int, string>, s: State<T>)
    requires Alone(s)
    ensures var t := Step(net, prev, s);
            if net(|s.log|).Fetched? then 1 in t.etags
            else
              && t.etags == map[] && |t.log| == |s.log| + 1
              && (forall a :: a in t.log ==> a.page == 1 && a.outcome.Failed?)
              && t.queue == if |s.log| < MAX_RETRIES then [Request(1, |s.log| + 1, Shared)] else []
  {
    assert s.queue[1..] == [];
  }

  lemma AloneFetched<T(!new)>(net: Net<T>, prev: map<int, string>, s: State<T>, n: int)
    requires n >= 1 && Constant(net, n) && Alone(s) && net(|s.log|).Fetched?
    ensures var t := Step(net, prev, s);
            t.completed == PageSet(1) && PagesIn(t.queue) == Range(2, n)
  {
    hide Step, PagesOf, Range, Unmarked, Constant, Pushes, AfterFetch;
    StepPages(net, prev, s, n);
    UnmarkedIsRange(1, 2, n);
    JustPageOne(s);
    var t := Step(net, prev, s);
    hide PagesIn, PageSet, Alone;
    assert PagesIn(t.queue) == [] + Range(2, n);
  }

  lemma JustPageOne<T>(s: State<T>)
    requires Alone(s)
    ensures s.queue != [] && s.queue[0].page == 1 && PagesIn(s.queue)[1..] == []
    ensures s.completed + {1} == PageSet(1)
  {
    assert PageSet(1) == PageSet(0) + {1};
  }

  lemma StepAlone<T(!new)>(net: Net<T>, prev: map<int, string>, s: State<T>, n: int)
    requires n >= 1 && Constant(net, n) && Alone(s)
    ensures var t := Step(net, prev, s);
            if net(|s.log|).Fetched? then
              Scanning(t, 2, n) && |t.queue| == n - 1 && PagesIn(t.queue) == Range(2, n) && 1 in t.etags
            else if |s.log| < MAX_RETRIES then Alone(t)
            else t.queue == [] && t.etags == map[] && |t.log| == 4 &&
                 forall a :: a in t.log ==> a.page == 1 && a.outcome.Failed?
  {
    AloneFails(net, prev, s);
    if net(|s.log|).Fetched? {
      AloneFetched(net, prev, s, n);
      hide Step, PagesIn, PageSet, Range, Constant;
      assert Range(2, n)[..n - 1] == Range(2, n);
    } else {
      assert Step(net, prev, s).completed == s.completed + {1};
      hide Step;
    }
  }

  lemma StepScanning<T(!new)>(net: Net<T>, prev: map<int, string>, s: State<T>, p: int, n: int)
    requires Constant(net, n) && Scanning(s, p, n) && p <= n
    ensures var t := Step(net, prev, s);
            && s.queue != []
            && Scanning(t, p + 1, n)
            && |t.queue| <= |s.queue| - 1 + (if net(|s.log|).Fetched? then n - p else 1)
            && (net(|s.log|).Fetched? ==> PagesIn(t.queue) == PagesIn(s.queue)[1..] + Range(p + 1, n))
            && PagesOf(t.log) == PagesOf(s.log) + [p]
            && s.etags.Keys <= t.etags.Keys
  {
    StepPages(net, prev, s, n);
    UnmarkedIsRange(p, 2, n);
    hide Step;
    assert s.queue[0].page == PagesIn(s.queue)[..n + 1 - p][0] == p;
    assert s.completed + {p} == PageSet(p);
    assert PagesIn(Step(net, prev, s).queue)[..n - p] == PagesIn(s.queue)[1..n + 1 - p] == Range(p, n)[1..];
  }

  lemma StepLeftover<T(!new)>(net: Net<T>, prev: map<int, string>, s: State<T>, n: int)
    requires Constant(net, n) && Scanning(s, n + 1, n) && s.queue != [] && s.queue[0].page in s.completed
    ensures var t := Step(net, prev, s);
            && Scanning(t, n + 1, n)
            && |t.queue| <= |s.queue|
            && (net(|s.log|).Fetched? ==> PagesIn(t.queue) == PagesIn(s.queue)[1..])
            && PagesOf(t.log) == PagesOf(s.log) + [s.queue[0].page]
            && s.etags.Keys <= t.etags.Keys
  {
    StepPages(net, prev, s, n);
    UnmarkedIsRange(n, 2, n);
    hide Step;
    assert s.completed + {s.queue[0].page} == s.completed;
  }

  lemma WithinMeansCompleted<T>(s: State<T>, n: int)
    requires WithinPages(s, n) && Scanning(s, n + 1, n)
    ensures forall q :: q in s.queue ==> q.page in s.completed
  {
  }

  lemma {:induction false} ScanReachesEveryPage<T(!new)>(
    net: Net<T>, prev: map<int, string>, s: State<T>, p: int, n: int)
    requires Constant(net, n) && Bounded(net, n) && WithinPages(s, n) && Scanning(s, p, n)
    ensures Final(net, prev, s, n).completed == PageSet(n)
    ensures s.etags.Keys <= Final(net, prev, s, n).etags.Keys
    decreases Turns(net, prev, s, n)
  {
    hide Step, Most, Rank;
    if s.queue != [] {
      StepDescends(net, prev, s, n);
      if p <= n {
        StepScanning(net, prev, s, p, n);
        ScanReachesEveryPage(net, prev, Step(net, prev, s), p + 1, n);
      } else {
        WithinMeansCompleted(s, n);
        StepLeftover(net, prev, s, n);
        ScanReachesEveryPage(net, prev, Step(net, prev, s), p, n);
      }
    }
  }

  ghost predicate PageOneGivenUp<T>(t: State<T>) {
    t.etags == map[] && |t.log| == 4 && forall a :: a in t.log ==> a.page == 1 && a.outcome.Failed?
  }

  lemma {:induction false} AloneEnds<T(!new)>(net: Net<T>, prev: map<int, string>, s: State<T>, n: int)
    requires n >= 1 && Constant(net, n) && Bounded(net, n) && WithinPages(s, n) && Alone(s)
    ensures var t := Final(net, prev, s, n);
            PageOneGivenUp(t) || (1 in t.etags && t.completed == PageSet(n))
    decreases Turns(net, prev, s, n)
  {
    hide Step, Most, Rank;
    StepDescends(net, prev, s, n);
    StepAlone(net, prev, s, n);
    var t := Step(net, prev, s);
    if net(|s.log|).Fetched? {
      ScanReachesEveryPage(net, prev, t, 2, n);
    } else if |s.log| < MAX_RETRIES {
      AloneEnds(net, prev, t, n);
    }
  }

  /** Every failed request of the page has been fetched exactly four times, and there was one. */
  ghost predicate ExhaustedEveryRequest<T>(log: seq<Attempt<T>>, page: int) {
    && Tries(log, page, 0) > 0
    && (forall r: nat | r <= MAX_RETRIES ::
          Tries(log, page, r) == Tries(log, page, 0) && Failures(log, page, r) == Tries(log, page, 0))
  }

  lemma NoETagMeansExhausted<T>(t: State<T>, page: int)
    requires Recorded(t) && t.queue == [] && page in t.completed && page !in t.etags
    ensures ExhaustedEveryRequest(t.log, page)
  {
    forall r: nat | r <= MAX_RETRIES
      ensures Failures(t.log, page, r) == Tries(t.log, page, r)
    {
      NoETagMeansAllFailed(t.log, page, r);
    }
    assert Flow(t, page, 0) && Flow(t, page, 1) && Flow(t, page, 2);
  }

  lemma InitStarts<T>(prev: map<int, string>, initial: Params, n: int)
    requires n >= 1
    ensures var s := Init<T>(initial);
            WithinPages(s, n) && Recorded(s) && Alone(s) && WellAddressed(prev, initial, s)
  {
    var s := Init<T>(initial);
    forall p, r: nat | r < MAX_RETRIES
      ensures Flow(s, p, r)
    {
      assert s.queue[1..] == [];
    }
  }

  /** After FetchAllPages: either page 1 failed four times and nothing else was asked for, or every
      page 1..n has the ETag of its last successful fetch or failed on all four attempts of every
      request ever queued for it; and the ETag map holds no other page. */
  lemma EveryPageAccountedFor<T(!new)>(net: Net<T>, prev: map<int, string>, initial: Params, n: int)
    requires n >= 1 && Constant(net, n) && Bounded(net, n)
    ensures WithinPages(Init<T>(initial), n)
    ensures var t := Final(net, prev, Init<T>(initial), n);
            && t.items == Bodies(t.log)
            && t.etags == LastETags(t.log)
            && (PageOneGivenUp(t) ||
                (1 in t.etags &&
                 forall p :: if 1 <= p <= n then p in t.etags || ExhaustedEveryRequest(t.log, p)
                             else p !in t.etags))
  {
    var s := Init<T>(initial);
    InitStarts<T>(prev, initial, n);
    FinalRecorded(net, prev, s, n);
    AloneEnds(net, prev, s, n);
    FinalETagsWithin(net, prev, s, n);
    var t := Final(net, prev, s, n);
    if !PageOneGivenUp(t) {
      forall p | 1 <= p <= n && p !in t.etags
        ensures ExhaustedEveryRequest(t.log, p)
      {
        NoETagMeansExhausted(t, p);
      }
    }
  }

  /** No successful response has a number in its header. */
  ghost predicate NoNumbers<T(!new)>(net: Net<T>) {
    forall k: nat :: net(k).Fetched? ==>
      net(k).header == NoHeaders || net(k).header == Missing || net(k).header == Unparsable
  }

  /** Page 1 is fetched until it succeeds, at most four times, and its body is all there is. */
  ghost predicate OnlyPageOne<T(!new)>(net: Net<T>, t: State<T>) {
    && 1 <= |t.log| <= 4
    && (forall k :: 0 <= k < |t.log| ==> t.log[k].page == 1 && t.log[k].outcome == net(k))
    && (forall k :: 0 <= k < |t.log| - 1 ==> net(k).Failed?)
    && match net(|t.log| - 1)
       case Failed => |t.log| == 4 && t.items == [] && t.etags == map[]
       case Fetched(items, etag, _) => t.items == items && t.etags == map[1 := etag]
  }

  /** The history while page 1 is the only request. */
  ghost predicate AloneSoFar<T(!new)>(net: Net<T>, s: State<T>) {
    && Alone(s) && s.items == []
    && (forall k :: 0 <= k < |s.log| ==> s.log[k].outcome == net(k))
  }

  lemma AloneTurn<T(!new)>(net: Net<T>, prev: map<int, string>, s: State<T>)
    requires NoNumbers(net) && AloneSoFar(net, s)
    ensures var t := Step(net, prev, s);
            if net(|s.log|).Failed? && |s.log| < 3 then AloneSoFar(net, t)
            else t.queue == [] && OnlyPageOne(net, t)
  {
    var t := Step(net, prev, s);
    assert t.log[..|s.log|] == s.log && |t.log| == |s.log| + 1;
    assert s.queue[1..] == [];
    forall k | 0 <= k < |s.log|
      ensures t.log[k].outcome == net(k) && net(k).Failed? && t.log[k].page == 1
    {
      assert s.log[k] in s.log && t.log[k] == s.log[k];
    }
  }

  lemma {:induction false} AloneToEnd<T(!new)>(net: Net<T>, prev: map<int, string>, s: State<T>)
    requires NoNumbers(net) && AloneSoFar(net, s) && Bounded(net, 1) && WithinPages(s, 1)
    ensures OnlyPageOne(net, Final(net, prev, s, 1))
    decreases Turns(net, prev, s, 1)
  {
    StepDescends(net, prev, s, 1);
    AloneTurn(net, prev, s);
    var t := Step(net, prev, s);
    hide Step, Rank, OnlyPageOne, AloneSoFar;
    if t.queue != [] {
      AloneToEnd(net, prev, t);
    }
  }

  /** An endpoint that reports no page number is asked for page 1 only. */
  lemma NoNumberMeansOnePage<T(!new)>(net: Net<T>, prev: map<int, string>, initial: Params)
    requires NoNumbers(net)
    ensures Bounded(net, 1) && WithinPages(Init<T>(initial), 1)
    ensures OnlyPageOne(net, Final(net, prev, Init<T>(initial), 1))
  {
    InitStarts<T>(prev, initial, 1);
    AloneToEnd(net, prev, Init<T>(initial));
  }

  lemma {:induction false} FinalETagsWithin<T(!new)>(net: Net<T>, prev: map<int, string>, s: State<T>, n: int)
    requires Bounded(net, n) && WithinPages(s, n) && (forall p :: p in s.etags ==> 1 <= p <= n)
    ensures forall p :: p in Final(net, prev, s, n).etags ==> 1 <= p <= n
    decreases Turns(net, prev, s, n)
  {
    if s.queue != [] {
      StepDescends(net, prev, s, n);
      FinalETagsWithin(net, prev, Step(net, prev, s), n);
    }
  }

  // ---- How long the queue can get ----------------------------------------------------------

  /** (n^2 - 3n + 4) / 2. */
  ghost function Most(n: int): int {
    (n * n - 3 * n + 4) / 2
  }

  /** The queue length when pages 1..p-1 have been fetched without a failure. */
  ghost function Level(n: int, p: int): int
    requires 2 <= p <= n
  {
    if p == 2 then n - 1 else Level(n, p - 1) + n - p
  }

  lemma {:induction false} LevelClosed(n: int, p: int)
    requires 2 <= p <= n
    ensures 2 * Level(n, p) == 2 * (n - 1) + 2 * (p - 2) * n - p * (p + 1) + 6
    decreases p
  {
    if p > 2 {
      LevelClosed(n, p - 1);
      assert (p - 3) * n + n == (p - 2) * n;
      assert (p - 1) * p + 2 * p == p * (p + 1);
    }
  }

  lemma LevelTops(n: int)
    requires n >= 2
    ensures Level(n, n) == Most(n)
  {
    LevelClosed(n, n);
    assert 2 * Level(n, n) == n * n - 3 * n + 4;
  }

  lemma {:induction false} LevelBelowMost(n: int, p: int)
    requires 2 <= p <= n
    ensures Level(n, p) <= Most(n)
    decreases n - p
  {
    if p < n {
      LevelBelowMost(n, p + 1);
    } else {
      LevelTops(n);
    }
  }

  lemma {:induction false} PeakOfScan<T(!new)>(
    net: Net<T>, prev: map<int, string>, s: State<T>, p: int, n: int)
    requires Constant(net, n) && Bounded(net, n) && WithinPages(s, n) && Scanning(s, p, n)
    requires |s.queue| <= if p <= n then Level(n, p) else Most(n)
    ensures Peak(net, prev, s, n) <= Most(n)
    decreases Turns(net, prev, s, n)
  {
    hide Step, Most, Rank, Range, PagesIn, PagesOf;
    if p <= n {
      LevelBelowMost(n, p);
    }
    if s.queue != [] {
      StepDescends(net, prev, s, n);
      var t := Step(net, prev, s);
      if p <= n {
        StepScanning(net, prev, s, p, n);
        if p == n {
          LevelTops(n);
        }
        PeakOfScan(net, prev, t, p + 1, n);
      } else {
        WithinMeansCompleted(s, n);
        StepLeftover(net, prev, s, n);
        PeakOfScan(net, prev, t, p, n);
      }
    } else {
      MostPositive(n);
    }
  }

  lemma MostPositive(n: int)
    requires n >= 1
    ensures Most(n) >= 1
  {
    assert n * n - 3 * n + 2 == (n - 1) * (n - 2);
    assert (n - 1) * (n - 2) >= 0;
  }

  lemma {:induction false} PeakAlone<T(!new)>(net: Net<T>, prev: map<int, string>, s: State<T>, n: int)
    requires n >= 1 && Constant(net, n) && Bounded(net, n) && WithinPages(s, n) && Alone(s)
    ensures Peak(net, prev, s, n) <= Most(n)
    decreases Turns(net, prev, s, n)
  {
    hide Step, Most, Rank;
    MostPositive(n);
    StepDescends(net, prev, s, n);
    StepAlone(net, prev, s, n);
    var t := Step(net, prev, s);
    if net(|s.log|).Fetched? {
      PeakOfScan(net, prev, t, 2, n);
    } else if |s.log| < MAX_RETRIES {
      PeakAlone(net, prev, t, n);
    }
  }

  /** For every pattern of failures the queue never exceeds (n^2 - 3n + 4) / 2. */
  lemma QueueStaysBelow<T(!new)>(net: Net<T>, prev: map<int, string>, initial: Params, n: int)
    requires n >= 1 && Constant(net, n) && Bounded(net, n)
    ensures WithinPages(Init<T>(initial), n)
    ensures Peak(net, prev, Init<T>(initial), n) <= Most(n)
  {
    InitStarts<T>(prev, initial, n);
    PeakAlone(net, prev, Init<T>(initial), n);
  }

  lemma {:induction false} PeakReached<T(!new)>(
    net: Net<T>, prev: map<int, string>, s: State<T>, p: int, n: int)
    requires AllSucceed(net, n) && Bounded(net, n) && WithinPages(s, n) && Scanning(s, p, n) && p <= n
    requires |s.queue| == Level(n, p)
    ensures Peak(net, prev, s, n) >= Most(n)
    decreases n - p
  {
    hide Step, Most, Rank;
    StepDescends(net, prev, s, n);
    StepScanning(net, prev, s, p, n);
    var t := Step(net, prev, s);
    if p == n {
      LevelTops(n);
    } else {
      assert |PagesIn(t.queue)| == |s.queue| - 1 + n - p;
      PeakReached(net, prev, t, p + 1, n);
    }
  }

  /** Without failures that length is reached. */
  lemma QueueReachesMost<T(!new)>(net: Net<T>, prev: map<int, string>, initial: Params, n: int)
    requires n >= 1 && AllSucceed(net, n) && Bounded(net, n)
    ensures WithinPages(Init<T>(initial), n)
    ensures Peak(net, prev, Init<T>(initial), n) == Most(n)
  {
    InitStarts<T>(prev, initial, n);
    QueueStaysBelow(net, prev, initial, n);
    var s := Init<T>(initial);
    StepDescends(net, prev, s, n);
    StepAlone(net, prev, s, n);
    if n >= 2 {
      PeakReached(net, prev, Step(net, prev, s), 2, n);
    }
  }

  lemma MostFitsIff(n: int)
    requires n >= 1
    ensures Most(n) <= CAPACITY <==> n <= 15
  {
    if n <= 15 {
      assert n * n <= 15 * n;
      assert (15 - n) * (n + 12) >= 0;
      assert (15 - n) * (n + 12) == 180 + 3 * n - n * n;
    } else {
      assert (n - 16) * (n + 13) >= 0;
      assert (n - 16) * (n + 13) == n * n - 3 * n - 208;
    }
  }

  /** The consumer can never block on its own channel, whatever fails, exactly up to 15 pages. */
  lemma NeverBlocksIff<T(!new)>(prev: map<int, string>, initial: Params, n: int)
    requires n >= 1
    ensures WithinPages(Init<T>(initial), n)
    ensures (forall net: Net<T> | Constant(net, n) && Bounded(net, n) ::
               Peak(net, prev, Init<T>(initial), n) <= 100) <==> n <= 15
  {
    InitStarts<T>(prev, initial, n);
    MostFitsIff(n);
    if n <= 15 {
      forall net: Net<T> | Constant(net, n) && Bounded(net, n)
        ensures Peak(net, prev, Init<T>(initial), n) <= CAPACITY
      {
        QueueStaysBelow(net, prev, initial, n);
      }
    } else {
      var net: Net<T> := (k: nat) => Fetched([], "", Pages(n));
      assert AllSucceed(net, n) && Constant(net, n) && Bounded(net, n);
      QueueReachesMost(net, prev, initial, n);
    }
  }

  // ---- The exact order without failures ----------------------------------------------------

  /** a..n, then a+1..n, and so on up to b..n. */
  ghost function Tails(a: int, b: int, n: int): seq<int>
    decreases b - a + 1
  {
    if a > b then [] else Tails(a, b - 1, n) + Range(b, n)
  }

  ghost predicate InOrder<T>(s: State<T>, p: int, n: int) {
    && Scanning(s, p, n)
    && PagesIn(s.queue) == Range(p, n) + Tails(3, p, n)
    && PagesOf(s.log) == Range(1, p - 1)
  }

  lemma {:induction false} RangeSnoc(a: int, b: int)
    requires a <= b
    ensures Range(a, b) == Range(a, b - 1) + [b]
  {
  }

  lemma NextTail(p: int, n: int)
    requires 2 <= p <= n
    ensures (Range(p, n) + Tails(3, p, n))[1..] + Range(p + 1, n) == Range(p + 1, n) + Tails(3, p + 1, n)
  {
    var tail := Range(p + 1, n);
    var tails := Tails(3, p, n);
    assert Range(p, n) == [p] + tail;
    assert Tails(3, p + 1, n) == tails + tail;
    hide *;
    assert ([p] + tail + tails)[1..] == tail + tails;
    assert (tail + tails) + tail == tail + (tails + tail);
  }

  lemma {:induction false} ScanInOrder<T(!new)>(
    net: Net<T>, prev: map<int, string>, s: State<T>, p: int, n: int)
    requires AllSucceed(net, n) && Bounded(net, n) && WithinPages(s, n) && InOrder(s, p, n)
    ensures PagesOf(Final(net, prev, s, n).log) == Range(1, n) + Tails(3, n, n)
    decreases n + 1 - p
  {
    hide Step, Peak;
    if p <= n {
      StepDescends(net, prev, s, n);
      StepScanning(net, prev, s, p, n);
      RangeSnoc(1, p);
      var t := Step(net, prev, s);
      NextTail(p, n);
      ScanInOrder(net, prev, t, p + 1, n);
    } else {
      Drain(net, prev, s, n);
      assert Range(n + 1, n) == [];
      assert Tails(3, n + 1, n) == Tails(3, n, n);
    }
  }

  lemma HeadFirst(queue: seq<Request>)
    requires queue != []
    ensures PagesIn(queue) == [queue[0].page] + PagesIn(queue)[1..]
  {
  }

  lemma {:induction false} Drain<T(!new)>(net: Net<T>, prev: map<int, string>, s: State<T>, n: int)
    requires AllSucceed(net, n) && Bounded(net, n) && WithinPages(s, n) && Scanning(s, n + 1, n)
    ensures PagesOf(Final(net, prev, s, n).log) == PagesOf(s.log) + PagesIn(s.queue)
    decreases Turns(net, prev, s, n)
  {
    hide Step, Rank, Peak, Range;
    if s.queue == [] {
      assert PagesOf(s.log) + [] == PagesOf(s.log);
    } else {
      StepDescends(net, prev, s, n);
      WithinMeansCompleted(s, n);
      StepLeftover(net, prev, s, n);
      HeadFirst(s.queue);
      hide PagesIn, PagesOf, Scanning, WithinPages, Bounded, AllSucceed;
      Drain(net, prev, Step(net, prev, s), n);
      Associative(PagesOf(s.log), [s.queue[0].page], PagesIn(s.queue)[1..]);
    }
  }

  /** With no failure and n pages the fetches are 1..n, then 3..n, 4..n, ..., n. */
  lemma FetchOrder<T(!new)>(net: Net<T>, prev: map<int, string>, initial: Params, n: int)
    requires n >= 1 && AllSucceed(net, n) && Bounded(net, n)
    ensures WithinPages(Init<T>(initial), n)
    ensures PagesOf(Final(net, prev, Init<T>(initial), n).log) == Range(1, n) + Tails(3, n, n)
  {
    InitStarts<T>(prev, initial, n);
    var s := Init<T>(initial);
    StepDescends(net, prev, s, n);
    StepAlone(net, prev, s, n);
    StepPages(net, prev, s, n);
    hide Step, Rank, Peak, Alone;
    var t := Step(net, prev, s);
    assert PagesOf(t.log) == [1] == Range(1, 1);
    assert Range(2, n) + Tails(3, 2, n) == Range(2, n);
    ScanInOrder(net, prev, t, 2, n);
  }

  ghost function Occurs(ps: seq<int>, p: int): nat {
    if ps == [] then 0 else (if ps[0] == p then 1 else 0) + Occurs(ps[1..], p)
  }

  lemma {:induction false} OccursConcat(a: seq<int>, b: seq<int>, p: int)
    ensures Occurs(a + b, p) == Occurs(a, p) + Occurs(b, p)
  {
    if a == [] {
      assert a + b == b;
    } else {
      assert (a + b)[1..] == a[1..] + b;
      OccursConcat(a[1..], b, p);
    }
  }

  lemma {:induction false} RangeCount(a: int, n: int, p: int)
    ensures Occurs(Range(a, n), p) == if a <= p <= n then 1 else 0
    decreases n - a + 1
  {
    if a <= n {
      RangeCount(a + 1, n, p);
      assert Range(a, n)[1..] == Range(a + 1, n);
    }
  }

  lemma {:induction false} TailsCount(b: int, n: int, p: int)
    requires 2 <= b <= n
    ensures Occurs(Tails(3, b, n), p) == if 3 <= p <= b then p - 2 else if b < p <= n then b - 2 else 0
    decreases b
  {
    if b >= 3 {
      TailsCount(b - 1, n, p);
      RangeCount(b, n, p);
      OccursConcat(Tails(3, b - 1, n), Range(b, n), p);
      hide Occurs, Range;
    }
  }

  lemma {:induction false} TailsLength(b: int, n: int)
    requires 2 <= b <= n
    ensures 2 * |Tails(3, b, n)| == (b - 2) * (2 * n - b - 1)
    decreases b
  {
    if b >= 3 {
      TailsLength(b - 1, n);
      assert (b - 3) * (2 * n - b) + 2 * (n - b + 1) == (b - 2) * (2 * n - b - 1);
    }
  }

  lemma SumOfLengths(n: int)
    ensures (n - 2) * (2 * n - n - 1) + 2 * n == n * (n - 1) + 2
  {
  }

  lemma OrderCounts(n: int, p: int)
    requires 1 <= p <= n
    ensures Occurs(Range(1, n) + Tails(3, n, n), p) == if p == 1 then 1 else p - 1
    ensures 2 * |Range(1, n) + Tails(3, n, n)| == n * (n - 1) + 2
  {
    RangeCount(1, n, p);
    OccursConcat(Range(1, n), Tails(3, n, n), p);
    assert n == 1 ==> Occurs(Tails(3, n, n), p) == 0;
    hide Occurs, Range;
    if n >= 2 {
      TailsCount(n, n, p);
      TailsLength(n, n);
      SumOfLengths(n);
    }
  }

  /** Page 1 is fetched once and page p >= 2 exactly p - 1 times: 1 + n(n-1)/2 fetches in all. */
  lemma FetchCounts<T(!new)>(net: Net<T>, prev: map<int, string>, initial: Params, n: int, p: int)
    requires 1 <= p <= n && AllSucceed(net, n) && Bounded(net, n)
    ensures WithinPages(Init<T>(initial), n)
    ensures var t := Final(net, prev, Init<T>(initial), n);
            && Occurs(PagesOf(t.log), p) == (if p == 1 then 1 else p - 1)
            && 2 * |t.log| == n * (n - 1) + 2
  {
    FetchOrder(net, prev, initial, n);
    OrderCounts(n, p);
    assert |PagesOf(Final(net, prev, Init<T>(initial), n).log)| == |Final(net, prev, Init<T>(initial), n).log|;
    hide *;
  }

  ghost function Flatten<T>(body: int -> seq<T>, pages: seq<int>): seq<T> {
    if pages == [] then []
    else Flatten(body, pages[..|pages| - 1]) + body(pages[|pages| - 1])
  }

  /** The history has the outcomes the network gave. */
  ghost predicate Follows<T(!new)>(net: Net<T>, log: seq<Attempt<T>>) {
    forall k :: 0 <= k < |log| ==> log[k].outcome == net(k)
  }

  lemma StepFollows<T(!new)>(net: Net<T>, prev: map<int, string>, s: State<T>)
    requires s.queue != [] && Follows(net, s.log)
    ensures Follows(net, Step(net, prev, s).log)
  {
    assert |Step(net, prev, s).log| == |s.log| + 1;
  }

  lemma {:induction false} FinalFollows<T(!new)>(net: Net<T>, prev: map<int, string>, s: State<T>, n: int)
    requires Bounded(net, n) && WithinPages(s, n) && Follows(net, s.log)
    ensures Follows(net, Final(net, prev, s, n).log)
    decreases Turns(net, prev, s, n)
  {
    if s.queue != [] {
      StepDescends(net, prev, s, n);
      StepFollows(net, prev, s);
      hide Step, Rank, Peak, Bounded, WithinPages, Follows;
      FinalFollows(net, prev, Step(net, prev, s), n);
    }
  }

  lemma {:induction false} BodiesFlatten<T>(body: int -> seq<T>, log: seq<Attempt<T>>)
    requires forall k :: 0 <= k < |log| ==> log[k].outcome.Fetched? && log[k].outcome.items == body(log[k].page)
    ensures Bodies(log) == Flatten(body, PagesOf(log))
  {
    if log != [] {
      assert PagesOf(log)[..|log| - 1] == PagesOf(log[..|log| - 1]);
      BodiesFlatten(body, log[..|log| - 1]);
    }
  }

  /** When the server answers each fetch with the body of the page that order asks for, allItems is
      the concatenation of the page bodies in that order. */
  lemma ItemsInFetchOrder<T(!new)>(
    net: Net<T>, prev: map<int, string>, initial: Params, n: int, body: int -> seq<T>)
    requires n >= 1 && AllSucceed(net, n) && Bounded(net, n)
    requires var order := Range(1, n) + Tails(3, n, n);
             forall k: nat :: k < |order| ==> net(k).items == body(order[k])
    ensures WithinPages(Init<T>(initial), n)
    ensures Final(net, prev, Init<T>(initial), n).items == Flatten(body, Range(1, n) + Tails(3, n, n))
  {
    var s := Init<T>(initial);
    FetchOrder(net, prev, initial, n);
    InitStarts<T>(prev, initial, n);
    FinalRecorded(net, prev, s, n);
    FinalFollows(net, prev, s, n);
    var log := Final(net, prev, s, n).log;
    forall k | 0 <= k < |log|
      ensures log[k].outcome.Fetched? && log[k].outcome.items == body(log[k].page)
    {
      assert log[k].page == PagesOf(log)[k];
    }
    BodiesFlatten(body, log);
  }
}
