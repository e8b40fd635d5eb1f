/** The paged work queue of legacy/shared/requests/requests.go.
    One consumer takes requests from its own FIFO channel, fetches them, retries failures at most
    three times and appends a request for every page it has not yet dequeued once.

    `Step` is one turn of the consumer; `Final` runs it until the queue is empty, against any
    network (`net(k)` is the outcome of the k-th fetch).  `FetchAllPages` is the loop itself, which
    blocks for ever when it sends to a full channel. */
module PageQueue {

  const CAPACITY: nat := 100
  const MAX_RETRIES: nat := 3

  /** url.Values. */
  type Params = map<string, seq<string>>

  /** Page 1 is queued with the caller's own parameter map (an alias: setting a key changes that
      map); every other page is queued with a private copy. */
  datatype Source = Shared | Own(params: Params)

  datatype Request = Request(page: int, retries: nat, source: Source)

  /** The X-Pages response header. */
  datatype PageHeader = NoHeaders | Missing | Unparsable | Pages(count: int)

  datatype Outcome<+T> = Failed | Fetched(items: seq<T>, etag: string, header: PageHeader)

  type Net<!T> = nat -> Outcome<T>

  datatype Attempt<+T> = Attempt(page: int, retries: nat, sent: Params, outcome: Outcome<T>)

  /** `shared` is the caller's parameter map, `log` the history of all fetches. */
  datatype State<+T> = State(
    queue: seq<Request>, completed: set<int>, shared: Params,
    items: seq<T>, etags: map<int, string>, log: seq<Attempt<T>>)

  function AvailablePages(h: PageHeader): int {
    match h
    case NoHeaders => 1
    case Missing => 1
    case Unparsable => 1
    case Pages(n) => n
  }

  /** strconv.Itoa. */
  function Itoa(n: int): string {
    if n < 0 then "-" + Digits(-n) else Digits(n)
  }

  function Digits(n: nat): string {
    if n < 10 then ['0' + n as char] else Digits(n / 10) + ['0' + (n % 10) as char]
  }

  function WithETag(prev: map<int, string>, page: int, params: Params): Params {
    if page in prev then params["If-None-Match" := [prev[page]]] else params
  }

  function PageParams(shared: Params, page: int): Params {
    shared["page" := [Itoa(page)]]
  }

  /** The pages from..n that have not been dequeued yet, in ascending order. */
  function Unmarked(completed: set<int>, from: int, n: int): (pages: seq<int>)
    ensures forall p :: p in pages <==> from <= p <= n && p !in completed
    decreases n - from + 1
  {
    if from > n then []
    else if from in completed then Unmarked(completed, from + 1, n)
    else [from] + Unmarked(completed, from + 1, n)
  }

  lemma AscendFrom(first: int, rest: seq<int>)
    requires forall p :: p in rest ==> first < p
    requires forall i, j :: 0 <= i < j < |rest| ==> rest[i] < rest[j]
    ensures forall i, j :: 0 <= i < j < |rest| + 1 ==> ([first] + rest)[i] < ([first] + rest)[j]
  {
    forall i, j | 0 <= i < j < |rest| + 1
      ensures ([first] + rest)[i] < ([first] + rest)[j]
    {
      assert rest[j - 1] in rest;
    }
  }

  /** Each page the code queues comes once, and they come in ascending order. */
  lemma {:induction false} UnmarkedAscends(completed: set<int>, from: int, n: int)
    ensures var pages := Unmarked(completed, from, n);
            && (forall p :: p in pages <==> from <= p <= n && p !in completed)
            && (forall i, j :: 0 <= i < j < |pages| ==> pages[i] < pages[j])
    decreases n - from + 1
  {
    if from <= n {
      UnmarkedAscends(completed, from + 1, n);
      var rest := Unmarked(completed, from + 1, n);
      if from !in completed {
        AscendFrom(from, rest);
      }
    }
  }

  function FreshRequest(shared: Params, page: int): Request {
    Request(page, 0, Own(PageParams(shared, page)))
  }

  function FreshRequests(shared: Params, pages: seq<int>): (rs: seq<Request>)
    ensures |rs| == |pages|
    ensures forall i :: 0 <= i < |rs| ==> rs[i] == FreshRequest(shared, pages[i])
  {
    if pages == [] then [] else [FreshRequest(shared, pages[0])] + FreshRequests(shared, pages[1..])
  }

  function Sent<T>(prev: map<int, string>, s: State<T>, r: Request): Params {
    WithETag(prev, r.page, if r.source.Shared? then s.shared else r.source.params)
  }

  /** The state after fetching r, before anything is pushed; r has left the queue of s. */
  function AfterFetch<T>(net: Net<T>, prev: map<int, string>, s: State<T>, r: Request): State<T> {
    var sent := Sent(prev, s, r);
    var o := net(|s.log|);
    s.(completed := s.completed + {r.page},
       shared := if r.source.Shared? then sent else s.shared,
       items := if o.Fetched? then s.items + o.items else s.items,
       etags := if o.Fetched? then s.etags[r.page := o.etag] else s.etags,
       log := s.log + [Attempt(r.page, r.retries, sent, o)])
  }

  /** What that turn appends to the queue: one retry, or every page not dequeued yet. */
  function Pushes<T>(net: Net<T>, prev: map<int, string>, s: State<T>, r: Request): seq<Request> {
    var after := AfterFetch(net, prev, s, r);
    match net(|s.log|)
    case Failed =>
      if r.retries < MAX_RETRIES
      then [Request(r.page, r.retries + 1, if r.source.Shared? then Shared else Own(Sent(prev, s, r)))]
      else []
    case Fetched(_, _, header) =>
      FreshRequests(after.shared, Unmarked(after.completed, 2, AvailablePages(header)))
  }

  function Step<T>(net: Net<T>, prev: map<int, string>, s: State<T>): State<T>
    requires s.queue != []
  {
    var taken := s.(queue := s.queue[1..]);
    var after := AfterFetch(net, prev, taken, s.queue[0]);
    after.(queue := after.queue + Pushes(net, prev, taken, s.queue[0]))
  }

  function Init<T>(initial: Params): State<T> {
    State([Request(1, 0, Shared)], {}, initial, [], map[], [])
  }

  // ---- Termination -------------------------------------------------------------------------

  /** No successful response reports more than n pages; the counts may vary freely below that. */
  ghost predicate Bounded<T(!new)>(net: Net<T>, n: int) {
    forall k: nat :: net(k).Fetched? ==> WithinHeader(net(k).header, n)
  }

  /** A header reports at most n pages; without a number in it there is one page. */
  predicate WithinHeader(h: PageHeader, n: int) {
    if h.Pages? then h.count <= n else 1 <= n
  }

  ghost predicate WithinPages<T>(s: State<T>, n: int) {
    forall r :: r in s.queue ==> 1 <= r.page <= n && r.retries <= MAX_RETRIES
  }

  ghost function Open<T>(s: State<T>, n: int): set<int> {
    set p | 1 <= p <= n && p !in s.completed
  }

  /** The position of the first request whose page has not been dequeued yet. */
  ghost function FirstOpen(queue: seq<Request>, completed: set<int>): (i: nat)
    ensures i <= |queue|
    ensures i < |queue| ==> queue[i].page !in completed
    ensures forall j :: 0 <= j < i ==> queue[j].page in completed
  {
    if queue == [] || queue[0].page !in completed then 0 else 1 + FirstOpen(queue[1..], completed)
  }

  /** The number of fetches the queue could still cause by retries alone. */
  ghost function Potential(queue: seq<Request>): nat {
    if queue == [] then 0
    else (if queue[0].retries <= MAX_RETRIES then 4 - queue[0].retries else 0) + Potential(queue[1..])
  }

  lemma {:induction false} PotentialConcat(a: seq<Request>, b: seq<Request>)
    ensures Potential(a + b) == Potential(a) + Potential(b)
  {
    if a == [] {
      assert a + b == b;
    } else {
      assert (a + b)[1..] == a[1..] + b;
      PotentialConcat(a[1..], b);
    }
  }

  ghost predicate HasOpen<T>(s: State<T>) {
    FirstOpen(s.queue, s.completed) < |s.queue|
  }

  ghost function Rank<T>(s: State<T>, n: int): (nat, nat, nat) {
    (|Open(s, n)|,
     if HasOpen(s) then 0 else 1,
     if HasOpen(s) then FirstOpen(s.queue, s.completed) else Potential(s.queue))
  }

  ghost predicate Below(a: (nat, nat, nat), b: (nat, nat, nat)) {
    a.0 < b.0 || (a.0 == b.0 && (a.1 < b.1 || (a.1 == b.1 && a.2 < b.2)))
  }

  /** Every turn of the consumer lowers the rank, whatever the network answers. */
  lemma StepDescends<T(!new)>(net: Net<T>, prev: map<int, string>, s: State<T>, n: int)
    requires Bounded(net, n) && WithinPages(s, n) && s.queue != []
    ensures WithinPages(Step(net, prev, s), n)
    ensures Below(Rank(Step(net, prev, s), n), Rank(s, n))
  {
    var r := s.queue[0];
    var rest := s.queue[1..];
    var taken := s.(queue := rest);
    var pushes := Pushes(net, prev, taken, r);
    var t := Step(net, prev, s);
    assert t.queue == rest + pushes;
    assert s.queue == [r] + rest;
    PushesWithin(net, prev, taken, r, n);
    if r.page !in s.completed {
      assert Open(t, n) == Open(s, n) - {r.page};
      assert r.page in Open(s, n);
    } else {
      assert t.completed == s.completed;
      assert Open(t, n) == Open(s, n);
      assert FirstOpen(s.queue, s.completed) == 1 + FirstOpen(rest, s.completed);
      if HasOpen(s) {
        var i := FirstOpen(rest, s.completed);
        assert t.queue[i] == rest[i];
        assert FirstOpen(t.queue, t.completed) <= i;
      } else if !HasOpen(t) {
        PotentialConcat(rest, pushes);
        assert pushes != [] ==> t.queue[|rest|] == pushes[0];
        assert Potential(s.queue) == 4 - r.retries + Potential(rest);
      }
    }
  }

  lemma PushesWithin<T(!new)>(net: Net<T>, prev: map<int, string>, s: State<T>, r: Request, n: int)
    requires Bounded(net, n) && 1 <= r.page <= n && r.retries <= MAX_RETRIES
    ensures forall q :: q in Pushes(net, prev, s, r) ==> 1 <= q.page <= n && q.retries <= MAX_RETRIES
    ensures net(|s.log|).Fetched? ==>
              forall q :: q in Pushes(net, prev, s, r) ==> q.page !in s.completed + {r.page}
  {
    match net(|s.log|)
    case Failed =>
    case Fetched(_, _, header) =>
      var after := AfterFetch(net, prev, s, r);
      var pages := Unmarked(after.completed, 2, AvailablePages(header));
      var pushes := FreshRequests(after.shared, pages);
      forall q | q in pushes
        ensures 1 <= q.page <= n && q.page !in after.completed
      {
        var i :| 0 <= i < |pushes| && pushes[i] == q;
        assert pages[i] in pages;
      }
  }

  /** How many turns the consumer still takes: finite for every bounded network. */
  ghost function Turns<T(!new)>(net: Net<T>, prev: map<int, string>, s: State<T>, n: int): nat
    requires Bounded(net, n) && WithinPages(s, n)
    decreases Rank(s, n).0, Rank(s, n).1, Rank(s, n).2
  {
    if s.queue == [] then 0
    else
      StepDescends(net, prev, s, n);
      1 + Turns(net, prev, Step(net, prev, s), n)
  }

  /** The state in which the queue is empty. */
  ghost function Final<T(!new)>(net: Net<T>, prev: map<int, string>, s: State<T>, n: int): (t: State<T>)
    requires Bounded(net, n) && WithinPages(s, n)
    ensures t.queue == []
    decreases Turns(net, prev, s, n)
  {
    if s.queue == [] then s
    else
      StepDescends(net, prev, s, n);
      Final(net, prev, Step(net, prev, s), n)
  }

  /** The longest the queue ever gets from s on. */
  ghost function Peak<T(!new)>(net: Net<T>, prev: map<int, string>, s: State<T>, n: int): (m: nat)
    requires Bounded(net, n) && WithinPages(s, n)
    ensures |s.queue| <= m
    decreases Turns(net, prev, s, n)
  {
    if s.queue == [] then 0
    else
      StepDescends(net, prev, s, n);
      var later := Peak(net, prev, Step(net, prev, s), n);
      if later > |s.queue| then later else |s.queue|
  }

  // ---- The loop ----------------------------------------------------------------------------

  lemma SendOne(queue: seq<Request>, params: Params, page: int, rest: seq<int>)
    ensures FreshRequests(params, [page] + rest) == [FreshRequest(params, page)] + FreshRequests(params, rest)
    ensures queue + FreshRequests(params, [page] + rest) ==
            (queue + [FreshRequest(params, page)]) + FreshRequests(params, rest)
  {
    assert ([page] + rest)[1..] == rest;
    var one, others := FreshRequest(params, page), FreshRequests(params, rest);
    assert FreshRequests(params, [page] + rest) == [one] + others;
    hide *;
    Associative(queue, [one], others);
  }

  lemma Associative<T>(a: seq<T>, b: seq<T>, c: seq<T>)
    ensures a + (b + c) == (a + b) + c
  {
  }

  /** The page loop of one successful fetch. */
  method SendOpenPages(queue: seq<Request>, completed: set<int>, params: Params, last: int)
    returns (requestQueue: seq<Request>, blocked: bool)
    requires |queue| <= CAPACITY
    ensures blocked <==> |queue + FreshRequests(params, Unmarked(completed, 2, last))| > CAPACITY
    ensures !blocked ==> requestQueue == queue + FreshRequests(params, Unmarked(completed, 2, last))
  {
    requestQueue, blocked := queue, false;
    ghost var all := queue + FreshRequests(params, Unmarked(completed, 2, last));
    var page := 2;
    while page <= last
      invariant |requestQueue| <= CAPACITY
      invariant requestQueue + FreshRequests(params, Unmarked(completed, page, last)) == all
      decreases last - page + 1
    {
      if page !in completed {
        SendOne(requestQueue, params, page, Unmarked(completed, page + 1, last));
        if |requestQueue| == CAPACITY {
          blocked := true;
          return;
        }
        requestQueue := requestQueue + [FreshRequest(params, page)];
      }
      page := page + 1;
    }
  }

  /** One turn of the consumer on the loop's own variables, which hold what the history state s says. */
  method HandleRequest<T>(
    net: Net<T>, prev: map<int, string>, queue: seq<Request>, completed: set<int>, initial: Params,
    items: seq<T>, etags: map<int, string>, fetches: nat, ghost s: State<T>)
    returns (requestQueue: seq<Request>, completedPages: set<int>, params: Params,
             allItems: seq<T>, updatedETags: map<int, string>, blocked: bool)
    requires queue != [] && |queue| <= CAPACITY && fetches == |s.log|
    requires s == State(queue, completed, initial, items, etags, s.log)
    ensures blocked <==> |Step(net, prev, s).queue| > CAPACITY
    ensures !blocked ==>
              Step(net, prev, s) ==
              State(requestQueue, completedPages, params, allItems, updatedETags, Step(net, prev, s).log)
  {
    var request := queue[0];
    requestQueue, completedPages, params := queue[1..], completed, initial;
    allItems, updatedETags, blocked := items, etags, false;
    if request.page !in completedPages || request.retries > 0 {
      completedPages := completedPages + {request.page};
    }
    assert completedPages == s.completed + {request.page};
    var sent := if request.source.Shared? then params else request.source.params;
    if request.page in prev {
      sent := sent["If-None-Match" := [prev[request.page]]];
    }
    if request.source.Shared? {
      params := sent;
    }
    match net(fetches) {
      case Failed =>
        if request.retries < MAX_RETRIES {
          if |requestQueue| == CAPACITY {
            blocked := true;
            return;
          }
          var again := if request.source.Shared? then Shared else Own(sent);
          requestQueue := requestQueue + [Request(request.page, request.retries + 1, again)];
        }
      case Fetched(response, etag, header) =>
        allItems := allItems + response;
        updatedETags := updatedETags[request.page := etag];
        requestQueue, blocked := SendOpenPages(requestQueue, completedPages, params, AvailablePages(header));
    }
  }

  /** FetchAllPages.  `blocked` means that the consumer sends to its own full channel and, being
      the only receiver, never returns; otherwise the results are those of `Final`. */
  method FetchAllPages<T(!new)>(net: Net<T>, initial: Params, prev: map<int, string>, ghost n: int)
    returns (allItems: seq<T>, updatedETags: map<int, string>, blocked: bool)
    requires n >= 1 && Bounded(net, n)
    ensures blocked <==> Peak(net, prev, Init<T>(initial), n) > 100
    ensures !blocked ==>
              var t := Final(net, prev, Init<T>(initial), n);
              allItems == t.items && updatedETags == t.etags
  {
    ghost var start := Init<T>(initial);
    ghost var s := start;
    var requestQueue := [Request(1, 0, Shared)];
    var completedPages: set<int> := {};
    var params := initial;
    var fetches := 0;
    allItems, updatedETags, blocked := [], map[], false;
    while requestQueue != []
      invariant s == State(requestQueue, completedPages, params, allItems, updatedETags, s.log)
      invariant fetches == |s.log| && WithinPages(s, n) && |s.queue| <= CAPACITY
      invariant Final(net, prev, start, n) == Final(net, prev, s, n)
      invariant Peak(net, prev, start, n) > CAPACITY <==> Peak(net, prev, s, n) > CAPACITY
      decreases Turns(net, prev, s, n)
    {
      StepDescends(net, prev, s, n);
      requestQueue, completedPages, params, allItems, updatedETags, blocked :=
        HandleRequest(net, prev, requestQueue, completedPages, params, allItems, updatedETags, fetches, s);
      fetches := fetches + 1;
      s := Step(net, prev, s);
      if blocked {
        return;
      }
    }
  }
}
