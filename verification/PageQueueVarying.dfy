/** The paged work queue when the responses disagree about the number of pages: exactly how long the
    queue can get if no response reports more than n pages, and the largest n for which the channel
    suffices.

    Pages are dequeued for the first time in ascending order, so the marked pages are always 1..k.  The
    stage of a request is how many pages will have been marked when it is dequeued.  The potential
    charges a request of stage x with the most it can lead to: pushing requests of stage c, each of
    which pushes requests of a later stage, and so on up to n.  That is the largest product of numbers
    that add up to n - x. */
module PageQueueVarying {
  import opened PageQueue
  import opened PageQueueLaws

  ghost function Max(a: int, b: int): int {
    if a < b then b else a
  }

  // ---- Pages are marked in ascending order -------------------------------------------------

  /** How many pages will have been marked when these have been dequeued after pages 1..k. */
  ghost function Top(k: int, pages: seq<int>): int
    decreases |pages|
  {
    if pages == [] then k else Top(Max(k, pages[0]), pages[1..])
  }

  /** Each page is at most one above all before it. */
  ghost predicate Stairs(k: int, pages: seq<int>)
    decreases |pages|
  {
    pages == [] || (1 <= pages[0] <= k + 1 && Stairs(Max(k, pages[0]), pages[1..]))
  }

  lemma {:induction false} StairsConcat(k: int, a: seq<int>, b: seq<int>)
    ensures Top(k, a + b) == Top(Top(k, a), b)
    ensures Stairs(k, a) && Stairs(Top(k, a), b) ==> Stairs(k, a + b)
    decreases |a|
  {
    if a == [] {
      assert a + b == b;
    } else {
      assert (a + b)[1..] == a[1..] + b;
      StairsConcat(Max(k, a[0]), a[1..], b);
    }
  }

  lemma {:induction false} TopGrows(k: int, pages: seq<int>)
    ensures Top(k, pages) >= k
    decreases |pages|
  {
    if pages != [] {
      TopGrows(Max(k, pages[0]), pages[1..]);
    }
  }

  /** A block of pages that the code queues, at the end of a queue that marks h pages. */
  lemma {:induction false} BlockIsStairs(h: int, from: int, c: int)
    requires 1 <= from <= h + 1
    ensures Stairs(h, Range(from, c)) && Top(h, Range(from, c)) == Max(h, c)
    decreases c - from
  {
    if from <= c {
      assert Range(from, c)[1..] == Range(from + 1, c);
      BlockIsStairs(Max(h, from), from + 1, c);
    }
  }

  /** Pages 1..k are marked, and those in the queue follow in ascending order. */
  ghost predicate Climbing<T>(s: State<T>, k: int) {
    k >= 0 && s.completed == PageSet(k) && Stairs(k, PagesIn(s.queue))
  }

  /** What one turn pushes when x pages are marked. */
  ghost function Pushed<T>(o: Outcome<T>, r: Request, x: int): seq<int> {
    match o
    case Failed => if r.retries < MAX_RETRIES then [r.page] else []
    case Fetched(_, _, header) => Range(x + 1, AvailablePages(header))
  }

  lemma PagesConcat(a: seq<Request>, b: seq<Request>)
    ensures PagesIn(a + b) == PagesIn(a) + PagesIn(b)
  {
  }

  lemma PagesPushed<T(!new)>(net: Net<T>, prev: map<int, string>, s: State<T>, r: Request, x: int)
    requires x >= 1 && s.completed + {r.page} == PageSet(x)
    ensures PagesIn(Pushes(net, prev, s, r)) == Pushed(net(|s.log|), r, x)
  {
    match net(|s.log|)
    case Failed =>
    case Fetched(_, _, header) =>
      var open := Unmarked(s.completed + {r.page}, 2, AvailablePages(header));
      UnmarkedIsRange(x, 2, AvailablePages(header));
      assert PagesIn(Pushes(net, prev, s, r)) == open;
  }

  /** One turn of a climbing queue. */
  lemma StepClimbs<T(!new)>(net: Net<T>, prev: map<int, string>, s: State<T>, k: int)
    requires Climbing(s, k) && s.queue != []
    ensures var t := Step(net, prev, s);
            var r := s.queue[0];
            var x := Max(k, r.page);
            && 1 <= r.page <= k + 1 && |t.log| == |s.log| + 1
            && Stairs(x, PagesIn(s.queue)[1..])
            && PagesIn(t.queue) == PagesIn(s.queue)[1..] + Pushed(net(|s.log|), r, x)
            && Climbing(t, x)
  {
    var o, r, t := net(|s.log|), s.queue[0], Step(net, prev, s);
    var x, rest := Max(k, r.page), s.queue[1..];
    var taken := s.(queue := rest);
    var pushes := Pushes(net, prev, taken, r);
    assert t.queue == rest + pushes && t.completed == s.completed + {r.page} && |t.log| == |s.log| + 1;
    assert PagesIn(s.queue)[0] == r.page && PagesIn(s.queue)[1..] == PagesIn(rest);
    assert s.completed + {r.page} == PageSet(x);
    hide Step, Pushes, PagesIn, PageSet, AfterFetch;
    PagesPushed(net, prev, taken, r, x);
    PagesConcat(rest, pushes);
    PushedIsStairs(o, r, x, PagesIn(rest));
  }

  lemma PushedIsStairs<T>(o: Outcome<T>, r: Request, x: int, rest: seq<int>)
    requires 1 <= r.page <= x && Stairs(x, rest)
    ensures Stairs(x, rest + Pushed(o, r, x))
  {
    var h := Top(x, rest);
    TopGrows(x, rest);
    StairsConcat(x, rest, Pushed(o, r, x));
    match o
    case Failed =>
      assert [r.page][1..] == [] && Stairs(Max(h, r.page), []);
    case Fetched(_, _, header) =>
      BlockIsStairs(h, x + 1, AvailablePages(header));
  }

  // ---- The largest product -----------------------------------------------------------------

  /** The largest product of numbers with the sum u: threes, and twos for the rest. */
  ghost function Product(u: int): (w: int)
    ensures w >= 1
  {
    if u <= 1 then 1 else if u <= 4 then u else 3 * Product(u - 3)
  }

  lemma {:induction false} ProductGrows(u: int)
    ensures Product(u) <= Product(u + 1)
    decreases u
  {
    if u > 4 {
      ProductGrows(u - 3);
    }
  }

  lemma {:induction false} TwoOrThree(u: int)
    ensures u >= 2 ==> 2 * Product(u - 2) <= Product(u)
    ensures u >= 3 ==> 3 * Product(u - 3) <= Product(u)
    decreases u
  {
    if u >= 7 {
      TwoOrThree(u - 3);
    }
  }

  /** A product whose law the solver is told where it matters. */
  ghost function Times(a: int, w: int): int {
    a * w
  }

  lemma TimesGrows(a: int, b: int, w: int)
    requires a <= b && w >= 0
    ensures Times(a, w) <= Times(b, w)
  {
  }

  lemma TimesGrowsToo(a: nat, v: int, w: int)
    requires v <= w
    ensures Times(a, v) <= Times(a, w)
  {
  }

  lemma OneMore(m: int, w: int)
    ensures Times(m, w) == Times(m - 1, w) + w
    ensures Times(0, w) == 0
  {
  }

  lemma ThreeTimes(a: int, w: int)
    requires a >= 5 && w >= 0
    ensures Times(a, w) <= 3 * Times(a - 3, w)
  {
    TimesGrows(9, 2 * a, w);
    assert 3 * ((a - 3) * w) == 3 * a * w - 9 * w;
  }

  /** Splitting off one factor never gains anything. */
  lemma {:induction false} SplitOff(u: int, a: int)
    requires 0 <= a <= u
    ensures Times(a, Product(u - a)) <= Product(u)
    decreases a
  {
    TwoOrThree(u);
    if a == 1 {
      ProductGrows(u - 1);
    } else if a == 4 {
      TwoOrThree(u - 2);
    } else if a >= 5 {
      hide Product, Times;
      SplitOff(u - 3, a - 3);
      assert u - 3 - (a - 3) == u - a;
      ThreeTimes(a, Product(u - a));
    }
    hide Product;
  }

  ghost function SumOf(parts: seq<nat>): nat {
    if parts == [] then 0 else parts[0] + SumOf(parts[1..])
  }

  ghost function ProductOf(parts: seq<nat>): int {
    if parts == [] then 1 else Times(parts[0], ProductOf(parts[1..]))
  }

  /** No numbers with the sum u have a larger product, */
  lemma {:induction false} NoLargerProduct(parts: seq<nat>)
    ensures ProductOf(parts) <= Product(SumOf(parts))
  {
    if parts != [] {
      var a, rest := parts[0], parts[1..];
      NoLargerProduct(rest);
      hide Product, Times;
      SplitOff(SumOf(parts), a);
      TimesGrowsToo(a, ProductOf(rest), Product(SumOf(rest)));
    }
  }

  /** and some have that product. */
  lemma {:induction false} LargestProduct(u: nat) returns (parts: seq<nat>)
    ensures SumOf(parts) == u && ProductOf(parts) == Product(u)
  {
    if u <= 4 {
      parts := [u];
      assert parts[1..] == [];
      if u == 0 {
        parts := [];
      }
    } else {
      var rest := LargestProduct(u - 3);
      parts := [3] + rest;
      assert parts[1..] == rest;
    }
  }

  lemma {:induction false} ProductFalls(u: int, later: int)
    requires later <= u
    ensures Product(later) <= Product(u)
    decreases u - later
  {
    if later < u {
      ProductGrows(u - 1);
      ProductFalls(u - 1, later);
    }
  }

  // ---- The potential -----------------------------------------------------------------------

  /** What u unknown pages are worth: Product(0) + ... + Product(u - 1). */
  ghost function Unknown(u: int): (w: int)
    ensures w >= 0
  {
    if u <= 0 then 0 else Unknown(u - 1) + Product(u - 1)
  }

  /** The worth of the requests for these pages, each by its stage. */
  ghost function Sum(n: int, k: int, pages: seq<int>): (w: int)
    ensures w >= |pages|
    decreases |pages|
  {
    if pages == [] then 0
    else Product(n - Max(k, pages[0])) + Sum(n, Max(k, pages[0]), pages[1..])
  }

  ghost function Potential(n: int, k: int, pages: seq<int>): int {
    Unknown(n - Top(k, pages)) + Sum(n, k, pages)
  }

  /** The longest queue that responses with at most n pages can cause. */
  ghost function Worst(n: int): int {
    Max(1, Unknown(n - 1))
  }

  lemma {:induction false} SumConcat(n: int, k: int, a: seq<int>, b: seq<int>)
    ensures Sum(n, k, a + b) == Sum(n, k, a) + Sum(n, Top(k, a), b)
    decreases |a|
  {
    if a == [] {
      assert a + b == b;
    } else {
      assert (a + b)[1..] == a[1..] + b;
      SumConcat(n, Max(k, a[0]), a[1..], b);
    }
  }

  /** A block at the end of a queue that marks h pages: its first pages are of stage h, and each page
      beyond is worth what it was worth as an unknown one. */
  lemma {:induction false} BlockWorth(n: int, h: int, from: int, c: int)
    requires 1 <= from <= h + 1 && c <= n
    ensures c >= h ==> Sum(n, h, Range(from, c)) + Unknown(n - c) ==
                       Times(h + 1 - from, Product(n - h)) + Unknown(n - h)
    ensures c < h ==> Sum(n, h, Range(from, c)) == if from <= c then Times(c + 1 - from, Product(n - h)) else 0
    decreases c - from
  {
    hide Product, Times;
    OneMore(h + 1 - from, Product(n - h));
    if from <= c {
      SumOfRange(n, h, from, c);
      hide Range, Sum;
      BlockWorth(n, Max(h, from), from + 1, c);
      OneMore(0, Product(n - Max(h, from)));
      OneMore(c + 1 - from, Product(n - h));
    }
  }

  lemma SumOfRange(n: int, h: int, from: int, c: int)
    requires from <= c
    ensures Sum(n, h, Range(from, c)) == Product(n - Max(h, from)) + Sum(n, Max(h, from), Range(from + 1, c))
  {
    assert Range(from, c)[1..] == Range(from + 1, c);
    hide Product;
  }

  // ---- No turn raises the potential --------------------------------------------------------

  /** Fetching a request of stage x costs at least what it pushes. */
  lemma FetchPays(n: int, x: int, rest: seq<int>, c: int)
    requires 1 <= x && Top(x, rest) <= n && c <= n
    ensures Potential(n, x, rest + Range(x + 1, c)) <= Unknown(n - Top(x, rest)) + Product(n - x) + Sum(n, x, rest)
  {
    hide Product, Unknown, Sum, Top, Range, Stairs, Times;
    var h := Top(x, rest);
    TopGrows(x, rest);
    BlockIsStairs(h, x + 1, c);
    StairsConcat(x, rest, Range(x + 1, c));
    SumConcat(n, x, rest, Range(x + 1, c));
    BlockWorth(n, h, x + 1, c);
    SplitOff(n - x, h - x);
    if x <= c < h {
      TimesGrows(c - x, h - x, Product(n - h));
    }
  }

  lemma RetryPays(n: int, x: int, rest: seq<int>, page: int)
    requires 1 <= page <= x && Top(x, rest) <= n
    ensures Potential(n, x, rest + [page]) <= Unknown(n - Top(x, rest)) + Product(n - x) + Sum(n, x, rest)
  {
    hide Product, Unknown;
    var h := Top(x, rest);
    TopGrows(x, rest);
    assert [page][1..] == [] && Top(h, [page]) == h && Sum(n, h, [page]) == Product(n - h);
    hide Top, Sum, Stairs;
    StairsConcat(x, rest, [page]);
    SumConcat(n, x, rest, [page]);
    ProductFalls(n - x, n - h);
  }

  lemma PotentialFalls<T>(n: int, k: int, r: Request, rest: seq<int>, o: Outcome<T>)
    requires 1 <= r.page && Top(Max(k, r.page), rest) <= n
    requires o.Fetched? ==> WithinHeader(o.header, n)
    ensures var x := Max(k, r.page);
            Potential(n, x, rest + Pushed(o, r, x)) <= Potential(n, k, [r.page] + rest)
  {
    var x := Max(k, r.page);
    assert ([r.page] + rest)[1..] == rest;
    match o
    case Fetched(_, _, header) => FetchPays(n, x, rest, AvailablePages(header));
    case Failed =>
      RetryPays(n, x, rest, r.page);
      assert rest + [] == rest;
  }

  lemma {:induction false} TopWithin(k: int, pages: seq<int>, n: int)
    requires k <= n && forall i :: 0 <= i < |pages| ==> pages[i] <= n
    ensures Top(k, pages) <= n
    decreases |pages|
  {
    if pages != [] {
      TopWithin(Max(k, pages[0]), pages[1..], n);
    }
  }

  lemma {:induction false} UnknownGrows(u: int, v: int)
    requires u <= v
    ensures Unknown(u) <= Unknown(v)
    decreases v - u
  {
    if u < v {
      UnknownGrows(u, v - 1);
    }
  }

  lemma {:induction false} PeakBelowPotential<T(!new)>(
    net: Net<T>, prev: map<int, string>, s: State<T>, k: int, n: int)
    requires Bounded(net, n) && WithinPages(s, n) && Climbing(s, k) && k <= n
    ensures Peak(net, prev, s, n) <= Potential(n, k, PagesIn(s.queue))
    decreases Turns(net, prev, s, n)
  {
    if s.queue != [] {
      var r := s.queue[0];
      var rest := PagesIn(s.queue)[1..];
      StepDescends(net, prev, s, n);
      StepClimbs(net, prev, s, k);
      assert PagesIn(s.queue) == [r.page] + rest;
      TopWithin(Max(k, r.page), rest, n);
      hide Step, Product, Unknown, Stairs, Climbing, PagesIn, Rank;
      PotentialFalls(n, k, r, rest, net(|s.log|));
      PeakBelowPotential(net, prev, Step(net, prev, s), Max(k, r.page), n);
    }
  }

  /** Page 1 is the only request, and has not been fetched yet. */
  ghost predicate AtStart<T>(s: State<T>, k: int) {
    0 <= k <= 1 && Climbing(s, k) && PagesIn(s.queue) == [1]
  }

  lemma InitAtStart<T>(initial: Params)
    ensures AtStart(Init<T>(initial), 0)
  {
    var s := Init<T>(initial);
    assert PagesIn(s.queue) == [1] && [1][1..] == [] && Stairs(1, []);
  }

  /** The first successful response makes all pages it reports known, at no cost. */
  lemma FirstFetch(n: int, c: int)
    requires n >= 1 && c <= n
    ensures Potential(n, 1, Range(2, c)) == Unknown(n - 1)
  {
    BlockIsStairs(1, 2, c);
    BlockWorth(n, 1, 2, c);
  }

  lemma StartTurn<T(!new)>(net: Net<T>, prev: map<int, string>, s: State<T>, k: int, n: int)
    requires n >= 1 && Bounded(net, n) && AtStart(s, k)
    ensures |s.queue| == 1
    ensures var t := Step(net, prev, s);
            if net(|s.log|).Fetched?
            then
              Climbing(t, 1) && PagesIn(t.queue) == Range(2, AvailablePages(net(|s.log|).header)) &&
              Potential(n, 1, PagesIn(t.queue)) == Unknown(n - 1)
            else AtStart(t, 1) || t.queue == []
  {
    var t := Step(net, prev, s);
    var o := net(|s.log|);
    StepClimbs(net, prev, s, k);
    assert |s.queue| == |PagesIn(s.queue)| == 1 && s.queue[0].page == PagesIn(s.queue)[0] == 1;
    assert PagesIn(t.queue) == Pushed(o, s.queue[0], 1);
    hide Step, Climbing, PagesIn, Range, Product, Unknown, Stairs, Potential;
    if o.Fetched? {
      FirstFetch(n, AvailablePages(o.header));
    }
  }

  lemma {:induction false} PeakFromStart<T(!new)>(
    net: Net<T>, prev: map<int, string>, s: State<T>, k: int, n: int)
    requires n >= 1 && Bounded(net, n) && WithinPages(s, n) && AtStart(s, k)
    ensures Peak(net, prev, s, n) <= Worst(n)
    decreases Turns(net, prev, s, n)
  {
    StepDescends(net, prev, s, n);
    StartTurn(net, prev, s, k, n);
    hide AtStart, Step, Climbing, Potential, Unknown, Bounded, WithinPages, Range, Rank;
    var t := Step(net, prev, s);
    if net(|s.log|).Fetched? {
      PeakBelowPotential(net, prev, t, 1, n);
    } else if t.queue != [] {
      PeakFromStart(net, prev, t, 1, n);
    }
  }

  /** However the responses vary below n, and whatever fails, the queue never exceeds Worst(n). */
  lemma QueueStaysBelowWorst<T(!new)>(net: Net<T>, prev: map<int, string>, initial: Params, n: int)
    requires n >= 1 && Bounded(net, n)
    ensures WithinPages(Init<T>(initial), n)
    ensures Peak(net, prev, Init<T>(initial), n) <= Worst(n)
  {
    InitStarts<T>(prev, initial, n);
    InitAtStart<T>(initial);
    PeakFromStart(net, prev, Init<T>(initial), 0, n);
  }

  // ---- The bound is exact ------------------------------------------------------------------

  /** What the largest product of u leaves for the later factors, when its first factor is taken. */
  ghost function Rest(u: int): int {
    if u <= 4 then 0 else if u % 3 == 1 then u - 4 else u - 3
  }

  lemma {:induction false} ByRemainder(u: int)
    requires u >= 0 && u % 3 == 0
    ensures Product(u + 2) == 2 * Product(u) && Product(u + 4) == 4 * Product(u)
    decreases u
  {
    if u >= 3 {
      ByRemainder(u - 3);
    }
  }

  lemma SmallTimes(w: int)
    ensures Times(1, w) == w && Times(2, w) == 2 * w && Times(3, w) == 3 * w && Times(4, w) == 4 * w
  {
  }

  /** Both what u itself leaves and what u + 1 leaves lose nothing when u is split. */
  lemma RestLosesNothing(u: int)
    requires u >= 1
    ensures 0 <= Rest(u) <= Rest(u + 1) <= u && Rest(u) < u
    ensures Times(u - Rest(u), Product(Rest(u))) == Product(u)
    ensures Times(u - Rest(u + 1), Product(Rest(u + 1))) == Product(u)
  {
    hide Times;
    SmallTimes(Product(Rest(u)));
    SmallTimes(Product(Rest(u + 1)));
    if u >= 5 {
      Thirds(u);
      hide Rest, Product;
    }
  }

  lemma Thirds(u: int)
    requires u >= 5
    ensures u % 3 == 0 ==> Rest(u) == Rest(u + 1) == u - 3 && Product(u) == 3 * Product(u - 3)
    ensures u % 3 == 1 ==> Rest(u) == u - 4 && Rest(u + 1) == u - 2 &&
                           Product(u) == 4 * Product(u - 4) == 2 * Product(u - 2)
    ensures u % 3 == 2 ==> Rest(u) == u - 3 && Rest(u + 1) == u - 2 &&
                           Product(u) == 3 * Product(u - 3) == 2 * Product(u - 2)
  {
    assert Product(u) == 3 * Product(u - 3);
    assert Rest(u) == if u % 3 == 1 then u - 4 else u - 3;
    assert Rest(u + 1) == if u % 3 == 0 then u - 3 else u - 2;
    hide Product, Rest;
    if u % 3 == 1 {
      ByRemainder(u - 4);
      assert u - 4 + 4 == u && u - 4 + 2 == u - 2;
    } else if u % 3 == 2 {
      ByRemainder(u - 2);
      assert u - 2 + 2 == u;
    }
  }

  /** The page count that a response at stage x reports to make the queue as long as possible. */
  ghost function Target(n: int, x: int): int {
    n - Rest(n - x)
  }

  /** A request of this stage or the next loses nothing by pushing what stage k made known. */
  lemma TargetLosesNothing(n: int, k: int, x: int)
    requires 1 <= k <= x <= k + 1 < n
    ensures k < Target(n, k) <= Target(n, x) <= n
    ensures Times(Target(n, k) - x, Product(n - Target(n, k))) == Product(n - x)
  {
    RestLosesNothing(n - k);
    RestLosesNothing(n - k - 1);
    hide Times, Product, Rest;
  }

  /** The marked pages and the pages in the queue after j such fetches. */
  ghost function Play(n: int, j: nat): (int, seq<int>) {
    if j == 0 then (0, [1])
    else
      var (k, pages) := Play(n, j - 1);
      if pages == [] then (k, pages)
      else
        var x := Max(k, pages[0]);
        (x, pages[1..] + Range(x + 1, Target(n, x)))
  }

  ghost function StageAt(n: int, j: nat): int {
    var (k, pages) := Play(n, j);
    if pages == [] then n else Max(k, pages[0])
  }

  ghost function Adversary<T>(n: int): Net<T> {
    (j: nat) => Fetched([], "", Pages(Target(n, StageAt(n, j))))
  }

  lemma LosslessFetch(n: int, x: int, rest: seq<int>, c: int)
    requires 1 <= x && Top(x, rest) <= c <= n
    requires Times(Top(x, rest) - x, Product(n - Top(x, rest))) == Product(n - x)
    ensures Top(x, rest + Range(x + 1, c)) == c
    ensures Potential(n, x, rest + Range(x + 1, c)) == Unknown(n - Top(x, rest)) + Product(n - x) + Sum(n, x, rest)
  {
    hide Product, Unknown, Sum, Top, Range, Stairs, Times;
    var h := Top(x, rest);
    TopGrows(x, rest);
    BlockIsStairs(h, x + 1, c);
    StairsConcat(x, rest, Range(x + 1, c));
    SumConcat(n, x, rest, Range(x + 1, c));
    BlockWorth(n, h, x + 1, c);
  }

  /** In the last two stages every request is worth itself. */
  lemma {:induction false} LastStages(n: int, k: int, pages: seq<int>)
    requires k >= n - 1
    ensures Sum(n, k, pages) == |pages|
    decreases |pages|
  {
    if pages != [] {
      LastStages(n, Max(k, pages[0]), pages[1..]);
    }
  }

  /** Nothing has been lost so far, and the pages known are those that stage k made known. */
  ghost predicate Lossless<T>(s: State<T>, k: int, n: int) {
    && 1 <= k < n && Climbing(s, k)
    && Play(n, |s.log|) == (k, PagesIn(s.queue))
    && Top(k, PagesIn(s.queue)) == Target(n, k)
    && Potential(n, k, PagesIn(s.queue)) == Unknown(n - 1)
  }

  lemma PlayTurn(n: int, j: nat, k: int, pages: seq<int>)
    requires Play(n, j) == (k, pages) && pages != []
    ensures var x := Max(k, pages[0]);
            StageAt(n, j) == x && Play(n, j + 1) == (x, pages[1..] + Range(x + 1, Target(n, x)))
  {
  }

  lemma StepLossless<T(!new)>(prev: map<int, string>, s: State<T>, k: int, n: int)
    requires Lossless(s, k, n) && k < n - 1
    ensures s.queue != []
    ensures exists x :: Lossless(Step(Adversary(n), prev, s), x, n)
  {
    hide Product, Unknown, Sum, Range, Times, Target, Rest, Step, Play, StageAt, Stairs;
    var pages := PagesIn(s.queue);
    TargetLosesNothing(n, k, k);
    assert pages != [];
    var net: Net<T> := Adversary(n);
    var r, t := s.queue[0], Step(net, prev, s);
    var x, rest := Max(k, r.page), pages[1..];
    StepClimbs(net, prev, s, k);
    PlayTurn(n, |s.log|, k, pages);
    assert pages == [r.page] + rest;
    SumOfQueue(n, k, r.page, rest);
    assert PagesIn(t.queue) == rest + Range(x + 1, Target(n, x));
    hide PagesIn, Climbing, Top, Adversary, Pushed;
    TargetLosesNothing(n, k, x);
    LosslessFetch(n, x, rest, Target(n, x));
    assert Lossless(t, x, n);
  }

  lemma SumOfQueue(n: int, k: int, page: int, rest: seq<int>)
    ensures Top(k, [page] + rest) == Top(Max(k, page), rest)
    ensures Sum(n, k, [page] + rest) == Product(n - Max(k, page)) + Sum(n, Max(k, page), rest)
  {
    assert ([page] + rest)[1..] == rest;
  }

  lemma LosslessEnd<T>(s: State<T>, n: int)
    requires Lossless(s, n - 1, n)
    ensures |s.queue| == Unknown(n - 1)
  {
    LastStages(n, n - 1, PagesIn(s.queue));
    hide Sum, Top, Climbing, PagesIn;
  }

  lemma {:induction false} PeakOfAdversary<T(!new)>(prev: map<int, string>, s: State<T>, k: int, n: int)
    requires Bounded<T>(Adversary(n), n) && WithinPages(s, n) && Lossless(s, k, n)
    ensures Peak(Adversary(n), prev, s, n) >= Unknown(n - 1)
    decreases Turns(Adversary(n), prev, s, n)
  {
    assert k <= n - 1;
    hide Step, Lossless, Rank, Unknown, Adversary, WithinPages, Bounded;
    if k == n - 1 {
      LosslessEnd(s, n);
    } else {
      StepLossless(prev, s, k, n);
      StepDescends(Adversary(n), prev, s, n);
      var t := Step(Adversary(n), prev, s);
      var x :| Lossless(t, x, n);
      PeakOfAdversary(prev, t, x, n);
    }
  }

  lemma AdversaryBounded<T(!new)>(n: int)
    ensures Bounded<T>(Adversary(n), n)
  {
  }

  lemma FirstLossless<T(!new)>(prev: map<int, string>, initial: Params, n: int)
    requires n >= 2
    ensures Lossless(Step(Adversary(n), prev, Init<T>(initial)), 1, n)
  {
    var s := Init<T>(initial);
    var net: Net<T> := Adversary(n);
    var t := Step(net, prev, s);
    InitAtStart<T>(initial);
    RestLosesNothing(n - 1);
    StartTurn(net, prev, s, 0, n);
    StepClimbs(net, prev, s, 0);
    assert Play(n, 0) == (0, [1]) && [1][1..] == [];
    assert Play(n, 1) == (1, [] + Range(2, Target(n, 1)));
    BlockIsStairs(1, 2, Target(n, 1));
  }

  /** Some responses make the queue exactly that long. */
  lemma WorstIsReached<T(!new)>(prev: map<int, string>, initial: Params, n: int)
    requires n >= 1
    ensures Bounded<T>(Adversary(n), n) && WithinPages(Init<T>(initial), n)
    ensures Peak(Adversary(n), prev, Init<T>(initial), n) == Worst(n)
  {
    var s := Init<T>(initial);
    AdversaryBounded<T>(n);
    InitStarts<T>(prev, initial, n);
    QueueStaysBelowWorst<T>(Adversary(n), prev, initial, n);
    StepDescends(Adversary(n), prev, s, n);
    if n >= 2 {
      FirstLossless<T>(prev, initial, n);
      PeakOfAdversary(prev, Step(Adversary(n), prev, s), 1, n);
    }
  }

  lemma {:induction false} WorstFitsIff(n: int)
    requires n >= 1
    ensures Worst(n) <= CAPACITY <==> n <= 11
  {
    assert Unknown(5) == 11;
    assert Unknown(10) == 83;
    assert Unknown(11) == 119;
    if n <= 11 {
      UnknownGrows(n - 1, 10);
    } else {
      UnknownGrows(11, n - 1);
    }
  }

  /** If all that is known is that no response reports more than n pages, the consumer can never block
      on its own channel, whatever fails, exactly up to 11 pages. */
  lemma NeverBlocksVaryingIff<T(!new)>(prev: map<int, string>, initial: Params, n: int)
    requires n >= 1
    ensures WithinPages(Init<T>(initial), n)
    ensures (forall net: Net<T> | Bounded(net, n) :: Peak(net, prev, Init<T>(initial), n) <= 100) <==> n <= 11
  {
    InitStarts<T>(prev, initial, n);
    WorstFitsIff(n);
    if n <= 11 {
      forall net: Net<T> | Bounded(net, n)
        ensures Peak(net, prev, Init<T>(initial), n) <= CAPACITY
      {
        QueueStaysBelowWorst(net, prev, initial, n);
      }
    } else {
      WorstIsReached<T>(prev, initial, n);
    }
  }
}
