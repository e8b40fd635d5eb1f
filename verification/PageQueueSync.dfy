/** FetchAllPages as two threads: the consumer goroutine and the caller that waits on the WaitGroup,
    closes the channel and returns.  Every WaitGroup call, send, receive and close is one step, in
    any interleaving.  The machine refines the sequential `Step` of PageQueue, so its results are
    those of `Final`, and it comes to rest unless the consumer sends to a full channel. */
module PageQueueSync {
  import opened PageQueue
  import opened PageQueueLaws

  /** Where the consumer is; `added` tells whether the Add before the next send has happened. */
  datatype Consumer =
    | Receiving
    | Working(request: Request)
    | Retrying(again: Request, added: bool)
    | Sending(pages: seq<int>, added: bool)
    | Finishing
    | Exited

  datatype Caller = AtWait | Closing | Returned

  /** `data.queue` is the content of the channel. */
  datatype Sys<+T> = Sys(data: State<T>, wg: int, closed: bool, consumer: Consumer, caller: Caller)

  datatype Event = Receive | ObserveClose | Fetch | Add | Send | EndLoop | Done | WakeUp | Close

  function Start<T>(initial: Params): Sys<T> {
    Sys(Init(initial), 1, false, Receiving, AtWait)
  }

  function SendOf<T>(s: Sys<T>): Request
    requires s.consumer.Retrying? || (s.consumer.Sending? && s.consumer.pages != [])
  {
    if s.consumer.Retrying? then s.consumer.again else FreshRequest(s.data.shared, s.consumer.pages[0])
  }

  predicate AtSend<T>(s: Sys<T>) {
    s.consumer.Retrying? || (s.consumer.Sending? && s.consumer.pages != [])
  }

  /** Whether the consumer stands at a send whose Add it has already made. */
  predicate Added<T>(s: Sys<T>) {
    (s.consumer.Retrying? || s.consumer.Sending?) && s.consumer.added
  }

  predicate Enabled<T>(s: Sys<T>, e: Event) {
    match e
    case Receive => s.consumer.Receiving? && s.data.queue != []
    case ObserveClose => s.consumer.Receiving? && s.data.queue == [] && s.closed
    case Fetch => s.consumer.Working?
    case Add => AtSend(s) && !Added(s)
    case Send => AtSend(s) && Added(s) && |s.data.queue| < CAPACITY
    case EndLoop => s.consumer == Sending([], false)
    case Done => s.consumer.Finishing?
    case WakeUp => s.caller.AtWait? && s.wg == 0
    case Close => s.caller.Closing?
  }

  function AfterSend<T>(s: Sys<T>): Consumer
    requires AtSend(s)
  {
    if s.consumer.Retrying? then Finishing else Sending(s.consumer.pages[1..], false)
  }

  function Next<T>(net: Net<T>, prev: map<int, string>, s: Sys<T>, e: Event): Sys<T>
    requires Enabled(s, e)
  {
    match e
    case Receive => s.(data := s.data.(queue := s.data.queue[1..]), consumer := Working(s.data.queue[0]))
    case ObserveClose => s.(consumer := Exited)
    case Fetch =>
      var r := s.consumer.request;
      var after := AfterFetch(net, prev, s.data, r);
      s.(data := after,
         consumer :=
           match net(|s.data.log|)
           case Failed =>
             if r.retries < MAX_RETRIES then Retrying(Pushes(net, prev, s.data, r)[0], false) else Finishing
           case Fetched(_, _, header) =>
             Sending(Unmarked(after.completed, 2, AvailablePages(header)), false))
    case Add =>
      s.(wg := s.wg + 1,
         consumer := if s.consumer.Retrying? then Retrying(s.consumer.again, true)
                     else Sending(s.consumer.pages, true))
    case Send => s.(data := s.data.(queue := s.data.queue + [SendOf(s)]), consumer := AfterSend(s))
    case EndLoop => s.(consumer := Finishing)
    case Done => s.(wg := s.wg - 1, consumer := Receiving)
    case WakeUp => s.(caller := Closing)
    case Close => s.(closed := true, caller := Returned)
  }

  // ---- Safety ------------------------------------------------------------------------------

  predicate Busy<T>(s: Sys<T>) {
    !s.consumer.Receiving? && !s.consumer.Exited?
  }

  /** The WaitGroup counts the queued requests, the one in process and an Add ahead of its send. */
  ghost predicate Inv<T>(s: Sys<T>) {
    && s.wg == |s.data.queue| + (if Busy(s) then 1 else 0) + (if Added(s) then 1 else 0)
    && (s.consumer.Sending? && s.consumer.added ==> s.consumer.pages != [])
    && (!s.caller.AtWait? ==> s.wg == 0)
    && (s.closed <==> s.caller.Returned?)
    && (s.consumer.Exited? ==> s.closed)
  }

  /** What is left of the current turn, put back: the state of the sequential consumer. */
  ghost function Abs<T>(s: Sys<T>): State<T> {
    match s.consumer
    case Working(r) => s.data.(queue := [r] + s.data.queue)
    case Retrying(again, _) => s.data.(queue := s.data.queue + [again])
    case Sending(pages, _) => s.data.(queue := s.data.queue + FreshRequests(s.data.shared, pages))
    case _ => s.data
  }

  lemma StepKeepsInv<T>(net: Net<T>, prev: map<int, string>, s: Sys<T>, e: Event)
    requires Inv(s) && Enabled(s, e)
    ensures Inv(Next(net, prev, s, e))
  {
  }

  /** Only the fetch moves the sequential consumer, and by exactly one turn. */
  lemma StepRefines<T>(net: Net<T>, prev: map<int, string>, s: Sys<T>, e: Event)
    requires Inv(s) && Enabled(s, e)
    ensures if e.Fetch?
            then Abs(s).queue != [] && Abs(Next(net, prev, s, e)) == Step(net, prev, Abs(s))
            else Abs(Next(net, prev, s, e)) == Abs(s)
  {
    var t := Next(net, prev, s, e);
    if e.Receive? {
      assert [s.data.queue[0]] + s.data.queue[1..] == s.data.queue;
    } else if e.Fetch? {
      var r := s.consumer.request;
      assert Abs(s).queue[1..] == s.data.queue;
      assert Abs(s).(queue := s.data.queue) == s.data;
      assert Abs(t).queue == s.data.queue + Pushes(net, prev, s.data, r);
    } else if e.Send? && s.consumer.Sending? {
      SendOne(s.data.queue, s.data.shared, s.consumer.pages[0], s.consumer.pages[1..]);
      assert [s.consumer.pages[0]] + s.consumer.pages[1..] == s.consumer.pages;
    }
  }

  /** The events, in that order, are possible from s on. */
  ghost predicate Runs<T>(net: Net<T>, prev: map<int, string>, s: Sys<T>, events: seq<Event>)
    decreases |events|
  {
    events == [] || (Enabled(s, events[0]) && Runs(net, prev, Next(net, prev, s, events[0]), events[1..]))
  }

  /** The state they lead to; the states End(start, events) are all the reachable ones. */
  ghost function End<T>(net: Net<T>, prev: map<int, string>, s: Sys<T>, events: seq<Event>): Sys<T>
    requires Runs(net, prev, s, events)
    decreases |events|
  {
    if events == [] then s else End(net, prev, Next(net, prev, s, events[0]), events[1..])
  }

  /** The sequential run that is still ahead of s ends, and peaks, inside the one from `from`. */
  ghost predicate Ahead<T(!new)>(net: Net<T>, prev: map<int, string>, from: State<T>, s: State<T>, n: int)
    requires Bounded(net, n) && WithinPages(from, n)
  {
    && WithinPages(s, n)
    && Final(net, prev, s, n) == Final(net, prev, from, n)
    && Peak(net, prev, s, n) <= Peak(net, prev, from, n)
  }

  lemma StepAhead<T(!new)>(net: Net<T>, prev: map<int, string>, s: Sys<T>, e: Event, n: int)
    requires Bounded(net, n) && Inv(s) && WithinPages(Abs(s), n) && Enabled(s, e)
    ensures Inv(Next(net, prev, s, e)) && Ahead(net, prev, Abs(s), Abs(Next(net, prev, s, e)), n)
  {
    StepKeepsInv(net, prev, s, e);
    StepRefines(net, prev, s, e);
    hide Next, Inv, Abs, Step, Rank, Enabled;
    if e.Fetch? {
      StepDescends(net, prev, Abs(s), n);
    }
  }

  lemma {:induction false} RunInvariant<T(!new)>(
    net: Net<T>, prev: map<int, string>, s: Sys<T>, events: seq<Event>, n: int)
    requires Bounded(net, n) && Inv(s) && WithinPages(Abs(s), n) && Runs(net, prev, s, events)
    ensures var t := End(net, prev, s, events);
            Inv(t) && Ahead(net, prev, Abs(s), Abs(t), n)
    decreases |events|
  {
    if events != [] {
      StepAhead(net, prev, s, events[0], n);
      hide Next, Inv, Abs, Enabled, Final, Peak;
      RunInvariant(net, prev, Next(net, prev, s, events[0]), events[1..], n);
    }
  }

  lemma StartGood<T(!new)>(initial: Params, n: int)
    requires n >= 1
    ensures var s := Start<T>(initial);
            Inv(s) && Abs(s) == Init<T>(initial) && WithinPages(Abs(s), n) && Room(s)
  {
  }

  /** In every reachable state the WaitGroup counts the queued and in-process requests, a closed
      channel is empty and will not be sent to, and a caller that has stopped waiting holds exactly
      the results of the sequential run, which nothing changes any more. */
  lemma SafeClose<T(!new)>(
    net: Net<T>, prev: map<int, string>, initial: Params, events: seq<Event>, n: int)
    requires n >= 1 && Bounded(net, n) && Runs(net, prev, Start<T>(initial), events)
    ensures WithinPages(Init<T>(initial), n)
    ensures var t := End(net, prev, Start<T>(initial), events);
            && t.wg == |t.data.queue| + (if Busy(t) then 1 else 0) + (if Added(t) then 1 else 0)
            && (t.closed ==> t.data.queue == [] && !Busy(t))
            && (!t.caller.AtWait? ==> t.data == Final(net, prev, Init<T>(initial), n))
  {
    StartGood<T>(initial, n);
    RunInvariant(net, prev, Start<T>(initial), events, n);
  }

  // ---- Progress ----------------------------------------------------------------------------

  predicate AtRest<T>(s: Sys<T>) {
    s.consumer.Exited? && s.caller.Returned?
  }

  /** The only way to get stuck is to send to a full channel. */
  predicate Stuck<T>(s: Sys<T>) {
    AtSend(s) && Added(s) && |s.data.queue| >= CAPACITY
  }

  lemma StuckOnlyWhenFull<T>(s: Sys<T>)
    requires Inv(s)
    ensures (exists e: Event :: Enabled(s, e)) <==> !AtRest(s) && !Stuck(s)
  {
    if !AtRest(s) && !Stuck(s) {
      var e := match s.consumer
        case Receiving =>
          if s.data.queue != [] then Receive
          else if s.closed then ObserveClose
          else if s.caller.AtWait? then WakeUp else Close
        case Working(_) => Fetch
        case Retrying(_, added) => if added then Send else Add
        case Sending(pages, added) => if pages == [] then EndLoop else if added then Send else Add
        case Finishing => Done
        case Exited => Close;
      assert Enabled(s, e);
    }
  }

  /** Steps left inside the current turn and in the caller. */
  ghost function LocalRank<T>(s: Sys<T>): nat {
    (match s.consumer
     case Receiving => 1
     case Working(_) => 0
     case Retrying(_, added) => if added then 3 else 4
     case Sending(pages, added) => if added then 2 + 2 * |pages| else 3 + 2 * |pages|
     case Finishing => 2
     case Exited => 0) +
    (match s.caller case AtWait => 2 case Closing => 1 case Returned => 0)
  }

  /** Every step of every interleaving comes closer to the end: no run is infinite. */
  lemma StepTerminates<T(!new)>(net: Net<T>, prev: map<int, string>, s: Sys<T>, e: Event, n: int)
    requires Bounded(net, n) && WithinPages(Abs(s), n) && Inv(s) && Enabled(s, e)
    ensures var t := Next(net, prev, s, e);
            && WithinPages(Abs(t), n)
            && (Turns(net, prev, Abs(t), n) < Turns(net, prev, Abs(s), n) ||
                (Turns(net, prev, Abs(t), n) == Turns(net, prev, Abs(s), n) && LocalRank(t) < LocalRank(s)))
  {
    StepRefines(net, prev, s, e);
    if e.Fetch? {
      StepDescends(net, prev, Abs(s), n);
    }
  }

  ghost predicate Room<T>(s: Sys<T>) {
    |s.data.queue| + (if s.consumer.Working? then 1 else 0) <= CAPACITY
  }

  /** While something is still to be fetched the consumer has an event of its own. */
  function ConsumerEvent<T>(s: Sys<T>): (e: Event)
    requires s.data.queue != [] || Busy(s)
    requires !s.consumer.Exited? && !Stuck(s)
    requires s.consumer.Sending? && s.consumer.added ==> s.consumer.pages != []
    ensures Enabled(s, e) && !e.ObserveClose?
  {
    match s.consumer
    case Receiving => Receive
    case Working(_) => Fetch
    case Retrying(_, added) => if added then Send else Add
    case Sending(pages, added) => if pages == [] then EndLoop else if added then Send else Add
    case Finishing => Done
  }

  lemma PeakAhead<T(!new)>(net: Net<T>, prev: map<int, string>, s: Sys<T>, e: Event, n: int)
    requires Bounded(net, n) && WithinPages(Abs(s), n) && Inv(s) && Room(s) && Enabled(s, e)
    requires Peak(net, prev, Abs(s), n) > CAPACITY
    ensures var t := Next(net, prev, s, e);
            && Inv(t) && Room(t) && WithinPages(Abs(t), n)
            && Peak(net, prev, Abs(t), n) > CAPACITY
            && (Turns(net, prev, Abs(t), n) < Turns(net, prev, Abs(s), n) ||
                (Turns(net, prev, Abs(t), n) == Turns(net, prev, Abs(s), n) && LocalRank(t) < LocalRank(s)))
  {
    StepTerminates(net, prev, s, e, n);
    StepKeepsInv(net, prev, s, e);
    StepRefines(net, prev, s, e);
  }

  /** If the sequential queue outgrows the channel, some run gets stuck. */
  lemma {:induction false} DriveToStuck<T(!new)>(net: Net<T>, prev: map<int, string>, s: Sys<T>, n: int)
    returns (events: seq<Event>)
    requires Bounded(net, n) && WithinPages(Abs(s), n) && Inv(s) && Room(s)
    requires Peak(net, prev, Abs(s), n) > CAPACITY
    ensures Runs(net, prev, s, events) && Stuck(End(net, prev, s, events))
    decreases Turns(net, prev, Abs(s), n), LocalRank(s)
  {
    if Stuck(s) {
      events := [];
    } else {
      assert s.data.queue != [] || Busy(s);
      var e := ConsumerEvent(s);
      PeakAhead(net, prev, s, e, n);
      var t := Next(net, prev, s, e);
      hide Next, Inv, Abs, Room, Stuck, Peak, Turns, LocalRank;
      var more := DriveToStuck(net, prev, t, n);
      events := [e] + more;
      assert events[1..] == more;
    }
  }

  lemma NotStuckBelowPeak<T(!new)>(
    net: Net<T>, prev: map<int, string>, initial: Params, events: seq<Event>, n: int)
    requires n >= 1 && Bounded(net, n) && Runs(net, prev, Start<T>(initial), events)
    requires WithinPages(Init<T>(initial), n)
    requires Stuck(End(net, prev, Start<T>(initial), events))
    ensures Peak(net, prev, Init<T>(initial), n) > CAPACITY
  {
    StartGood<T>(initial, n);
    RunInvariant(net, prev, Start<T>(initial), events, n);
    var t := End(net, prev, Start<T>(initial), events);
    assert |Abs(t).queue| > CAPACITY;
  }

  /** Some interleaving deadlocks exactly when the sequential queue outgrows the channel; with the
      same page count n in every response that is possible exactly for n >= 16. */
  lemma DeadlockIffPeakTooHigh<T(!new)>(net: Net<T>, prev: map<int, string>, initial: Params, n: int)
    requires n >= 1 && Bounded(net, n)
    ensures WithinPages(Init<T>(initial), n)
    ensures (exists events :: Runs(net, prev, Start<T>(initial), events) &&
                              Stuck(End(net, prev, Start<T>(initial), events)))
            <==> Peak(net, prev, Init<T>(initial), n) > 100
    ensures Constant(net, n) && n <= 15 ==> Peak(net, prev, Init<T>(initial), n) <= 100
    ensures AllSucceed(net, n) && n >= 16 ==> Peak(net, prev, Init<T>(initial), n) > 100
  {
    var s := Start<T>(initial);
    StartGood<T>(initial, n);
    forall events | Runs(net, prev, s, events) && Stuck(End(net, prev, s, events))
      ensures Peak(net, prev, Init<T>(initial), n) > CAPACITY
    {
      NotStuckBelowPeak(net, prev, initial, events, n);
    }
    if Peak(net, prev, Init<T>(initial), n) > CAPACITY {
      var events := DriveToStuck(net, prev, s, n);
    }
    MostFitsIff(n);
    if Constant(net, n) {
      QueueStaysBelow(net, prev, initial, n);
    }
    if AllSucceed(net, n) {
      QueueReachesMost(net, prev, initial, n);
    }
  }
}
