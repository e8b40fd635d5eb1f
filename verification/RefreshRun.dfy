/** One run of RefreshSystemIndexes (and, with the other key, of RefreshAdjustedPrices): what it does
    to the store, in which order, and how it disposes of its JetStream message.  Every answer of
    Redis, ESI, NATS and the clock is arbitrary. */
module RefreshRun {
  import opened Options
  import opened RefreshProtocol

  // ---- The message -------------------------------------------------------------------------

  datatype Verb = InProgress | Ack | Nak | NakWithDelay(millis: int) | Term

  /** One call, and whether it succeeded. */
  datatype Call = Call(verb: Verb, ok: bool)

  const MAX_DELIVERIES: nat := 5
  const MAX_DELAY_SECS: nat := 60
  const MAX_ATTEMPTS: nat := 4
  const HEARTBEAT: int := 5_000

  class Message {
    const numDelivered: nat
    var calls: seq<Call>

    constructor (numDelivered: nat)
      ensures this.numDelivered == numDelivered && calls == []
    {
      this.numDelivered, calls := numDelivered, [];
    }

    method Do(verb: Verb) returns (ok: bool)
      modifies this
      ensures calls == old(calls) + [Call(verb, ok)]
    {
      ok := *;
      calls := calls + [Call(verb, ok)];
    }
  }

  function PowerOfTwo(n: nat): nat {
    if n == 0 then 1 else 2 * PowerOfTwo(n - 1)
  }

  /** The delay in seconds; a delivery count of 0 would make the shift count wrap around. */
  function Backoff(deliveries: nat): nat {
    var delay := if deliveries == 0 then 0 else PowerOfTwo(deliveries - 1);
    if delay > MAX_DELAY_SECS then MAX_DELAY_SECS else delay
  }

  function BackoffVerb(deliveries: nat): Verb {
    if deliveries >= MAX_DELIVERIES then Term else NakWithDelay(1000 * Backoff(deliveries))
  }

  method NackWithBackoff(msg: Message) returns (ok: bool)
    modifies msg
    ensures msg.calls == old(msg.calls) + [Call(BackoffVerb(msg.numDelivered), ok)]
  {
    if msg.numDelivered >= MAX_DELIVERIES {
      ok := msg.Do(Term);
      return;
    }
    var delaySecs := if msg.numDelivered == 0 then 0 else PowerOfTwo(msg.numDelivered - 1);
    if delaySecs > MAX_DELAY_SECS {
      delaySecs := MAX_DELAY_SECS;
    }
    ok := msg.Do(NakWithDelay(1000 * delaySecs));
  }

  /** The delays double from 1 s to 8 s and the fifth delivery ends the message: the cap of 60 s that
      the code and its comment provide for is never reached. */
  lemma BackoffNeverCapped(deliveries: nat)
    ensures BackoffVerb(deliveries) ==
            if deliveries >= 5 then Term
            else if deliveries == 0 then NakWithDelay(0)
            else NakWithDelay([1_000, 2_000, 4_000, 8_000][deliveries - 1])
  {
    assert PowerOfTwo(1) == 2 && PowerOfTwo(2) == 4 && PowerOfTwo(3) == 8;
  }

  /** What the cap would do to later deliveries, if there were any. */
  lemma BackoffCap(deliveries: nat)
    ensures deliveries >= 7 ==> Backoff(deliveries) == 60
    ensures 1 <= deliveries <= 6 ==> Backoff(deliveries) == [1, 2, 4, 8, 16, 32][deliveries - 1]
  {
    assert PowerOfTwo(1) == 2 && PowerOfTwo(2) == 4 && PowerOfTwo(3) == 8;
    assert PowerOfTwo(4) == 16 && PowerOfTwo(5) == 32 && PowerOfTwo(6) == 64;
    if deliveries >= 7 {
      PowerGrows(6, deliveries - 1);
    }
  }

  lemma {:induction false} PowerGrows(m: nat, n: nat)
    requires m <= n
    ensures PowerOfTwo(m) <= PowerOfTwo(n)
  {
    if m < n {
      PowerGrows(m, n - 1);
    }
  }

  // ---- The store operations of one run -----------------------------------------------------

  /** The phase a refresher is in after these operations, if they come in an order it can take. */
  ghost function Walk(c: Config, ops: seq<Op>): Option<Phase> {
    if ops == [] then Some(Begun)
    else
      var before := Walk(c, ops[..|ops| - 1]);
      if before.Some? && Fits(c, before.value, ops[|ops| - 1])
      then Some(Advance(c, before.value, ops[|ops| - 1]))
      else None
  }

  lemma WalkOn(c: Config, ops: seq<Op>, op: Op)
    requires Walk(c, ops).Some? && Fits(c, Walk(c, ops).value, op)
    ensures Walk(c, ops + [op]) == Some(Advance(c, Walk(c, ops).value, op))
  {
    assert (ops + [op])[..|ops|] == ops;
  }

  /** The Redis client as one run uses it; `ops` is the history. */
  class Session {
    const c: Config
    ghost var ops: seq<Op>

    ghost predicate At(phase: Phase)
      reads this
    {
      Walk(c, ops) == Some(phase)
    }

    constructor (c: Config)
      ensures this.c == c && ops == [] && At(Begun)
    {
      this.c, ops := c, [];
    }

    ghost method Record(op: Op, phase: Phase)
      requires At(phase) && Fits(c, phase, op)
      modifies this
      ensures ops == old(ops) + [op] && At(Advance(c, phase, op))
    {
      WalkOn(c, ops, op);
      ops := ops + [op];
    }

    /** AcquireRefreshLock. */
    method AcquireRefreshLock() returns (acquired: bool, err: bool)
      requires At(Begun)
      modifies this
      ensures acquired ==> !err && At(Locked) && ops == old(ops) + [TryLock(Took)]
      ensures !acquired && !err ==> At(Over) && ops == old(ops) + [TryLock(Busy)]
      ensures err ==> !acquired && At(Over) &&
                      exists effect :: ops == old(ops) + [TryLock(LockError(effect))]
    {
      var result: LockResult := *;
      Record(TryLock(result), Begun);
      acquired, err := result.Took?, result.LockError?;
    }

    /** GetIndustrySystemsETag: None for an error and for a missing key. */
    method GetETag() returns (tag: Option<nat>)
      requires At(Locked)
      modifies this
      ensures At(Asking(tag)) && ops == old(ops) + [ReadTag(tag)]
    {
      tag := *;
      Record(ReadTag(tag), Locked);
    }

    method SaveItem(ghost version: nat, ghost saved: nat) returns (ok: bool, ghost effect: bool)
      requires At(Saving(version, saved)) && saved < |c.listing(version)|
      modifies this
      ensures At(if ok then Saving(version, saved + 1) else Failed)
      ensures ops == old(ops) + [RefreshProtocol.SaveItem(effect, ok)] && (ok ==> effect)
    {
      var done: bool := *;
      ok := *;
      ok, effect := ok && done, done;
      Record(RefreshProtocol.SaveItem(effect, ok), Saving(version, saved));
    }

    /** SaveIndustrySystemsETag does nothing, successfully, for an empty ETag. */
    method SaveETag(version: nat) returns (ok: bool, ghost effect: bool)
      requires At(Saving(version, |c.listing(version)|))
      modifies this
      ensures At(if ok then Tagged(version) else Failed)
      ensures ops == old(ops) + [SaveTag(effect, ok)]
      ensures if c.tagged(version) then ok ==> effect else ok && !effect
    {
      var done: bool := *;
      ok := *;
      if !c.tagged(version) {
        ok, effect := true, false;
      } else {
        ok, effect := ok && done, done;
      }
      Record(SaveTag(effect, ok), Saving(version, |c.listing(version)|));
    }

    method SaveLastUpdated(ghost version: nat) returns (ok: bool, ghost effect: bool)
      requires At(Tagged(version))
      modifies this
      ensures At(if ok then Stamped(version) else Failed)
      ensures ops == old(ops) + [SaveStamp(effect, ok)] && (ok ==> effect)
    {
      var done: bool := *;
      ok := *;
      ok, effect := ok && done, done;
      Record(SaveStamp(effect, ok), Tagged(version));
    }

    /** The deferred cleanup. */
    method DeleteLock(ghost phase: Phase) returns (ghost effect: bool)
      requires At(phase) && (phase.Failed? || phase.Stamped? || phase.Unchanged?)
      modifies this
      ensures At(Over) && ops == old(ops) + [Release(effect)]
    {
      effect := *;
      Record(Release(effect), phase);
    }
  }

  /** The release comes last, and only when the work has ended: with no usable answer, a 304, an item
      that could not be read or saved, a save that failed, or everything saved. */
  predicate EndsWork(op: Op) {
    match op
    case Answer(reply) => !reply.Full?
    case SaveItem(_, ok) => !ok
    case BadItem => true
    case SaveTag(_, ok) => !ok
    case SaveStamp(_, _) => true
    case _ => false
  }

  lemma {:induction false} ReleaseComesLast(c: Config, ops: seq<Op>, i: nat)
    requires Walk(c, ops).Some? && i < |ops| && ops[i].Release?
    ensures i == |ops| - 1 && i > 0 && EndsWork(ops[i - 1])
  {
    var init := ops[..|ops| - 1];
    if i < |init| {
      ReleaseComesLast(c, init, i);
      assert false;
    }
    assert init[..|init| - 1] == ops[..|ops| - 2];
  }

  /** Whoever is in a phase after the lock began by taking it. */
  lemma {:induction false} WalkTookLock(c: Config, ops: seq<Op>)
    ensures Walk(c, ops).Some? && Holding(Walk(c, ops).value) ==> ops != [] && ops[0] == TryLock(Took)
  {
    if ops != [] {
      WalkTookLock(c, ops[..|ops| - 1]);
    }
  }

  // ---- The response stream -----------------------------------------------------------------

  /** A response body: the items of a version up to a cut, then the end or an error.  `opens` covers
      the gzip header and the opening bracket, `closes` the closing one. */
  datatype Body = Body(version: nat, opens: bool, cut: nat, closes: bool)

  datatype Attempt =
    | Transport
    | RateLimited(retryable: bool, wait: int)
    | Nil
    | Response(status: int, body: Body)

  /** `Panicked` is no error value: the call did not return. */
  datatype StreamError = NoError | RateLimit(retryable: bool, wait: int) | OtherError | Panicked

  /** DoRequest: a 304 answers a tag that matches. */
  method DoRequest(tag: Option<nat>) returns (a: Attempt)
    ensures a.Response? && a.status == 304 ==> tag == Some(a.body.version)
  {
    a := *;
    if a.Response? && a.status == 304 {
      match tag {
        case Some(v) => a := a.(body := a.body.(version := v));
        case None => a := a.(status := 200);
      }
    }
  }

  /** The attempt loop: transport errors are retried, up to four attempts in all; `tries` is the
      history of the attempts, and the last one decides. */
  method Request(tag: Option<nat>) returns (a: Attempt, ghost tries: seq<Attempt>)
    ensures 1 <= |tries| <= 4 && a == tries[|tries| - 1]
    ensures forall i :: 0 <= i < |tries| - 1 ==> tries[i].Transport?
    ensures a.Transport? ==> |tries| == 4
    ensures a.Response? && a.status == 304 ==> tag == Some(a.body.version)
  {
    var attempts := 0;
    tries := [];
    while true
      invariant attempts == |tries| < MAX_ATTEMPTS
      invariant forall i :: 0 <= i < |tries| ==> tries[i].Transport?
      decreases MAX_ATTEMPTS - attempts
    {
      a := DoRequest(tag);
      attempts := attempts + 1;
      tries := tries + [a];
      if !a.Transport? || attempts >= MAX_ATTEMPTS {
        return;
      }
    }
  }

  ghost predicate Beats(calls: seq<Call>) {
    forall i :: 0 <= i < |calls| ==> calls[i].verb.InProgress?
  }

  /** The body is complete. */
  predicate Whole(c: Config, b: Body) {
    b.opens && b.cut >= |c.listing(b.version)| && b.closes
  }

  /** The outcomes of the saves so far: all succeeded. */
  ghost predicate AllSaved(saves: seq<Op>) {
    forall i :: 0 <= i < |saves| ==> saves[i].SaveItem? && saves[i].ok
  }

  /** All succeeded but the last one. */
  ghost predicate SavedUntil(saves: seq<Op>) {
    && saves != [] && AllSaved(saves[..|saves| - 1])
    && saves[|saves| - 1].SaveItem? && !saves[|saves| - 1].ok
  }

  lemma NothingYet()
    ensures AllSaved([]) && Beats([])
  {
  }

  lemma SavedUntilIsNotAll(saves: seq<Op>)
    ensures SavedUntil(saves) ==> !AllSaved(saves)
  {
  }

  /** Readings of the clock at the heartbeats of a stream that starts at `start`: five seconds apart. */
  ghost predicate FiveSecondsApart(start: int, times: seq<int>) {
    times == [] ||
    (FiveSecondsApart(start, times[..|times| - 1]) &&
     times[|times| - 1] - (if |times| == 1 then start else times[|times| - 2]) >= 5_000)
  }

  /** What a stream did: the attempts, the operations, the saves among them, and its heartbeats with the
      clock's readings. */
  datatype Stream = Stream(
    tries: seq<Attempt>, ops: seq<Op>, saves: seq<Op>, beats: seq<Call>, times: seq<int>)

  lemma FiveSecondsOn(start: int, times: seq<int>, now: int)
    requires FiveSecondsApart(start, times)
    requires now - (if times == [] then start else times[|times| - 1]) >= 5_000
    ensures FiveSecondsApart(start, times + [now])
  {
    assert (times + [now])[..|times|] == times;
  }

  datatype Decoding = Decoded | SaveFailed | DecoderPanicked

  /** The decoding loop with the persisting callback and its heartbeats. */
  method PersistItems(s: Session, msg: Message?, version: nat, cut: nat, start: int)
    returns (result: Decoding, ghost saves: seq<Op>, ghost beats: seq<Call>, ghost times: seq<int>)
    requires s.At(Saving(version, 0))
    modifies s, if msg == null then {} else {msg}
    ensures s.ops == old(s.ops) + saves + if result.DecoderPanicked? then [BadItem] else []
    ensures var total := |s.c.listing(version)|;
            var most := if cut < total then cut else total;
            match result
            case Decoded => AllSaved(saves) && |saves| == most && s.At(Saving(version, most))
            case SaveFailed => SavedUntil(saves) && |saves| <= most && s.At(Failed)
            case DecoderPanicked => AllSaved(saves) && |saves| < most && s.At(Failed)
    ensures Beats(beats) && |beats| == |times| && FiveSecondsApart(start, times)
    ensures msg != null ==> msg.calls == old(msg.calls) + beats
  {
    hide Walk, Fits, FiveSecondsApart, AllSaved, SavedUntil, Beats;
    NothingYet();
    saves, beats, times := [], [], [];
    var total := |s.c.listing(version)|;
    var panicsAt: int := *;
    var i := 0;
    var lastProgress := start;
    assert FiveSecondsApart(start, []) by {
      NoTimes(start);
    }
    while i < total && i < cut
      invariant 0 <= i <= total && i <= cut && s.At(Saving(version, i))
      invariant i == |saves| && AllSaved(saves) && s.ops == old(s.ops) + saves
      invariant Beats(beats) && |beats| == |times| && FiveSecondsApart(start, times)
      invariant msg != null ==> msg.calls == old(msg.calls) + beats
      invariant lastProgress == if times == [] then start else times[|times| - 1]
    {
      if i == panicsAt {
        PhaseAllowsBadItem(s.c, version, i);
        s.Record(BadItem, Saving(version, i));
        result := DecoderPanicked;
        return;
      }
      var saved;
      ghost var effect;
      saved, effect := s.SaveItem(version, i);
      saves := saves + [SaveItem(effect, saved)];
      OneMoreSave(saves[..i], SaveItem(effect, saved));
      assert saves == saves[..i] + [SaveItem(effect, saved)];
      if !saved {
        result := SaveFailed;
        return;
      }
      i := i + 1;
      var now: int := *;
      if msg != null && now - lastProgress >= HEARTBEAT {
        var ok := msg.Do(InProgress);
        OneMoreBeat(beats, ok);
        beats := beats + [Call(InProgress, ok)];
        FiveSecondsOn(start, times, now);
        times := times + [now];
        lastProgress := now;
      }
    }
    result := Decoded;
  }

  lemma OneMoreSave(saves: seq<Op>, op: Op)
    requires AllSaved(saves) && op.SaveItem?
    ensures if op.ok then AllSaved(saves + [op]) else SavedUntil(saves + [op])
  {
    assert (saves + [op])[..|saves|] == saves;
  }

  lemma OneMoreBeat(beats: seq<Call>, ok: bool)
    requires Beats(beats)
    ensures Beats(beats + [Call(InProgress, ok)])
  {
  }

  lemma NoTimes(start: int)
    ensures FiveSecondsApart(start, [])
  {
  }

  lemma PhaseAllowsBadItem(c: Config, version: nat, saved: nat)
    ensures Fits(c, Saving(version, saved), BadItem)
  {
  }

  /** What decides how the decoding of a 200 ends: the body and the saves. */
  ghost predicate Decodes(c: Config, body: Body, saves: seq<Op>, err: StreamError) {
    match err
    case NoError => Whole(c, body) && AllSaved(saves) && |saves| == |c.listing(body.version)|
    case OtherError => SavedUntil(saves) || (AllSaved(saves) && !Whole(c, body))
    case Panicked => AllSaved(saves) && |saves| < |c.listing(body.version)|
    case RateLimit(_, _) => false
  }

  /** What a 200 leads to: the array opens, its items are persisted, and it closes. */
  method DecodeBody(s: Session, msg: Message?, body: Body, start: int)
    returns (err: StreamError, ghost did: Stream)
    requires s.At(Saving(body.version, 0))
    modifies s, if msg == null then {} else {msg}
    ensures s.At(if err == NoError then Saving(body.version, |s.c.listing(body.version)|) else Failed)
    ensures Decodes(s.c, body, did.saves, err)
    ensures s.ops == old(s.ops) + did.ops && (did.ops == did.saves || did.ops == did.saves + [BadItem])
    ensures Beats(did.beats) && |did.beats| == |did.times| && FiveSecondsApart(start, did.times)
    ensures msg != null ==> msg.calls == old(msg.calls) + did.beats
  {
    hide Walk, AllSaved, SavedUntil, FiveSecondsApart, Beats;
    NoTimes(start);
    NothingYet();
    did := Stream([], [], [], [], []);
    assert msg != null ==> msg.calls == old(msg.calls) + [];
    if !body.opens {
      s.Record(BadItem, Saving(body.version, 0));
      did := did.(ops := [BadItem]);
      return OtherError, did;
    }
    var result;
    ghost var saves, beats, times;
    result, saves, beats, times := PersistItems(s, msg, body.version, body.cut, start);
    did := Stream([], saves, saves, beats, times);
    if result.DecoderPanicked? {
      did := did.(ops := saves + [BadItem]);
      return Panicked, did;
    }
    if result.SaveFailed? {
      return OtherError, did;
    }
    if body.cut < |s.c.listing(body.version)| || !body.closes {
      s.Record(BadItem, Saving(body.version, |saves|));
      did := did.(ops := saves + [BadItem]);
      return OtherError, did;
    }
    err := NoError;
  }

  /** What decides the result of a stream: the last attempt, the body and the saves. */
  ghost predicate Decided(
    c: Config, tag: Option<nat>, did: Stream, version: nat, notModified: bool, err: StreamError)
  {
    && 1 <= |did.tries| <= 4 && (forall i :: 0 <= i < |did.tries| - 1 ==> did.tries[i].Transport?)
    && match did.tries[|did.tries| - 1]
       case Transport => err == OtherError && |did.tries| == 4
       case Nil => err == OtherError
       case RateLimited(retryable, wait) => err == RateLimit(retryable, wait)
       case Response(status, body) =>
         if status == 304 then err == NoError && notModified && version == body.version && tag == Some(version)
         else if status != 200 then err == OtherError
         else Decodes(c, body, did.saves, err) && !notModified && version == body.version
  }

  /** The server's last answer was a complete 200 and every item of it was saved. */
  ghost predicate Streamed(c: Config, did: Stream) {
    && did.tries != []
    && var a := did.tries[|did.tries| - 1];
    && a.Response? && a.status == 200 && Whole(c, a.body)
    && AllSaved(did.saves) && |did.saves| == |c.listing(a.body.version)|
  }

  ghost predicate Unmodified(did: Stream) {
    did.tries != [] && var a := did.tries[|did.tries| - 1]; a.Response? && a.status == 304
  }

  lemma WhatDecides(c: Config, tag: Option<nat>, did: Stream, version: nat, notModified: bool, err: StreamError)
    requires Decided(c, tag, did, version, notModified, err)
    ensures 1 <= |did.tries| <= 4
    ensures err == NoError <==> Streamed(c, did) || Unmodified(did)
    ensures err == NoError ==> (notModified <==> Unmodified(did)) && (notModified <==> !Streamed(c, did))
    ensures forall r, w :: err == RateLimit(r, w) <==> did.tries[|did.tries| - 1] == RateLimited(r, w)
    ensures err == Panicked ==> var a := did.tries[|did.tries| - 1]; a.Response? && a.status == 200
  {
    SavedUntilIsNotAll(did.saves);
    hide AllSaved, SavedUntil, Whole;
  }

  /** StreamIndustrySystems with the persisting callback, told by what it did.  It succeeds for a 304,
      and for a complete 200 of which every item was saved; it hands a rate-limit error on; and
      everything else is an error, or a panic at some item.  It leaves the run in the phase that its
      result reports, and sends nothing to the message but heartbeats. */
  method StreamItems(s: Session, msg: Message?, tag: Option<nat>, start: int)
    returns (version: nat, notModified: bool, err: StreamError, ghost did: Stream)
    requires s.At(Asking(tag))
    modifies s, if msg == null then {} else {msg}
    ensures err != NoError ==> s.At(Failed)
    ensures err == NoError ==> s.At(if notModified then Unchanged(version)
                                    else Saving(version, |s.c.listing(version)|))
    ensures Decided(s.c, tag, did, version, notModified, err)
    ensures s.ops == old(s.ops) + did.ops
    ensures var a := did.tries[|did.tries| - 1];
            if a.Response? && a.status == 200
            then
              || did.ops == [Answer(Full(a.body.version))] + did.saves
              || did.ops == [Answer(Full(a.body.version))] + did.saves + [BadItem]
            else did.saves == [] && |did.ops| == 1 && did.ops[0].Answer?
    ensures Beats(did.beats) && |did.beats| == |did.times| && FiveSecondsApart(start, did.times)
    ensures msg != null ==> msg.calls == old(msg.calls) + did.beats
  {
    hide Walk, Decodes, FiveSecondsApart, Beats;
    NoTimes(start);
    NothingYet();
    version, notModified, err := 0, false, OtherError;
    assert msg != null ==> msg.calls == old(msg.calls) + [];
    var a;
    ghost var tries;
    a, tries := Request(tag);
    did := Stream(tries, [], [], [], []);
    if a.Response? && a.status == 304 {
      s.Record(Answer(NotModified(a.body.version)), Asking(tag));
      did := did.(ops := [Answer(NotModified(a.body.version))]);
      version, notModified, err := a.body.version, true, NoError;
      return;
    }
    if !a.Response? || a.status != 200 {
      s.Record(Answer(NoReply), Asking(tag));
      did := did.(ops := [Answer(NoReply)]);
      err := if a.RateLimited? then RateLimit(a.retryable, a.wait) else OtherError;
      return;
    }
    version := a.body.version;
    s.Record(Answer(Full(version)), Asking(tag));
    ghost var decoded;
    err, decoded := DecodeBody(s, msg, a.body, start);
    did := decoded.(tries := tries, ops := [Answer(Full(version))] + decoded.ops);
  }

  // ---- The whole run -----------------------------------------------------------------------

  predicate Disposes(verb: Verb) {
    !verb.InProgress?
  }

  /** Heartbeats, then one disposition; or a NakWithDelay that failed and one more disposition. */
  ghost predicate DisposedOnce(calls: seq<Call>) {
    && calls != []
    && Disposes(calls[|calls| - 1].verb)
    && (Beats(calls[..|calls| - 1]) ||
        (|calls| >= 2 && calls[|calls| - 2].verb.NakWithDelay? && !calls[|calls| - 2].ok &&
         !calls[|calls| - 1].verb.Ack? && Beats(calls[..|calls| - 2])))
  }

  /** A run under the lock: its last operation is the release, and the message, if there is one, was
      acknowledged exactly if everything had been stored or the server had answered 304. */
  ghost predicate EndsWithRelease(c: Config, ops: seq<Op>, phase: Phase, effect: bool, msg: Message?)
    reads if msg == null then {} else {msg}
  {
    && ops != [] && ops[|ops| - 1] == Release(effect)
    && Walk(c, ops[..|ops| - 1]) == Some(phase)
    && (msg != null ==> msg.calls != [])
    && (msg != null ==> (msg.calls[|msg.calls| - 1].verb.Ack? <==> phase.Stamped? || phase.Unchanged?))
  }

  lemma BeatsConcat(a: seq<Call>, b: seq<Call>)
    requires Beats(a) && Beats(b)
    ensures Beats(a + b)
  {
  }

  /** What one run under the lock did: what it read, the stream, the two saves after it, the heartbeats,
      and how it disposed of the message. */
  datatype Report = Report(tag: Option<nat>, did: Stream, marks: seq<Op>, beats: seq<Call>, tail: seq<Call>)

  ghost predicate Acked(tail: seq<Call>) {
    |tail| == 1 && tail[0].verb == Ack
  }

  ghost predicate GaveUp(tail: seq<Call>, numDelivered: nat) {
    |tail| == 1 && tail[0].verb == BackoffVerb(numDelivered)
  }

  /** NakWithDelay, and the usual refusal only if that call failed. */
  ghost predicate PutOff(tail: seq<Call>, wait: int, numDelivered: nat) {
    && tail != [] && tail[0].verb == NakWithDelay(wait)
    && if tail[0].ok then |tail| == 1 else GaveUp(tail[1..], numDelivered)
  }

  /** The ETag is saved, and if that succeeds the refresh time. */
  ghost predicate Marks(ops: seq<Op>) {
    && ops != [] && ops[0].SaveTag?
    && if ops[0].ok then |ops| == 2 && ops[1].SaveStamp? else |ops| == 1
  }

  /** It was a 304, or everything was streamed and then the ETag and the refresh time were saved. */
  ghost predicate Succeeded(c: Config, rep: Report) {
    Unmodified(rep.did) || (Streamed(c, rep.did) && |rep.marks| == 2 && rep.marks[1].SaveStamp? && rep.marks[1].ok)
  }

  /** How what the server, Redis and the message said decides what the run does. */
  ghost predicate Told(c: Config, rep: Report, panicked: bool, msg: Message?) {
    && 1 <= |rep.did.tries| <= 4
    && (if Streamed(c, rep.did) then Marks(rep.marks) else rep.marks == [])
    && var a := rep.did.tries[|rep.did.tries| - 1];
    && (panicked ==> a.Response? && a.status == 200 && !Streamed(c, rep.did) && rep.tail == [])
    && (msg != null && !panicked ==>
          if a.RateLimited? && a.retryable && a.wait > 0 then PutOff(rep.tail, a.wait, msg.numDelivered)
          else if Succeeded(c, rep) then Acked(rep.tail)
          else GaveUp(rep.tail, msg.numDelivered))
  }

  /** What the code does with the message, if there is one, after a failure and after a success. */
  method GiveUp(msg: Message?) returns (ghost tail: seq<Call>)
    modifies if msg == null then {} else {msg}
    ensures msg != null ==> msg.calls == old(msg.calls) + tail && GaveUp(tail, msg.numDelivered)
  {
    tail := [];
    if msg != null {
      var ok := NackWithBackoff(msg);
      tail := [Call(BackoffVerb(msg.numDelivered), ok)];
    }
  }

  method Acknowledge(msg: Message?) returns (ghost tail: seq<Call>)
    modifies if msg == null then {} else {msg}
    ensures msg != null ==> msg.calls == old(msg.calls) + tail && Acked(tail)
  {
    tail := [];
    if msg != null {
      var ok := msg.Do(Ack);
      tail := [Call(Ack, ok)];
    }
  }

  /** A rate-limit error that says when to retry: NakWithDelay, and GiveUp only if that call failed. */
  method RetryLater(msg: Message, wait: int) returns (ghost tail: seq<Call>)
    modifies msg
    ensures msg.calls == old(msg.calls) + tail && PutOff(tail, wait, msg.numDelivered)
  {
    var ok := msg.Do(NakWithDelay(wait));
    tail := [Call(NakWithDelay(wait), ok)];
    if !ok {
      var again := NackWithBackoff(msg);
      tail := tail + [Call(BackoffVerb(msg.numDelivered), again)];
      assert tail[1..] == [Call(BackoffVerb(msg.numDelivered), again)];
    }
  }

  /** The ETag, and if that is saved the refresh time. */
  method SaveMarks(s: Session, version: nat) returns (saved: bool, ghost marks: seq<Op>)
    requires s.At(Saving(version, |s.c.listing(version)|))
    modifies s
    ensures s.ops == old(s.ops) + marks && Marks(marks)
    ensures saved <==> |marks| == 2 && marks[1].ok
    ensures s.At(if saved then Stamped(version) else Failed)
  {
    hide Walk;
    ghost var effect;
    saved, effect := s.SaveETag(version);
    marks := [SaveTag(effect, saved)];
    if saved {
      saved, effect := s.SaveLastUpdated(version);
      marks := marks + [SaveStamp(effect, saved)];
    }
  }

  /** The part that runs under the lock, before the deferred release. */
  method RefreshUnderLock(s: Session, msg: Message?)
    returns (panicked: bool, ghost last: Phase, ghost rep: Report)
    requires s.At(Locked)
    modifies s, if msg == null then {} else {msg}
    ensures s.At(last) && (last.Failed? || last.Stamped? || last.Unchanged?)
    ensures s.ops == old(s.ops) + [ReadTag(rep.tag)] + rep.did.ops + rep.marks
    ensures Told(s.c, rep, panicked, msg)
    ensures last.Failed? <==> panicked || !Succeeded(s.c, rep)
    ensures msg != null ==>
              Beats(rep.beats) && rep.beats != [] && msg.calls == old(msg.calls) + rep.beats + rep.tail
  {
    hide Walk, Fits, Advance, Decided, Streamed, Unmodified, FiveSecondsApart, GaveUp, Acked, PutOff;
    var prevETag := s.GetETag();
    ghost var first := s.ops;
    ghost var beats := [];
    if msg != null {
      var ok := msg.Do(InProgress);
      beats := [Call(InProgress, ok)];
    }
    var start: int := *;
    panicked := false;
    var version, notModified, err;
    ghost var did;
    version, notModified, err, did := StreamItems(s, msg, prevETag, start);
    BeatsConcat(beats, did.beats);
    hide Beats;
    rep := Report(prevETag, did, [], beats + did.beats, []);
    assert msg != null ==> msg.calls == old(msg.calls) + rep.beats;
    assert s.ops == first + did.ops + [];
    WhatDecides(s.c, prevETag, did, version, notModified, err);
    ghost var tail;
    if err != NoError {
      last := Failed;
      if err.Panicked? {
        panicked := true;
        return;
      }
      if err.RateLimit? && err.retryable && msg != null && err.wait > 0 {
        tail := RetryLater(msg, err.wait);
      } else {
        tail := GiveUp(msg);
      }
      rep := rep.(tail := tail);
      return;
    }
    if notModified {
      last := Unchanged(version);
      tail := Acknowledge(msg);
      rep := rep.(tail := tail);
      return;
    }
    var saved;
    ghost var marks;
    saved, marks := SaveMarks(s, version);
    if saved {
      last := Stamped(version);
      tail := Acknowledge(msg);
    } else {
      last := Failed;
      tail := GiveUp(msg);
    }
    rep := rep.(marks := marks, tail := tail);
  }

  /** What a run tells the message is one disposition, or a NakWithDelay that failed and one more. */
  lemma ToldDisposesOnce(c: Config, rep: Report, msg: Message, calls: seq<Call>, beats: seq<Call>)
    requires Told(c, rep, false, msg) && Beats(beats) && calls == beats + rep.tail
    ensures DisposedOnce(calls)
    ensures calls[|calls| - 1].verb != Nak
    ensures calls[|calls| - 1].verb.Ack? <==> Succeeded(c, rep)
  {
    hide Whole, AllSaved, Backoff;
    if |rep.tail| == 2 {
      assert calls[..|calls| - 2] == beats;
    } else {
      assert calls[..|calls| - 1] == beats;
    }
  }

  /** RefreshSystemIndexes: without the lock it acknowledges and touches nothing; with it, it works,
      disposes of the message as its report tells, and releases last, even if it panics, which leaves
      the message to the caller.  Its operations are always in an order that the protocol allows. */
  method RefreshSystemIndexes(s: Session, msg: Message?) returns (panicked: bool, ghost rep: Report)
    requires s.At(Begun) && s.ops == [] && (msg != null ==> Beats(msg.calls))
    modifies s, if msg == null then {} else {msg}
    ensures s.At(Over) && s.ops != []
    ensures if s.ops[0] == TryLock(Took)
            then
              && Told(s.c, rep, panicked, msg)
              && (exists effect :: s.ops == [TryLock(Took), ReadTag(rep.tag)] + rep.did.ops + rep.marks + [Release(effect)])
              && (exists phase, effect :: EndsWithRelease(s.c, s.ops, phase, effect, msg))
              && (msg != null ==> Beats(rep.beats) && msg.calls == old(msg.calls) + rep.beats + rep.tail)
            else |s.ops| == 1 && (msg != null ==> exists ok :: msg.calls == old(msg.calls) + [Call(Ack, ok)])
    ensures msg != null ==> if panicked then Beats(msg.calls)
                            else DisposedOnce(msg.calls) && msg.calls[|msg.calls| - 1].verb != Nak
    ensures panicked ==> s.ops[0] == TryLock(Took)
  {
    hide Walk, Fits, Advance, Streamed, Unmodified, Marks;
    panicked := false;
    rep := Report(None, Stream([], [], [], [], []), [], [], []);
    var acquired, err := s.AcquireRefreshLock();
    if err {
      if msg != null {
        var acked := msg.Do(Ack);
        assert msg.calls == old(msg.calls) + [Call(Ack, acked)];
      }
      return;
    }
    if !acquired {
      if msg != null {
        var acked := msg.Do(Ack);
        assert msg.calls == old(msg.calls) + [Call(Ack, acked)];
      }
      return;
    }
    ghost var phase;
    panicked, phase, rep := RefreshUnderLock(s, msg);
    WalkTookLock(s.c, s.ops);
    ghost var before := s.ops;
    ghost var effect := s.DeleteLock(phase);
    assert s.ops[..|s.ops| - 1] == before;
    assert before == [TryLock(Took), ReadTag(rep.tag)] + rep.did.ops + rep.marks;
    if msg != null {
      BeatsConcat(old(msg.calls), rep.beats);
      if !panicked {
        ToldDisposesOnce(s.c, rep, msg, msg.calls, old(msg.calls) + rep.beats);
      }
    }
    assert EndsWithRelease(s.c, s.ops, phase, effect, msg);
  }

  /** One message of SubscribeToSubject: a heartbeat, then the run, or a Nak when the pool does not
      take the task or the task panics. */
  method Deliver(s: Session, msg: Message) returns (submitted: bool, panicked: bool, ghost rep: Report)
    requires s.At(Begun) && s.ops == [] && msg.calls == []
    modifies s, msg
    ensures DisposedOnce(msg.calls)
    ensures msg.calls[|msg.calls| - 1].verb == Nak <==> !submitted || panicked
    ensures submitted <==> s.ops != []
    ensures !submitted ==> |msg.calls| == 2
    ensures panicked ==> s.ops != [] && exists effect :: s.ops[|s.ops| - 1] == Release(effect)
    ensures s.ops != [] && s.ops[0] == TryLock(Took) ==>
              && Told(s.c, rep, panicked, msg)
              && (msg.calls[|msg.calls| - 1].verb == Ack <==> !panicked && Succeeded(s.c, rep))
    ensures s.ops != [] && s.ops[0] != TryLock(Took) ==> msg.calls[|msg.calls| - 1].verb == Ack
  {
    hide Told, Succeeded;
    panicked := false;
    rep := Report(None, Stream([], [], [], [], []), [], [], []);
    var _ := msg.Do(InProgress);
    submitted := *;
    if !submitted {
      var _ := msg.Do(Nak);
      return;
    }
    panicked, rep := RefreshSystemIndexes(s, msg);
    if panicked {
      var ok := msg.Do(Nak);
      assert msg.calls[..|msg.calls| - 1] + [Call(Nak, ok)] == msg.calls;
    } else if s.ops[0] == TryLock(Took) {
      ghost var first := msg.calls[..1];
      BeatsConcat(first, rep.beats);
      ToldDisposesOnce(s.c, rep, msg, msg.calls, first + rep.beats);
    }
  }

  // ---- The run inside the system -----------------------------------------------------------

  ghost function OpsOf(acts: seq<Act>, p: nat): seq<Op> {
    if acts == [] then []
    else (if acts[0].Do? && acts[0].p == p then [acts[0].op] else []) + OpsOf(acts[1..], p)
  }

  /** Whether refresher p, if it exists, is in the phase these operations lead to. */
  ghost predicate InPhase(c: Config, w: World, p: nat, ops: seq<Op>) {
    if p in w.refreshers then Walk(c, ops) == Some(w.refreshers[p].phase) else ops == []
  }

  lemma NextFollowsOps(c: Config, w: World, a: Act, p: nat, ops: seq<Op>)
    requires Enabled(c, w, a) && a != Crash(p) && InPhase(c, w, p, ops)
    ensures InPhase(c, Next(c, w, a), p, ops + OpsOf([a], p))
  {
    assert [a][1..] == [] && ops + [] == ops;
    if a.Do? && a.p == p {
      WalkOn(c, ops, a.op);
    }
    hide Advance, Effect;
  }

  /** In the system, a refresher that has not crashed is in the phase its operations lead to. */
  lemma {:induction false} PhaseFollowsOps(c: Config, w: World, acts: seq<Act>, p: nat, before: seq<Op>)
    requires Runs(c, w, acts) && (forall i :: 0 <= i < |acts| ==> acts[i] != Crash(p))
    requires InPhase(c, w, p, before)
    ensures InPhase(c, End(c, w, acts), p, before + OpsOf(acts, p))
    decreases |acts|
  {
    OpsOfFirst(acts, p, before);
    hide OpsOf, InPhase, Next, Enabled;
    if acts != [] {
      NextFollowsOps(c, w, acts[0], p, before);
      PhaseFollowsOps(c, Next(c, w, acts[0]), acts[1..], p, before + OpsOf(acts[..1], p));
    }
  }

  lemma OpsOfFirst(acts: seq<Act>, p: nat, before: seq<Op>)
    ensures acts == [] ==> before + OpsOf(acts, p) == before
    ensures acts != [] ==>
              acts[..1] == [acts[0]] &&
              before + OpsOf(acts, p) == (before + OpsOf(acts[..1], p)) + OpsOf(acts[1..], p)
  {
    if acts != [] {
      assert acts[..1][1..] == [];
    }
  }

  /** What an acknowledged run has left in the store: all items of its version, at that version or a
      later one; the ETag, of that version or a later one, unless the response carried none; and, if
      it was no 304, a refresh time since the start of the run. */
  ghost predicate RunIsStored(c: Config, w: World, phase: Phase, since: int) {
    && (phase.Stamped? || phase.Unchanged?)
    && Covers(c, w.items, phase.version)
    && (phase.Unchanged? || c.tagged(phase.version) ==> TagAtLeast(w, Some(phase.version)))
    && (phase.Stamped? ==> StampedSince(w, since))
  }

  lemma StoredStays(c: Config, w: World, t: World, phase: Phase, since: int)
    requires RunIsStored(c, w, phase, since) && Monotone(w, t) && StampedLater(w, t)
    ensures RunIsStored(c, t, phase, since)
  {
    GrownKeeps(c, w.items, t.items, phase, phase.version);
    hide Covers, Grown;
  }

  lemma FinishedIsStored(c: Config, w: World, p: nat)
    requires Inv(c, w) && MarkInv(c, w) && p in w.refreshers
    requires w.refreshers[p].phase.Stamped? || w.refreshers[p].phase.Unchanged?
    ensures RunIsStored(c, w, w.refreshers[p].phase, w.refreshers[p].start)
  {
    assert Marked(c, w, w.refreshers[p]) && Durable(c, w.items, w.refreshers[p].phase);
    hide Covers, LockInv, Current;
  }

  lemma PhaseOf(c: Config, acts: seq<Act>, p: nat, ops: seq<Op>, phase: Phase)
    requires Runs(c, START, acts) && forall i :: 0 <= i < |acts| ==> acts[i] != Crash(p)
    requires OpsOf(acts, p) == ops && Walk(c, ops) == Some(phase) && ops != []
    ensures var w := End(c, START, acts);
            p in w.refreshers && w.refreshers[p].phase == phase
  {
    hide Runs, End, OpsOf, Walk;
    PhaseFollowsOps(c, START, acts, p, []);
    assert [] + OpsOf(acts, p) == OpsOf(acts, p);
  }

  lemma FinishedStaysStored(c: Config, acts: seq<Act>, more: seq<Act>, p: nat)
    requires c.deadline <= c.ttl
    requires Runs(c, START, acts) && Runs(c, End(c, START, acts), more)
    requires var w := End(c, START, acts);
             p in w.refreshers && (w.refreshers[p].phase.Stamped? || w.refreshers[p].phase.Unchanged?)
    ensures var w := End(c, START, acts);
            var r := w.refreshers[p];
            RunIsStored(c, w, r.phase, r.start) && RunIsStored(c, End(c, w, more), r.phase, r.start)
  {
    var w := End(c, START, acts);
    assert Inv(c, START) && MarkInv(c, START);
    hide Inv, MarkInv, RunIsStored, Monotone, StampedLater, Runs, End;
    RunKeepsInv(c, START, acts);
    RunKeepsMarks(c, START, acts);
    RunKeepsInv(c, w, more);
    RunKeepsMarks(c, w, more);
    FinishedIsStored(c, w, p);
    StoredStays(c, w, End(c, w, more), w.refreshers[p].phase, w.refreshers[p].start);
  }

  /** An Ack under the lock means what it should: wherever such a run takes place, everything it had
      to store is stored, and stays so, whatever other refreshers, crashes and errors there are. */
  lemma AckMeansStored(
    c: Config, acts: seq<Act>, more: seq<Act>, p: nat,
    ops: seq<Op>, phase: Phase, effect: bool, msg: Message)
    requires c.deadline <= c.ttl
    requires Runs(c, START, acts) && Runs(c, End(c, START, acts), more)
    requires forall i :: 0 <= i < |acts| ==> acts[i] != Crash(p)
    requires EndsWithRelease(c, ops, phase, effect, msg) && OpsOf(acts, p) == ops[..|ops| - 1]
    requires msg.calls != [] && msg.calls[|msg.calls| - 1].verb.Ack?
    ensures var w := End(c, START, acts);
            && p in w.refreshers
            && RunIsStored(c, w, phase, w.refreshers[p].start)
            && RunIsStored(c, End(c, w, more), phase, w.refreshers[p].start)
  {
    assert ops[..|ops| - 1] != [] && (phase.Stamped? || phase.Unchanged?);
    hide Walk, Runs, End, OpsOf, RunIsStored;
    PhaseOf(c, acts, p, ops[..|ops| - 1], phase);
    FinishedStaysStored(c, acts, more, p);
  }
}
