/**
 The service worker's two caching strategies as a state machine. A handler runs until its next `await`; the
 steps of overlapping handlers interleave freely with each other, with the clock, with evictions and with
 restarts of the worker.
 */
module ServiceWorker {
  import opened Text

  datatype CacheName = ShellCache | ApiCache | ImageCache

  /** `cachedAt` is the `X-Cached-At` header as a number, if there is one. */
  datatype Response = Response(body: string, ok: bool, cachedAt: Option<int>)

  const API_MAX_AGE := 5 * 60 * 1000
  const IMAGE_MAX_AGE := 7 * 24 * 60 * 60 * 1000

  predicate CacheIsFresh(response: Response, maxAge: int, now: int) {
    response.cachedAt.Some? && now - response.cachedAt.value < maxAge
  }

  function WithCacheTimestamp(response: Response, now: int): Response {
    response.(cachedAt := Some(now))
  }

  /** `networkFirstApi`, or `cacheFirst` on one of the two other caches. */
  datatype Strategy = NetworkFirst | CacheFirst(cache: CacheName)

  function CacheOf(strategy: Strategy): CacheName {
    if strategy.NetworkFirst? then ApiCache else strategy.cache
  }

  function MaxAge(strategy: Strategy): int {
    if strategy.NetworkFirst? then API_MAX_AGE else IMAGE_MAX_AGE
  }

  /** Where a handler is suspended. `cached` is what an earlier lookup found. */
  datatype Phase =
    | Opening
    | LookingUp
    | Deciding(cached: Option<Response>)
    | Fetching(cached: Option<Response>)
    | Storing(reply: Response, stamped: Response, cached: Option<Response>)
    | Returned(response: Response, at: int)
    | Threw

  datatype Handler = Handler(strategy: Strategy, request: string, phase: Phase)

  /** What happened outside the handlers' control. */
  datatype Event =
    | Replied(id: nat, request: string, reply: Response, at: int)
    | NetworkFailed(id: nat)
    | StoreFailed(id: nat)
    | CacheFailed(id: nat)
    | Installed(request: string, reply: Response)

  type Key = (CacheName, string)

  /** `used` holds the number of every handler ever started, so that no number is given twice, even after a restart. */
  datatype State = State(
    now: int, store: map<Key, Response>, handlers: map<nat, Handler>, used: set<nat>, log: seq<Event>)

  datatype Step =
    | Request(id: nat, strategy: Strategy, request: string)
    | Resume(id: nat)
    | NetworkReplies(id: nat, reply: Response)
    | NetworkFails(id: nat)
    | StoreFails(id: nat)
    | CacheFails(id: nat)
    | Install(request: string, reply: Response)
    | Evict(key: Key)
    | Tick(elapsed: nat)
    | Restart

  function Move(s: State, id: nat, phase: Phase): State
    requires id in s.handlers
  {
    s.(handlers := s.handlers[id := s.handlers[id].(phase := phase)])
  }

  /** The `catch` block, entered when the fetch or the write to the cache failed. */
  function Caught(s: State, id: nat, cached: Option<Response>): State
    requires id in s.handlers
  {
    if s.handlers[id].strategy.NetworkFirst? then Move(s, id, LookingUp)
    else if cached.Some? then Move(s, id, Returned(cached.value, s.now))
    else Move(s, id, Threw)
  }

  /** Opening the cache or looking into it happens outside the `try`, or in the `catch`: a failure there is thrown. */
  function CacheFailure(s: State, id: nat): State
    requires id in s.handlers
  {
    if s.handlers[id].phase.Opening? || s.handlers[id].phase.LookingUp?
    then Move(s.(log := s.log + [CacheFailed(id)]), id, Threw)
    else s
  }

  /** A handler continues on its own: after opening the cache, a lookup, or a completed write. */
  function ResumeHandler(s: State, id: nat): State
    requires id in s.handlers
  {
    var h := s.handlers[id];
    var key := (CacheOf(h.strategy), h.request);
    match h.phase
    case Opening => Move(s, id, if h.strategy.NetworkFirst? then Fetching(None) else LookingUp)
    case LookingUp => Move(s, id, Deciding(if key in s.store then Some(s.store[key]) else None))
    case Deciding(cached) =>
      if cached.Some? && CacheIsFresh(cached.value, MaxAge(h.strategy), s.now)
      then Move(s, id, Returned(cached.value, s.now))
      else Move(s, id, if h.strategy.NetworkFirst? then Threw else Fetching(cached))
    case Storing(reply, stamped, _) => Move(s, id, Returned(reply, s.now)).(store := s.store[key := stamped])
    case _ => s
  }

  /** One step; a step that does not fit the state changes nothing. */
  function Next(s: State, step: Step): State {
    match step
    case Request(id, strategy, request) =>
      if id in s.used || strategy == CacheFirst(ApiCache) then s
      else s.(handlers := s.handlers[id := Handler(strategy, request, Opening)], used := s.used + {id})
    case Resume(id) => if id in s.handlers then ResumeHandler(s, id) else s
    case NetworkReplies(id, reply) =>
      if id in s.handlers && s.handlers[id].phase.Fetching? then
        var h := s.handlers[id];
        var s' := s.(log := s.log + [Replied(id, h.request, reply, s.now)]);
        if reply.ok then Move(s', id, Storing(reply, WithCacheTimestamp(reply, s.now), h.phase.cached))
        else Move(s', id, Returned(reply, s.now))
      else s
    case NetworkFails(id) =>
      if id in s.handlers && s.handlers[id].phase.Fetching?
      then Caught(s.(log := s.log + [NetworkFailed(id)]), id, s.handlers[id].phase.cached)
      else s
    case StoreFails(id) =>
      if id in s.handlers && s.handlers[id].phase.Storing?
      then Caught(s.(log := s.log + [StoreFailed(id)]), id, s.handlers[id].phase.cached)
      else s
    case CacheFails(id) => if id in s.handlers then CacheFailure(s, id) else s
    case Install(request, reply) =>
      if reply.ok then s.(store := s.store[(ShellCache, request) := reply], log := s.log + [Installed(request, reply)])
      else s
    case Evict(key) => s.(store := s.store - {key})
    case Tick(elapsed) => s.(now := s.now + elapsed)
    case Restart => s.(handlers := map[])
  }

  function Run(s: State, steps: seq<Step>): State
    decreases |steps|
  {
    if steps == [] then s else Run(Next(s, steps[0]), steps[1..])
  }

  predicate Initial(s: State) {
    s.store == map[] && s.handlers == map[] && s.used == {} && s.log == []
  }

  // ----- Where responses come from -----

  /** The network's own reply to this handler's request. */
  ghost predicate IsReply(log: seq<Event>, id: nat, request: string, r: Response) {
    exists at :: Replied(id, request, r, at) in log
  }

  /** An ok reply to the same request, stamped with the time it arrived. */
  ghost predicate IsStampedCopy(log: seq<Event>, now: int, request: string, r: Response) {
    exists id, reply, at :: Replied(id, request, reply, at) in log && reply.ok && at <= now
      && r == WithCacheTimestamp(reply, at)
  }

  ghost predicate IsGenuine(log: seq<Event>, now: int, cache: CacheName, request: string, r: Response) {
    || IsStampedCopy(log, now, request, r)
    || (cache == ShellCache && r.ok && Installed(request, r) in log)
  }

  ghost predicate IsGenuineIfAny(s: State, h: Handler, cached: Option<Response>) {
    cached.Some? ==> IsGenuine(s.log, s.now, CacheOf(h.strategy), h.request, cached.value)
  }

  predicate Failed(log: seq<Event>, id: nat) {
    NetworkFailed(id) in log || StoreFailed(id) in log
  }

  /** The fetch failed or the write did, but not both. */
  predicate FailedOnce(log: seq<Event>, id: nat) {
    NetworkFailed(id) in log <==> StoreFailed(id) !in log
  }

  /** The handler an event is about. */
  function Subject(e: Event): Option<nat> {
    match e
    case Replied(id, _, _, _) => Some(id)
    case NetworkFailed(id) => Some(id)
    case StoreFailed(id) => Some(id)
    case CacheFailed(id) => Some(id)
    case Installed(_, _) => None
  }

  /** The handler has neither heard from the network nor failed. */
  ghost predicate Quiet(log: seq<Event>, id: nat) {
    forall e <- log :: Subject(e) != Some(id)
  }

  /** The copy a `cacheFirst` handler falls back to is an expired one. */
  predicate IsFallback(s: State, h: Handler, cached: Option<Response>) {
    cached.Some? ==> h.strategy.CacheFirst? && !CacheIsFresh(cached.value, IMAGE_MAX_AGE, s.now)
  }

  /** What a handler may answer with. */
  ghost predicate GoodAnswer(log: seq<Event>, id: nat, h: Handler, r: Response, at: int) {
    || (IsReply(log, id, h.request, r) && !Failed(log, id))
    || (&& IsGenuine(log, at, CacheOf(h.strategy), h.request, r)
        && if h.strategy.NetworkFirst? then FailedOnce(log, id) && CacheIsFresh(r, API_MAX_AGE, at)
           else if CacheIsFresh(r, IMAGE_MAX_AGE, at) then Quiet(log, id)
           else FailedOnce(log, id))
  }

  /** What a handler that looks into the cache knows: `networkFirstApi` does so only after a failure. */
  ghost predicate LooksRightly(log: seq<Event>, id: nat, h: Handler) {
    if h.strategy.NetworkFirst? then FailedOnce(log, id) else Quiet(log, id)
  }

  /** What can make a handler throw: a failed access to the cache, or a failed fetch or write, but not both of these. */
  predicate HasReason(log: seq<Event>, id: nat, h: Handler) {
    && !(NetworkFailed(id) in log && StoreFailed(id) in log)
    && (Failed(log, id) || CacheFailed(id) in log)
    && (h.strategy.CacheFirst? ==> !(Failed(log, id) && CacheFailed(id) in log))
  }

  ghost predicate HandlerOk(s: State, id: nat, h: Handler) {
    && h.strategy != CacheFirst(ApiCache)
    && (CacheFailed(id) in s.log ==> h.phase.Threw?)
    && match h.phase
       case Opening => Quiet(s.log, id)
       case LookingUp => LooksRightly(s.log, id, h)
       case Deciding(cached) => IsGenuineIfAny(s, h, cached) && LooksRightly(s.log, id, h)
       case Fetching(cached) => IsGenuineIfAny(s, h, cached) && IsFallback(s, h, cached) && Quiet(s.log, id)
       case Storing(reply, stamped, cached) =>
         && IsGenuineIfAny(s, h, cached) && IsFallback(s, h, cached)
         && IsReply(s.log, id, h.request, reply) && !Failed(s.log, id)
         && IsStampedCopy(s.log, s.now, h.request, stamped)
       case Returned(r, at) => at <= s.now && GoodAnswer(s.log, id, h, r, at)
       case Threw => HasReason(s.log, id, h)
  }

  ghost predicate NumbersOk(s: State) {
    && (forall id <- s.handlers :: id in s.used)
    && (forall e <- s.log :: Subject(e).Some? ==> Subject(e).value in s.used)
  }

  ghost predicate Inv(s: State) {
    && NumbersOk(s)
    && (forall key <- s.store :: IsGenuine(s.log, s.now, key.0, key.1, s.store[key]))
    && (forall id <- s.handlers :: HandlerOk(s, id, s.handlers[id]))
  }

  // ----- Preservation -----

  /** More history and a later clock take nothing away. */
  ghost predicate Later(s: State, s': State) {
    s.now <= s'.now && forall e <- s.log :: e in s'.log
  }

  lemma {:induction false} GenuineLasts(s: State, s': State, cache: CacheName, request: string, r: Response)
    requires Later(s, s') && IsGenuine(s.log, s.now, cache, request, r)
    ensures IsGenuine(s'.log, s'.now, cache, request, r)
  {
    if IsStampedCopy(s.log, s.now, request, r) {
      StampedCopyLasts(s, s', request, r);
    }
  }

  lemma {:induction false} StampedCopyLasts(s: State, s': State, request: string, r: Response)
    requires Later(s, s') && IsStampedCopy(s.log, s.now, request, r)
    ensures IsStampedCopy(s'.log, s'.now, request, r)
  {
    var id, reply, at :| Replied(id, request, reply, at) in s.log && reply.ok && at <= s.now
      && r == WithCacheTimestamp(reply, at);
    assert Replied(id, request, reply, at) in s'.log;
  }

  /** Nothing more has happened to the handler. */
  ghost predicate NothingNew(s: State, s': State, id: nat) {
    forall e <- s'.log :: Subject(e) == Some(id) ==> e in s.log
  }

  lemma {:induction false} HistoryLasts(s: State, s': State, id: nat)
    requires Later(s, s') && NothingNew(s, s', id)
    ensures NetworkFailed(id) in s'.log <==> NetworkFailed(id) in s.log
    ensures StoreFailed(id) in s'.log <==> StoreFailed(id) in s.log
    ensures CacheFailed(id) in s'.log <==> CacheFailed(id) in s.log
    ensures Quiet(s.log, id) ==> Quiet(s'.log, id)
  {
    assert Subject(NetworkFailed(id)) == Some(id) == Subject(StoreFailed(id)) == Subject(CacheFailed(id));
  }

  lemma {:induction false} ReplyLasts(s: State, s': State, id: nat, request: string, r: Response)
    requires Later(s, s') && IsReply(s.log, id, request, r)
    ensures IsReply(s'.log, id, request, r)
  {
    var t :| Replied(id, request, r, t) in s.log;
    assert Replied(id, request, r, t) in s'.log;
  }

  lemma {:induction false} AnswerLasts(s: State, s': State, id: nat, h: Handler, r: Response, at: int)
    requires Later(s, s') && NothingNew(s, s', id) && GoodAnswer(s.log, id, h, r, at)
    ensures GoodAnswer(s'.log, id, h, r, at)
  {
    hide IsReply, IsGenuine, Quiet, CacheIsFresh;
    HistoryLasts(s, s', id);
    if IsReply(s.log, id, h.request, r) && !Failed(s.log, id) {
      ReplyLasts(s, s', id, h.request, r);
    } else {
      GenuineLasts(s.(now := at), s'.(now := at), CacheOf(h.strategy), h.request, r);
    }
  }

  lemma {:induction false} HandlerLasts(s: State, s': State, id: nat, h: Handler)
    requires Later(s, s') && NothingNew(s, s', id) && HandlerOk(s, id, h)
    ensures HandlerOk(s', id, h)
  {
    hide IsReply, IsGenuine, Quiet, IsStampedCopy, GoodAnswer, NothingNew;
    HistoryLasts(s, s', id);
    var cached := match h.phase
      case Deciding(c) => c
      case Fetching(c) => c
      case Storing(_, _, c) => c
      case _ => None;
    if cached.Some? {
      GenuineLasts(s, s', CacheOf(h.strategy), h.request, cached.value);
    }
    match h.phase
    case Storing(reply, stamped, _) =>
      StampedCopyLasts(s, s', h.request, stamped);
      ReplyLasts(s, s', id, h.request, reply);
    case Returned(r, at) =>
      AnswerLasts(s, s', id, h, r, at);
    case _ =>
  }

  /** A step that adds to history and moves at most one handler keeps the invariant if that handler is in order. */
  lemma {:induction false} InvLasts(s: State, s': State)
    requires Inv(s) && Later(s, s') && NumbersOk(s')
    requires forall id <- s'.handlers ::
      || (id in s.handlers && s'.handlers[id] == s.handlers[id] && NothingNew(s, s', id))
      || HandlerOk(s', id, s'.handlers[id])
    requires forall key <- s'.store ::
      (key in s.store && s'.store[key] == s.store[key]) || IsGenuine(s'.log, s'.now, key.0, key.1, s'.store[key])
    ensures Inv(s')
  {
    hide HandlerOk, IsGenuine, Later, NothingNew, NumbersOk;
    forall id <- s'.handlers ensures HandlerOk(s', id, s'.handlers[id]) {
      if id in s.handlers && s'.handlers[id] == s.handlers[id] && NothingNew(s, s', id) {
        HandlerLasts(s, s', id, s.handlers[id]);
      }
    }
    forall key <- s'.store ensures IsGenuine(s'.log, s'.now, key.0, key.1, s'.store[key]) {
      if key in s.store && s'.store[key] == s.store[key] {
        GenuineLasts(s, s', key.0, key.1, s.store[key]);
      }
    }
  }

  /** An event about one handler is nothing new to the others. */
  lemma {:induction false} OneEvent(s: State, s': State, id: nat, e: Event)
    requires NumbersOk(s) && id in s.used && s'.now == s.now && s'.log == s.log + [e] && Subject(e) == Some(id)
    requires s'.used == s.used && forall other <- s'.handlers :: other in s.handlers
    ensures Later(s, s') && NumbersOk(s') && e in s'.log
    ensures forall other: nat :: other != id ==> NothingNew(s, s', other)
    ensures forall f: Event :: Subject(f) == Some(id) ==> (f in s'.log <==> f in s.log || f == e)
  {
  }

  lemma {:induction false} CaughtIsOk(s: State, id: nat, failure: Event)
    requires Inv(s) && id in s.handlers
    requires (s.handlers[id].phase.Fetching? && failure == NetworkFailed(id))
          || (s.handlers[id].phase.Storing? && failure == StoreFailed(id))
    ensures Inv(Caught(s.(log := s.log + [failure]), id, s.handlers[id].phase.cached))
  {
    hide IsStampedCopy, IsReply, NumbersOk, Later, NothingNew;
    var h := s.handlers[id];
    var s1 := s.(log := s.log + [failure]);
    var s' := Caught(s1, id, h.phase.cached);
    assert HandlerOk(s, id, h);
    assert id in s.used by { UsedNumber(s, id); }
    OneEvent(s, s', id, failure);
    assert FailedOnce(s'.log, id) && CacheFailed(id) !in s'.log by { FirstFailure(s, s', id, h, failure); }
    if h.phase.cached.Some? {
      GenuineLasts(s, s', CacheOf(h.strategy), h.request, h.phase.cached.value);
    }
    assert HandlerOk(s', id, s'.handlers[id]);
    InvLasts(s, s');
  }

  lemma NoCacheFailure(s: State, id: nat)
    requires id in s.handlers && !s.handlers[id].phase.Opening? && !s.handlers[id].phase.LookingUp?
    ensures CacheFailure(s, id) == s
  {
  }

  lemma UsedNumber(s: State, id: nat)
    requires NumbersOk(s) && id in s.handlers
    ensures id in s.used
  {
  }

  lemma {:induction false} FirstFailure(s: State, s': State, id: nat, h: Handler, failure: Event)
    requires HandlerOk(s, id, h) && (h.phase.Fetching? || h.phase.Storing?)
    requires failure == NetworkFailed(id) || failure == StoreFailed(id)
    requires forall f: Event :: Subject(f) == Some(id) ==> (f in s'.log <==> f in s.log || f == failure)
    ensures FailedOnce(s'.log, id) && CacheFailed(id) !in s'.log
  {
    assert Subject(NetworkFailed(id)) == Some(id) == Subject(StoreFailed(id)) == Subject(CacheFailed(id));
  }

  lemma {:induction false} CacheFailureIsOk(s: State, id: nat)
    requires Inv(s) && id in s.handlers && (s.handlers[id].phase.Opening? || s.handlers[id].phase.LookingUp?)
    ensures Inv(CacheFailure(s, id))
  {
    hide IsStampedCopy, IsReply, NumbersOk, Later, NothingNew;
    var h, s' := s.handlers[id], CacheFailure(s, id);
    assert HandlerOk(s, id, h);
    assert id in s.used by { UsedNumber(s, id); }
    OneEvent(s, s', id, CacheFailed(id));
    assert Subject(NetworkFailed(id)) == Some(id) == Subject(StoreFailed(id));
    assert HandlerOk(s', id, s'.handlers[id]);
    InvLasts(s, s');
  }

  lemma {:induction false} ResumeIsOk(s: State, id: nat)
    requires Inv(s) && id in s.handlers
    ensures Inv(ResumeHandler(s, id))
  {
    hide IsStampedCopy, IsReply, Quiet, CacheIsFresh;
    var h, s' := s.handlers[id], ResumeHandler(s, id);
    var key := (CacheOf(h.strategy), h.request);
    assert HandlerOk(s, id, h);
    if h.phase.LookingUp? && key in s.store {
      assert IsGenuine(s.log, s.now, key.0, key.1, s.store[key]);
    }
    assert HandlerOk(s', id, s'.handlers[id]);
    InvLasts(s, s');
  }

  lemma {:induction false} ReplyIsOk(s: State, id: nat, reply: Response)
    requires Inv(s) && id in s.handlers && s.handlers[id].phase.Fetching?
    ensures Inv(Next(s, NetworkReplies(id, reply)))
  {
    hide NumbersOk, Later, NothingNew;
    var h, s' := s.handlers[id], Next(s, NetworkReplies(id, reply));
    var e := Replied(id, h.request, reply, s.now);
    assert HandlerOk(s, id, h);
    assert id in s.used by { UsedNumber(s, id); }
    OneEvent(s, s', id, e);
    assert !Failed(s'.log, id) && CacheFailed(id) !in s'.log by {
      assert Subject(NetworkFailed(id)) == Some(id) == Subject(StoreFailed(id)) == Subject(CacheFailed(id));
    }
    if h.phase.cached.Some? {
      GenuineLasts(s, s', CacheOf(h.strategy), h.request, h.phase.cached.value);
    }
    assert HandlerOk(s', id, s'.handlers[id]);
    InvLasts(s, s');
  }

  lemma {:induction false} StepKeepsInv(s: State, step: Step)
    requires Inv(s)
    ensures Inv(Next(s, step))
  {
    hide ResumeHandler, Caught, CacheFailure;
    match step
    case Resume(id) =>
      if id in s.handlers {
        ResumeIsOk(s, id);
      }
    case NetworkReplies(id, reply) =>
      if id in s.handlers && s.handlers[id].phase.Fetching? {
        ReplyIsOk(s, id, reply);
      }
    case NetworkFails(id) =>
      if id in s.handlers && s.handlers[id].phase.Fetching? {
        CaughtIsOk(s, id, NetworkFailed(id));
      }
    case StoreFails(id) =>
      if id in s.handlers && s.handlers[id].phase.Storing? {
        CaughtIsOk(s, id, StoreFailed(id));
      }
    case CacheFails(id) =>
      if id in s.handlers {
        if s.handlers[id].phase.Opening? || s.handlers[id].phase.LookingUp? {
          CacheFailureIsOk(s, id);
        } else {
          NoCacheFailure(s, id);
        }
      }
    case Install(request, reply) =>
      var s' := Next(s, step);
      assert reply.ok ==> Installed(request, reply) in s'.log;
      InvLasts(s, s');
    case _ =>
      InvLasts(s, Next(s, step));
  }

  lemma {:induction false} RunKeepsInv(s: State, steps: seq<Step>)
    requires Inv(s)
    ensures Inv(Run(s, steps))
    decreases |steps|
  {
    if steps != [] {
      StepKeepsInv(s, steps[0]);
      RunKeepsInv(Next(s, steps[0]), steps[1..]);
    }
  }

  // ----- Main results, over every interleaving -----

  /** A handler that ran to its end. */
  predicate Answered(s: State, id: nat, strategy: Strategy, request: string, r: Response, at: int) {
    id in s.handlers && s.handlers[id] == Handler(strategy, request, Returned(r, at))
  }

  /**
   `networkFirstApi` answers with the network's reply to this very request, or else, only after the fetch or
   the write failed, with an ok reply to the same request that arrived less than five minutes ago.
   */
  lemma {:induction false} ApiAnswersAreFresh(
    start: State, steps: seq<Step>, id: nat, request: string, r: Response, at: int)
    requires Initial(start) && Answered(Run(start, steps), id, NetworkFirst, request, r, at)
    ensures var log := Run(start, steps).log;
      || IsReply(log, id, request, r)
      || (FailedOnce(log, id) && exists other, reply, t ::
           && Replied(other, request, reply, t) in log && reply.ok
           && t <= at < t + 5 * 60 * 1000 && r == WithCacheTimestamp(reply, t))
  {
    RunKeepsInv(start, steps);
    var s := Run(start, steps);
    assert HandlerOk(s, id, s.handlers[id]);
    if !IsReply(s.log, id, request, r) {
      assert IsStampedCopy(s.log, at, request, r);
      var other, reply, t :| Replied(other, request, reply, t) in s.log && reply.ok && t <= at
        && r == WithCacheTimestamp(reply, t);
      assert t <= at < t + API_MAX_AGE;
    }
  }

  /**
   `cacheFirst` answers with the network's reply, or with a copy of an ok reply to the same request (in the
   shell cache possibly an installed one); the copy is older than its limit only if the fetch or the write failed.
   */
  lemma {:induction false} AssetAnswersAreGenuine(
    start: State, steps: seq<Step>, id: nat, cache: CacheName, request: string, r: Response, at: int)
    requires Initial(start) && Answered(Run(start, steps), id, CacheFirst(cache), request, r, at)
    ensures var log := Run(start, steps).log;
      || IsReply(log, id, request, r)
      || (&& IsGenuine(log, at, cache, request, r) && r.ok
          && (CacheIsFresh(r, IMAGE_MAX_AGE, at) || NetworkFailed(id) in log || StoreFailed(id) in log))
  {
    RunKeepsInv(start, steps);
    var s := Run(start, steps);
    assert HandlerOk(s, id, s.handlers[id]);
  }

  /**
   Exactly when `cacheFirst` falls back: an answer that is not the network's reply to this request is expired
   if and only if the fetch or the write failed; and then the network failed if and only if the write did not.
   A handler that failed never answers with a fresh copy, and one that answers with a fresh copy asked nobody.
   */
  lemma {:induction false} ExpiredExactlyOnFailure(
    start: State, steps: seq<Step>, id: nat, cache: CacheName, request: string, r: Response, at: int)
    requires Initial(start) && Answered(Run(start, steps), id, CacheFirst(cache), request, r, at)
    ensures var log := Run(start, steps).log;
      && (Failed(log, id) ==> IsGenuine(log, at, cache, request, r) && !CacheIsFresh(r, IMAGE_MAX_AGE, at))
      && (!Failed(log, id) ==> IsReply(log, id, request, r) || (CacheIsFresh(r, IMAGE_MAX_AGE, at) && Quiet(log, id)))
      && (!IsReply(log, id, request, r) ==>
            && (!CacheIsFresh(r, IMAGE_MAX_AGE, at) <==> Failed(log, id))
            && (!CacheIsFresh(r, IMAGE_MAX_AGE, at) ==> (NetworkFailed(id) in log <==> StoreFailed(id) !in log)))
  {
    hide IsReply, IsGenuine, CacheIsFresh;
    RunKeepsInv(start, steps);
    var s := Run(start, steps);
    assert HandlerOk(s, id, s.handlers[id]);
    assert Subject(NetworkFailed(id)) == Some(id) == Subject(StoreFailed(id));
  }

  /**
   In every run, a `cacheFirst` handler whose write fails answers with the copy it holds, which is expired, although
   its network never failed; without a copy it fails.
   */
  lemma {:induction false} FailedWriteServesCopy(start: State, steps: seq<Step>, id: nat)
    requires var s := Run(start, steps);
      && Initial(start) && id in s.handlers && s.handlers[id].strategy.CacheFirst? && s.handlers[id].phase.Storing?
    ensures var s, s' := Run(start, steps), Run(start, steps + [StoreFails(id)]);
      && id in s'.handlers && NetworkFailed(id) !in s'.log && StoreFailed(id) in s'.log
      && match s.handlers[id].phase.cached
         case Some(copy) => s'.handlers[id].phase == Returned(copy, s.now) && !CacheIsFresh(copy, IMAGE_MAX_AGE, s.now)
         case None => s'.handlers[id].phase.Threw?
  {
    hide CacheIsFresh, IsReply, IsGenuine;
    RunKeepsInv(start, steps);
    RunAppend(start, steps, [StoreFails(id)]);
    var s := Run(start, steps);
    assert HandlerOk(s, id, s.handlers[id]);
    assert [StoreFails(id)][1..] == [];
    assert Run(s, [StoreFails(id)]) == Next(s, StoreFails(id));
  }

  /** The caches only ever hold ok replies, and outside the shell cache each carries the time it arrived. */
  lemma {:induction false} OnlyOkIsStored(start: State, steps: seq<Step>, key: Key)
    requires Initial(start) && key in Run(start, steps).store
    ensures var s := Run(start, steps);
      && s.store[key].ok
      && (key.0 != ShellCache ==> s.store[key].cachedAt.Some? && s.store[key].cachedAt.value <= s.now)
  {
    RunKeepsInv(start, steps);
    var s := Run(start, steps);
    assert IsGenuine(s.log, s.now, key.0, key.1, s.store[key]);
  }

  /**
   A handler throws only if opening or reading the cache failed, or its fetch or its write did, never both of
   these. For `cacheFirst` it is exactly one of the three.
   */
  lemma {:induction false} ThrowsOnlyOnFailure(start: State, steps: seq<Step>, id: nat)
    requires Initial(start) && id in Run(start, steps).handlers && Run(start, steps).handlers[id].phase.Threw?
    ensures var s := Run(start, steps);
      && (Failed(s.log, id) || CacheFailed(id) in s.log)
      && (Failed(s.log, id) ==> FailedOnce(s.log, id))
      && (s.handlers[id].strategy.CacheFirst? ==> (CacheFailed(id) in s.log <==> !Failed(s.log, id)))
  {
    RunKeepsInv(start, steps);
    var s := Run(start, steps);
    assert HandlerOk(s, id, s.handlers[id]);
  }

  /** A handler whose access to the cache failed always throws, and never answers. */
  lemma {:induction false} CacheFailureThrows(start: State, steps: seq<Step>, id: nat)
    requires Initial(start) && id in Run(start, steps).handlers && CacheFailed(id) in Run(start, steps).log
    ensures Run(start, steps).handlers[id].phase.Threw?
  {
    RunKeepsInv(start, steps);
    var s := Run(start, steps);
    assert HandlerOk(s, id, s.handlers[id]);
  }

  lemma {:induction false} RunAppend(s: State, a: seq<Step>, b: seq<Step>)
    ensures Run(s, a + b) == Run(Run(s, a), b)
    decreases |a|
  {
    if a == [] {
      assert a + b == b;
    } else {
      assert (a + b)[1..] == a[1..] + b;
      RunAppend(Next(s, a[0]), a[1..], b);
    }
  }

  lemma {:induction false} RunThree(s: State, a: Step, b: Step, c: Step)
    ensures Run(s, [a, b, c]) == Next(Next(Next(s, a), b), c)
  {
    hide Next;
    assert [a, b, c][1..] == [b, c] && [b, c][1..] == [c] && [c][1..] == [];
    assert Run(Next(s, a), [b, c]) == Run(Next(Next(s, a), b), [c]);
  }

  /** A first visit to an image: nothing cached, the network replies, the copy is stored. */
  lemma {:induction false} FirstVisit(s: State, request: string, reply: Response)
    requires Initial(s) && reply.ok
    ensures var image := CacheFirst(ImageCache);
      Run(s, [Request(0, image, request), Resume(0), Resume(0)] + [Resume(0), NetworkReplies(0, reply), Resume(0)])
        == State(s.now, map[(ImageCache, request) := WithCacheTimestamp(reply, s.now)],
                 map[0 := Handler(image, request, Returned(reply, s.now))], {0},
                 [Replied(0, request, reply, s.now)])
  {
    var image := CacheFirst(ImageCache);
    RunThree(s, Request(0, image, request), Resume(0), Resume(0));
    var s3 := Next(Next(Next(s, Request(0, image, request)), Resume(0)), Resume(0));
    assert s3.handlers == map[0 := Handler(image, request, Deciding(None))];
    RunAppend(s, [Request(0, image, request), Resume(0), Resume(0)], [Resume(0), NetworkReplies(0, reply), Resume(0)]);
    RunThree(s3, Resume(0), NetworkReplies(0, reply), Resume(0));
    var s4 := Next(s3, Resume(0));
    assert s4.handlers == map[0 := Handler(image, request, Fetching(None))];
    var s5 := Next(s4, NetworkReplies(0, reply));
    assert s5.handlers == map[0 := Handler(image, request, Storing(reply, WithCacheTimestamp(reply, s.now), None))];
  }

  /** A later visit that finds an old copy, hears from the network, and cannot store the reply. */
  lemma {:induction false} LaterVisit(s: State, request: string, copy: Response, reply: Response)
    requires 1 !in s.used && 1 !in s.handlers
    requires (ImageCache, request) in s.store && s.store[(ImageCache, request)] == copy
    requires !CacheIsFresh(copy, IMAGE_MAX_AGE, s.now) && reply.ok
    ensures var image := CacheFirst(ImageCache);
      Run(s, [Request(1, image, request), Resume(1), Resume(1)] + [Resume(1), NetworkReplies(1, reply), StoreFails(1)])
        == s.(handlers := s.handlers[1 := Handler(image, request, Returned(copy, s.now))], used := s.used + {1},
              log := s.log + [Replied(1, request, reply, s.now)] + [StoreFailed(1)])
  {
    var image := CacheFirst(ImageCache);
    RunThree(s, Request(1, image, request), Resume(1), Resume(1));
    var s3 := Next(Next(Next(s, Request(1, image, request)), Resume(1)), Resume(1));
    assert s3 == s.(handlers := s.handlers[1 := Handler(image, request, Deciding(Some(copy)))], used := s.used + {1});
    RunAppend(s, [Request(1, image, request), Resume(1), Resume(1)],
              [Resume(1), NetworkReplies(1, reply), StoreFails(1)]);
    RunThree(s3, Resume(1), NetworkReplies(1, reply), StoreFails(1));
    var s4 := Next(s3, Resume(1));
    assert s4 == s.(handlers := s.handlers[1 := Handler(image, request, Fetching(Some(copy)))], used := s.used + {1});
    var s5 := Next(s4, NetworkReplies(1, reply));
    var storing := Storing(reply, WithCacheTimestamp(reply, s.now), Some(copy));
    assert s5.handlers == s.handlers[1 := Handler(image, request, storing)];
    assert Next(s5, StoreFails(1)).handlers == s.handlers[1 := Handler(image, request, Returned(copy, s.now))];
  }

  /**
   The failed write is needed in these statements: for any two ok replies there is a run in which the network
   answers every request and never fails, yet `cacheFirst` returns the expired copy of the first reply.
   */
  lemma {:induction false} ExpiredCopyDespiteReply(
    request: string, earlier: Response, later: Response) returns (steps: seq<Step>)
    requires earlier.ok && later.ok
    ensures var s := Run(State(0, map[], map[], {}, []), steps);
      && Answered(s, 1, CacheFirst(ImageCache), request, WithCacheTimestamp(earlier, 0), IMAGE_MAX_AGE)
      && s.log == [Replied(0, request, earlier, 0), Replied(1, request, later, IMAGE_MAX_AGE), StoreFailed(1)]
  {
    hide Next;
    var image, s0 := CacheFirst(ImageCache), State(0, map[], map[], {}, []);
    var first := [Request(0, image, request), Resume(0), Resume(0)]
      + [Resume(0), NetworkReplies(0, earlier), Resume(0)];
    var second := [Request(1, image, request), Resume(1), Resume(1)]
      + [Resume(1), NetworkReplies(1, later), StoreFails(1)];
    steps := first + ([Tick(IMAGE_MAX_AGE)] + second);
    FirstVisit(s0, request, earlier);
    RunAppend(s0, first, [Tick(IMAGE_MAX_AGE)] + second);
    var s1 := Run(s0, first);
    RunAppend(s1, [Tick(IMAGE_MAX_AGE)], second);
    TickOnly(s1, IMAGE_MAX_AGE);
    LaterVisit(s1.(now := IMAGE_MAX_AGE), request, WithCacheTimestamp(earlier, 0), later);
  }

  lemma TickOnly(s: State, elapsed: nat)
    ensures Run(s, [Tick(elapsed)]) == s.(now := s.now + elapsed)
  {
    assert [Tick(elapsed)][1..] == [];
  }

  // ----- What every handler does, step by step -----

  /** A copy is fresh while its stamp is less than five minutes old for the API, less than seven days for the rest. */
  lemma {:induction false} FreshnessOnFields(r: Response, now: int)
    ensures CacheIsFresh(r, API_MAX_AGE, now) <==> r.cachedAt.Some? && now < r.cachedAt.value + 5 * 60 * 1000
    ensures CacheIsFresh(r, IMAGE_MAX_AGE, now)
       <==> r.cachedAt.Some? && now < r.cachedAt.value + 7 * 24 * 60 * 60 * 1000
  {
  }

  lemma {:induction false} RunTwo(s: State, a: Step, b: Step)
    ensures Run(s, [a, b]) == Next(Next(s, a), b)
  {
    hide Next;
    assert [a, b][1..] == [b] && [b][1..] == [];
    assert Run(Next(s, a), [b]) == Run(Next(Next(s, a), b), []);
  }

  /**
   When the network is down, or the reply cannot be stored, `networkFirstApi` answers with the copy stored for the
   request if it is less than five minutes old, and throws otherwise.
   */
  lemma {:induction false} ApiFallsBack(s: State, id: nat)
    requires id in s.handlers && s.handlers[id].strategy.NetworkFirst?
    requires s.handlers[id].phase.Fetching? || s.handlers[id].phase.Storing?
    ensures var fails := if s.handlers[id].phase.Fetching? then NetworkFails(id) else StoreFails(id);
            var s', key := Run(s, [fails, Resume(id), Resume(id)]), (ApiCache, s.handlers[id].request);
      && id in s'.handlers && s'.store == s.store && s'.now == s.now
      && s'.handlers[id].phase ==
           if key in s.store && s.store[key].cachedAt.Some? && s.now - s.store[key].cachedAt.value < 5 * 60 * 1000
           then Returned(s.store[key], s.now) else Threw
  {
    var h := s.handlers[id];
    var fails := if h.phase.Fetching? then NetworkFails(id) else StoreFails(id);
    RunThree(s, fails, Resume(id), Resume(id));
    var s1 := Next(s, fails);
    assert s1.handlers[id] == h.(phase := LookingUp) && s1.store == s.store;
    var s2 := Next(s1, Resume(id));
    assert s2.handlers[id].phase.Deciding? && s2.store == s.store;
  }

  /** `networkFirstApi` asks the network first, whatever is stored. */
  lemma {:induction false} ApiAsksNetwork(s: State, id: nat)
    requires id in s.handlers && s.handlers[id].strategy.NetworkFirst? && s.handlers[id].phase.Opening?
    ensures var s' := Next(s, Resume(id));
      id in s'.handlers && s'.handlers[id].phase == Fetching(None) && s'.store == s.store && s'.log == s.log
  {
  }

  /**
   `cacheFirst` answers with the stored copy if it is less than seven days old, without asking the network, and
   otherwise asks it, with the stored copy, if there is one, to fall back to.
   */
  lemma {:induction false} FreshCopyAnswers(s: State, id: nat)
    requires id in s.handlers && s.handlers[id].strategy.CacheFirst? && s.handlers[id].phase.Opening?
    ensures var s', key := Run(s, [Resume(id), Resume(id), Resume(id)]),
                           (s.handlers[id].strategy.cache, s.handlers[id].request);
      && id in s'.handlers && s'.store == s.store && s'.log == s.log
      && s'.handlers[id].phase ==
           if key in s.store && s.store[key].cachedAt.Some?
              && s.now - s.store[key].cachedAt.value < 7 * 24 * 60 * 60 * 1000
           then Returned(s.store[key], s.now)
           else Fetching(if key in s.store then Some(s.store[key]) else None)
  {
    RunThree(s, Resume(id), Resume(id), Resume(id));
    var s1 := Next(s, Resume(id));
    assert s1.handlers[id].phase.LookingUp? && s1.store == s.store;
    var s2 := Next(s1, Resume(id));
    assert s2.handlers[id].phase.Deciding? && s2.store == s.store;
  }

  /** When the network is down, `cacheFirst` answers with the copy it fell upon, and throws without one. */
  lemma {:induction false} AssetFallsBack(s: State, id: nat)
    requires id in s.handlers && s.handlers[id].strategy.CacheFirst? && s.handlers[id].phase.Fetching?
    ensures var s', cached := Next(s, NetworkFails(id)), s.handlers[id].phase.cached;
      && id in s'.handlers && s'.store == s.store
      && s'.handlers[id].phase == if cached.Some? then Returned(cached.value, s.now) else Threw
  {
  }

  /**
   An ok reply is answered and stored, stamped with the time it arrived, under the request in the handler's own
   cache; nothing else in any cache changes. Any other reply is answered and not stored.
   */
  lemma {:induction false} ReplyIsAnsweredAndStored(s: State, id: nat, reply: Response)
    requires id in s.handlers && s.handlers[id].phase.Fetching?
    ensures var h := s.handlers[id];
            var key := (if h.strategy.NetworkFirst? then ApiCache else h.strategy.cache, h.request);
      && (reply.ok ==>
            var s' := Run(s, [NetworkReplies(id, reply), Resume(id)]);
            && id in s'.handlers && s'.handlers[id].phase == Returned(reply, s.now)
            && s'.store == s.store[key := Response(reply.body, true, Some(s.now))])
      && (!reply.ok ==>
            var s' := Next(s, NetworkReplies(id, reply));
            id in s'.handlers && s'.handlers[id].phase == Returned(reply, s.now) && s'.store == s.store)
  {
    if reply.ok {
      RunTwo(s, NetworkReplies(id, reply), Resume(id));
      var s1 := Next(s, NetworkReplies(id, reply));
      assert s1.handlers[id].phase.Storing? && s1.store == s.store && s1.now == s.now;
    }
  }

  /** Installing stores ok replies in the shell cache as they are, and nothing else. */
  lemma {:induction false} InstallStores(s: State, request: string, reply: Response)
    ensures Next(s, Install(request, reply)).store
         == if reply.ok then s.store[(ShellCache, request) := reply] else s.store
  {
  }

  /** A handler that has answered or thrown does nothing more. */
  lemma {:induction false} FinishedHandlersRest(s: State, step: Step, id: nat)
    requires id in s.handlers && id in s.used
    requires s.handlers[id].phase.Returned? || s.handlers[id].phase.Threw?
    ensures var s' := Next(s, step); step.Restart? || (id in s'.handlers && s'.handlers[id] == s.handlers[id])
  {
  }
}
