/**
 Login of an existing user: the failure counter kept in the cache, the lock kept on the account, and how
 their two expiry times interact. Time is in milliseconds; each login reads the clock several times.
 */
module Login {
  import opened Text

  const WINDOW := 900 * 1000
  const LOCK_TIME := 15 * 60 * 1000
  const COUNTRY_LOCK_TIME := 60 * 60 * 1000
  const MAX_FAILS := 5

  /** The counter in the cache; without an expiry time it stays until it is deleted. */
  datatype Counter = Counter(count: nat, expiresAt: Option<int>)

  predicate IsLive(counter: Option<Counter>, now: int) {
    counter.Some? && (counter.value.expiresAt.Some? ==> now < counter.value.expiresAt.value)
  }

  predicate IsLocked(lockedUntil: Option<int>, now: int) {
    lockedUntil.Some? && lockedUntil.value > now
  }

  /** Which cache commands go through; a failed one is logged and otherwise ignored. */
  datatype Health = Health(incr: bool, expire: bool, del: bool)

  /** Readings of the clock during one login: lock check, INCR, EXPIRE, and the computation of the lock. */
  datatype Times = Times(check: int, incr: int, expire: int, lock: int)

  predicate Ordered(t: Times) {
    t.check <= t.incr <= t.expire <= t.lock
  }

  /** Facts about the user that logging in does not change. */
  datatype Profile = Profile(
    password: string, suspended: bool, superAdmin: bool, hasOrganization: bool, organizationSuspended: bool,
    twoFactorEnabled: bool)

  datatype Outcome =
    | AccountLocked
    | AccountSuspended
    | WrongCredentials
    | OrganizationSuspended
    | SubscriptionRefused
    | NeedsTwoFactor
    | LoggedIn

  datatype Account = Account(counter: Option<Counter>, lockedUntil: Option<int>)

  /** INCR, with EXPIRE on the first increment; the count is `None` when a command failed. */
  function IncrWithExpire(counter: Option<Counter>, t: Times, health: Health): (Option<Counter>, Option<nat>) {
    if !health.incr then (counter, None)
    else if IsLive(counter, t.incr) then
      var n := counter.value.count + 1;
      var c := counter.value.(count := n);
      if n != 1 then (Some(c), Some(n))
      else if health.expire then (Some(c.(expiresAt := Some(t.expire + WINDOW))), Some(1))
      else (Some(c), None)
    else if health.expire then (Some(Counter(1, Some(t.expire + WINDOW))), Some(1))
    else (Some(Counter(1, None)), None)
  }

  function FailedLogin(a: Account, t: Times, health: Health): Account {
    var (counter, n) := IncrWithExpire(a.counter, t, health);
    Account(counter, if n == Some(MAX_FAILS) then Some(t.lock + LOCK_TIME) else a.lockedUntil)
  }

  function ForgetFailures(a: Account, health: Health): Account {
    a.(counter := if health.del then None else a.counter)
  }

  function Refused(p: Profile, a: Account, password: string, t: Times): Option<Outcome> {
    if IsLocked(a.lockedUntil, t.check) then Some(AccountLocked)
    else if p.suspended && !p.superAdmin then Some(AccountSuspended)
    else if !p.hasOrganization || password != p.password then Some(WrongCredentials)
    else None
  }

  function LoginStep(p: Profile, a: Account, password: string, subscribed: bool, t: Times, health: Health)
    : (Account, Outcome)
  {
    var refused := Refused(p, a, password, t);
    if refused == Some(WrongCredentials) then (FailedLogin(a, t, health), WrongCredentials)
    else if refused.Some? then (a, refused.value)
    else if p.organizationSuspended && !p.superAdmin then (a, OrganizationSuspended)
    else if !p.superAdmin && !subscribed then (a, SubscriptionRefused)
    else if p.twoFactorEnabled then (ForgetFailures(a, health), NeedsTwoFactor)
    else (ForgetFailures(a, health).(lockedUntil := None), LoggedIn)
  }

  function CompleteTwoFactorStep(p: Profile, a: Account, valid: bool, subscribed: bool, health: Health)
    : (Account, Outcome)
  {
    if !valid then (a, WrongCredentials)
    else if !p.hasOrganization || (p.organizationSuspended && !p.superAdmin) then (a, OrganizationSuspended)
    else if !p.superAdmin && !subscribed then (a, SubscriptionRefused)
    else (ForgetFailures(a, health).(lockedUntil := None), LoggedIn)
  }

  class AuthService {
    const profile: Profile
    var counter: Option<Counter>
    var lockedUntil: Option<int>

    function State(): Account
      reads this
    {
      Account(counter, lockedUntil)
    }

    constructor (profile: Profile)
      ensures this.profile == profile && State() == Account(None, None)
    {
      this.profile := profile;
      counter, lockedUntil := None, None;
    }

    method Incr(t: Times, health: Health) returns (n: Option<nat>)
      modifies this`counter
      ensures (counter, n) == IncrWithExpire(old(counter), t, health)
    {
      if !health.incr {
        return None;
      }
      if IsLive(counter, t.incr) {
        counter := Some(counter.value.(count := counter.value.count + 1));
      } else {
        counter := Some(Counter(1, None));
      }
      if counter.value.count == 1 {
        if !health.expire {
          return None;
        }
        counter := Some(counter.value.(expiresAt := Some(t.expire + WINDOW)));
      }
      return Some(counter.value.count);
    }

    method HandleFailedLogin(t: Times, health: Health)
      modifies this
      ensures State() == FailedLogin(old(State()), t, health)
    {
      var n := Incr(t, health);
      if n.None? || n.value != MAX_FAILS {
        return;
      }
      lockedUntil := Some(t.lock + LOCK_TIME);
    }

    method HandleSuccessfulLogin(health: Health)
      modifies this`counter
      ensures State() == ForgetFailures(old(State()), health)
    {
      if health.del {
        counter := None;
      }
    }

    method Login(password: string, subscribed: bool, t: Times, health: Health) returns (outcome: Outcome)
      modifies this
      ensures (State(), outcome) == LoginStep(profile, old(State()), password, subscribed, t, health)
    {
      if lockedUntil.Some? && lockedUntil.value > t.check {
        return AccountLocked;
      }
      if profile.suspended && !profile.superAdmin {
        return AccountSuspended;
      }
      if !profile.hasOrganization {
        HandleFailedLogin(t, health);
        return WrongCredentials;
      }
      var passwordOk := password == profile.password;
      if !passwordOk {
        HandleFailedLogin(t, health);
        return WrongCredentials;
      }
      if profile.organizationSuspended && !profile.superAdmin {
        return OrganizationSuspended;
      }
      if !profile.superAdmin && !subscribed {
        return SubscriptionRefused;
      }
      if profile.twoFactorEnabled {
        HandleSuccessfulLogin(health);
        return NeedsTwoFactor;
      }
      HandleSuccessfulLogin(health);
      lockedUntil := None;
      return LoggedIn;
    }

    method CompleteTwoFactorLogin(valid: bool, subscribed: bool, health: Health) returns (outcome: Outcome)
      modifies this
      ensures (State(), outcome) == CompleteTwoFactorStep(profile, old(State()), valid, subscribed, health)
    {
      if !valid {
        return WrongCredentials;
      }
      if !profile.hasOrganization || (profile.organizationSuspended && !profile.superAdmin) {
        return OrganizationSuspended;
      }
      if !profile.superAdmin && !subscribed {
        return SubscriptionRefused;
      }
      HandleSuccessfulLogin(health);
      lockedUntil := None;
      return LoggedIn;
    }
  }

  // ----- Runs -----

  datatype Op =
    | Attempt(password: string, subscribed: bool, t: Times, health: Health)
    | SecondFactor(valid: bool, paid: bool, at: int, cache: Health)
    | CountryLock(seen: int)

  function Begins(op: Op): int {
    match op
    case Attempt(_, _, t, _) => t.check
    case SecondFactor(_, _, at, _) => at
    case CountryLock(seen) => seen
  }

  function Ends(op: Op): int {
    match op
    case Attempt(_, _, t, _) => t.lock
    case SecondFactor(_, _, at, _) => at
    case CountryLock(seen) => seen
  }

  /** One operation; logins from many countries lock the account for an hour. */
  function Step(p: Profile, a: Account, op: Op): Account {
    match op
    case Attempt(password, subscribed, t, health) => LoginStep(p, a, password, subscribed, t, health).0
    case SecondFactor(valid, paid, _, cache) => CompleteTwoFactorStep(p, a, valid, paid, cache).0
    case CountryLock(seen) => a.(lockedUntil := Some(seen + COUNTRY_LOCK_TIME))
  }

  function Run(p: Profile, a: Account, ops: seq<Op>): Account
    decreases |ops|
  {
    if ops == [] then a else Run(p, Step(p, a, ops[0]), ops[1..])
  }

  /** Operations one after another from a point in time on. */
  predicate Sequential(now: int, ops: seq<Op>)
    decreases |ops|
  {
    ops != [] ==>
      && now <= Begins(ops[0]) && (ops[0].Attempt? ==> Ordered(ops[0].t))
      && Sequential(Ends(ops[0]), ops[1..])
  }

  function EndOf(now: int, ops: seq<Op>): int
    decreases |ops|
  {
    if ops == [] then now else EndOf(Ends(ops[0]), ops[1..])
  }

  /**
   The two lost cache commands that part the counter from the lock: the EXPIRE of a first failure, and the DEL
   of a second-factor login while five failures are on record. A lost INCR leaves both as they were, so it does
   no harm of this kind; what it does to the number of guesses is stated with `GuessRate`.
  */
  predicate IsHarmed(p: Profile, a: Account, op: Op) {
    match op
    case Attempt(password, subscribed, t, health) =>
      && Refused(p, a, password, t) == Some(WrongCredentials)
      && !IsLive(a.counter, t.incr) && health.incr && !health.expire
    case SecondFactor(valid, paid, at, cache) =>
      && CompleteTwoFactorStep(p, a, valid, paid, cache).1 == LoggedIn
      && IsLive(a.counter, at) && a.counter.value.count == MAX_FAILS && !cache.del
    case CountryLock(_) => false
  }

  /** No operation of the run is harmed by a lost command. */
  predicate Unharmed(p: Profile, a: Account, ops: seq<Op>)
    decreases |ops|
  {
    ops != [] ==> !IsHarmed(p, a, ops[0]) && Unharmed(p, Step(p, a, ops[0]), ops[1..])
  }

  /** A live counter stays within five and runs out in time, and at five the lock outlasts it. */
  predicate Inv(a: Account, now: int) {
    IsLive(a.counter, now) ==>
      var c := a.counter.value;
      && 1 <= c.count <= MAX_FAILS
      && c.expiresAt.Some? && c.expiresAt.value <= now + WINDOW
      && (c.count == MAX_FAILS ==> a.lockedUntil.Some? && c.expiresAt.value <= a.lockedUntil.value)
  }

  /** The invariant survives a step exactly when no command that matters is lost. */
  lemma {:induction false} StepKeepsInv(p: Profile, a: Account, op: Op, now: int)
    requires Inv(a, now) && Sequential(now, [op])
    ensures Inv(Step(p, a, op), Ends(op)) <==> !IsHarmed(p, a, op)
  {
  }

  /** The invariant holds before and after every operation of the run. */
  predicate StaysInStep(p: Profile, a: Account, ops: seq<Op>, now: int)
    decreases |ops|
  {
    Inv(a, now) && (ops != [] ==> StaysInStep(p, Step(p, a, ops[0]), ops[1..], Ends(ops[0])))
  }

  /** Counter and lock stay in step throughout a run exactly when no operation of it is harmed. */
  lemma {:induction false} RunKeepsInv(p: Profile, a: Account, ops: seq<Op>, now: int)
    requires Inv(a, now) && Sequential(now, ops)
    ensures StaysInStep(p, a, ops, now) <==> Unharmed(p, a, ops)
    decreases |ops|
  {
    hide Inv, IsHarmed, Step;
    if ops != [] {
      StepKeepsInv(p, a, ops[0], now);
      if !IsHarmed(p, a, ops[0]) {
        RunKeepsInv(p, Step(p, a, ops[0]), ops[1..], Ends(ops[0]));
      }
    }
  }

  /** In every unharmed run a live counter of five means the account is still locked. */
  lemma {:induction false} FullCounterMeansLocked(p: Profile, a: Account, ops: seq<Op>, now: int, later: int)
    requires Inv(a, now) && Sequential(now, ops) && Unharmed(p, a, ops) && EndOf(now, ops) <= later
    ensures var b := Run(p, a, ops);
      && Inv(b, EndOf(now, ops))
      && (IsLive(b.counter, later) ==> b.counter.value.count <= MAX_FAILS)
      && (IsLive(b.counter, later) && b.counter.value.count == MAX_FAILS ==> IsLocked(b.lockedUntil, later))
    decreases |ops|
  {
    if ops != [] {
      StepKeepsInv(p, a, ops[0], now);
      FullCounterMeansLocked(p, Step(p, a, ops[0]), ops[1..], Ends(ops[0]), later);
    }
  }

  /**
   A failure is counted as one more, never past five, exactly when its INCR goes through; the fifth one counted
   sets the lock. An uncounted failure changes nothing.
   */
  lemma {:induction false} FailureCounts(p: Profile, a: Account, op: Op, now: int)
    requires Inv(a, now) && Sequential(now, [op]) && op.Attempt?
    requires LoginStep(p, a, op.password, op.subscribed, op.t, op.health).1 == WrongCredentials
    ensures var b, n := Step(p, a, op), if IsLive(a.counter, op.t.incr) then a.counter.value.count + 1 else 1;
      && n <= 5
      && (IsLive(b.counter, op.t.incr) && b.counter.value.count == n <==> op.health.incr)
      && (op.health.incr && n == 5 <==> IsLocked(b.lockedUntil, op.t.lock))
      && (op.health.incr && n == 5 ==> b.lockedUntil == Some(op.t.lock + 15 * 60 * 1000))
      && (!op.health.incr ==> b == a)
  {
  }

  // ----- How fast passwords can be tried -----

  /** An attempt answered with wrong credentials: the password is wrong, or the user is in no organisation. */
  predicate IsGuess(p: Profile, a: Account, op: Op) {
    op.Attempt? && LoginStep(p, a, op.password, op.subscribed, op.t, op.health).1 == WrongCredentials
  }

  /** A guess whose INCR is lost. */
  predicate IsUncounted(p: Profile, a: Account, op: Op) {
    IsGuess(p, a, op) && !op.health.incr
  }

  function Guesses(p: Profile, a: Account, ops: seq<Op>): nat
    decreases |ops|
  {
    if ops == [] then 0
    else (if IsGuess(p, a, ops[0]) then 1 else 0) + Guesses(p, Step(p, a, ops[0]), ops[1..])
  }

  function Uncounted(p: Profile, a: Account, ops: seq<Op>): nat
    decreases |ops|
  {
    if ops == [] then 0
    else (if IsUncounted(p, a, ops[0]) then 1 else 0) + Uncounted(p, Step(p, a, ops[0]), ops[1..])
  }

  /** No operation of the run deletes the counter. */
  predicate NoSuccess(p: Profile, a: Account, ops: seq<Op>)
    decreases |ops|
  {
    ops != [] ==>
      && (ops[0].Attempt? ==>
            var outcome := LoginStep(p, a, ops[0].password, ops[0].subscribed, ops[0].t, ops[0].health).1;
            outcome != LoggedIn && outcome != NeedsTwoFactor)
      && (ops[0].SecondFactor? ==> !ops[0].valid)
      && NoSuccess(p, Step(p, a, ops[0]), ops[1..])
  }

  /** Windows of the counter that can open from one time to another. */
  function Windows(from: int, until: int): nat {
    if until < from then 0 else (until - from) / WINDOW + 1
  }

  function GuessesLeft(a: Account, now: int, until: int): int {
    if IsLive(a.counter, now) && a.counter.value.expiresAt.Some?
    then MAX_FAILS - a.counter.value.count + MAX_FAILS * Windows(a.counter.value.expiresAt.value, until)
    else MAX_FAILS * Windows(now, until)
  }

  lemma {:induction false} LaterWindows(from: int, later: int, until: int)
    requires from <= later
    ensures Windows(later, until) <= Windows(from, until)
    ensures from <= until && from + WINDOW <= later ==> Windows(later, until) + 1 <= Windows(from, until)
  {
    if later <= until {
      DivideLess(until - later, until - from);
    }
  }

  lemma DivideLess(x: int, y: int)
    requires 0 <= x <= y
    ensures x / WINDOW <= y / WINDOW
    ensures x + WINDOW <= y ==> x / WINDOW + 1 <= y / WINDOW
  {
  }

  lemma {:induction false} LeftGoesDown(a: Account, lockedUntil: Option<int>, now: int, later: int, until: int)
    requires Inv(a, now) && now <= later <= until
    ensures GuessesLeft(Account(a.counter, lockedUntil), later, until) <= GuessesLeft(a, now, until)
  {
    hide Windows;
    LaterWindows(now, later, until);
    if IsLive(a.counter, now) && !IsLive(a.counter, later) {
      LaterWindows(a.counter.value.expiresAt.value, later, until);
    }
  }

  lemma {:induction false} FailureUsesUp(a: Account, t: Times, health: Health, now: int, until: int)
    requires Inv(a, now) && now <= t.check && Ordered(t) && t.lock <= until
    requires health.incr && (IsLive(a.counter, t.incr) || health.expire) && !IsLocked(a.lockedUntil, t.check)
    ensures 1 + GuessesLeft(FailedLogin(a, t, health), t.lock, until) <= GuessesLeft(a, now, until)
  {
    hide Windows;
    if IsLive(a.counter, t.incr) {
      var e := a.counter.value.expiresAt.value;
      if e <= t.lock {
        LaterWindows(e, t.lock, until);
      }
    } else {
      LaterWindows(now, t.expire + WINDOW, until);
      LaterWindows(now, t.lock, until);
      if IsLive(a.counter, now) {
        LaterWindows(a.counter.value.expiresAt.value, t.expire + WINDOW, until);
        LaterWindows(a.counter.value.expiresAt.value, t.lock, until);
      }
    }
  }

  /** A counted guess uses up one of those left, and no operation brings one back. */
  lemma {:induction false} GuessUsesUp(p: Profile, a: Account, op: Op, now: int, until: int)
    requires Inv(a, now) && Sequential(now, [op]) && !IsHarmed(p, a, op) && NoSuccess(p, a, [op]) && Ends(op) <= until
    ensures (if IsGuess(p, a, op) then 1 else 0) + GuessesLeft(Step(p, a, op), Ends(op), until)
         <= GuessesLeft(a, now, until) + if IsUncounted(p, a, op) then 1 else 0
  {
    hide GuessesLeft, Inv, FailedLogin;
    if IsGuess(p, a, op) && op.health.incr {
      FailureUsesUp(a, op.t, op.health, now, until);
    } else {
      assert Step(p, a, op).counter == a.counter by {
        if op.Attempt? && Refused(p, a, op.password, op.t) == Some(WrongCredentials) {
          NothingCounted(a, op.t, op.health);
        }
      }
      LeftGoesDown(a, Step(p, a, op).lockedUntil, now, Ends(op), until);
    }
  }

  lemma NothingCounted(a: Account, t: Times, health: Health)
    requires !health.incr
    ensures FailedLogin(a, t, health) == a
  {
  }

  lemma {:induction false} EndIsLater(now: int, ops: seq<Op>)
    requires Sequential(now, ops)
    ensures now <= EndOf(now, ops)
    decreases |ops|
  {
    if ops != [] {
      EndIsLater(Ends(ops[0]), ops[1..]);
    }
  }

  lemma {:induction false} GuessesAreBounded(p: Profile, a: Account, ops: seq<Op>, now: int, until: int)
    requires Inv(a, now) && Sequential(now, ops) && NoSuccess(p, a, ops) && EndOf(now, ops) <= until
    requires Unharmed(p, a, ops)
    ensures Guesses(p, a, ops) <= GuessesLeft(a, now, until) + Uncounted(p, a, ops)
    decreases |ops|
  {
    if ops != [] {
      EndIsLater(Ends(ops[0]), ops[1..]);
      StepKeepsInv(p, a, ops[0], now);
      assert NoSuccess(p, a, [ops[0]]) && Sequential(now, [ops[0]]);
      GuessUsesUp(p, a, ops[0], now, until);
      GuessesAreBounded(p, Step(p, a, ops[0]), ops[1..], Ends(ops[0]), until);
    }
  }

  /**
   While nobody logs in, at most five attempts are answered with wrong credentials per window of 900 seconds begun
   since the start, and as many more as lost their INCR, however the attempts are spread and whatever else
   locks the account.
   */
  lemma {:induction false} GuessRate(p: Profile, lockedUntil: Option<int>, ops: seq<Op>, now: int)
    requires Sequential(now, ops) && NoSuccess(p, Account(None, lockedUntil), ops)
    requires Unharmed(p, Account(None, lockedUntil), ops)
    ensures Guesses(p, Account(None, lockedUntil), ops)
         <= 5 * ((EndOf(now, ops) - now) / 900_000 + 1) + Uncounted(p, Account(None, lockedUntil), ops)
  {
    EndIsLater(now, ops);
    GuessesAreBounded(p, Account(None, lockedUntil), ops, now, EndOf(now, ops));
  }

  /** The same wrong password `n` times at one instant, with the same cache commands going through. */
  function Burst(p: Profile, n: nat, at: int, health: Health): seq<Op> {
    if n == 0 then []
    else [Attempt(p.password + "x", true, Times(at, at, at, at), health)] + Burst(p, n - 1, at, health)
  }

  predicate CanTry(p: Profile) {
    !p.suspended || p.superAdmin
  }

  /** Without INCR any number of passwords can be tried at one instant: nothing is counted and nothing is locked. */
  lemma {:induction false} LostIncrCountsNothing(p: Profile, n: nat, at: int, health: Health)
    requires CanTry(p) && !health.incr
    ensures var start, ops := Account(None, None), Burst(p, n, at, health);
      && Sequential(at, ops) && EndOf(at, ops) == at && NoSuccess(p, start, ops) && Unharmed(p, start, ops)
      && Guesses(p, start, ops) == Uncounted(p, start, ops) == n && Run(p, start, ops) == start
  {
    if n > 0 {
      LostIncrCountsNothing(p, n - 1, at, health);
      var ops := Burst(p, n, at, health);
      assert ops[1..] == Burst(p, n - 1, at, health);
      assert |p.password + "x"| == |p.password| + 1;
      assert Step(p, Account(None, None), ops[0]) == Account(None, None);
    }
  }

  /** Every login of the run meets a cache in one of the given conditions. */
  predicate UnderConditions(ops: seq<Op>, possible: Health -> bool) {
    forall op <- ops :: op.Attempt? ==> possible(op.health)
  }

  /** Five guesses per window, in this run. */
  predicate KeepsRate(p: Profile, lockedUntil: Option<int>, ops: seq<Op>, now: int) {
    var start := Account(None, lockedUntil);
    Sequential(now, ops) && NoSuccess(p, start, ops) && Unharmed(p, start, ops) ==>
      Guesses(p, start, ops) <= 5 * ((EndOf(now, ops) - now) / 900_000 + 1)
  }

  lemma {:induction false} AllCounted(p: Profile, a: Account, ops: seq<Op>)
    requires forall op <- ops :: op.Attempt? ==> op.health.incr
    ensures Uncounted(p, a, ops) == 0
    decreases |ops|
  {
    if ops != [] {
      assert ops[0] in ops && forall op <- ops[1..] :: op in ops;
      AllCounted(p, Step(p, a, ops[0]), ops[1..]);
    }
  }

  lemma {:induction false} BurstMembers(p: Profile, n: nat, at: int, health: Health)
    ensures forall op <- Burst(p, n, at, health) :: op.Attempt? && op.health == health
  {
    if n > 0 {
      BurstMembers(p, n - 1, at, health);
    }
  }

  /**
   The plain rate of five per window holds in all unharmed runs exactly when the cache can never lose an INCR
   (or the user is suspended, so that no credentials are looked at).
   */
  lemma {:induction false} RateNeedsIncr(p: Profile, possible: Health -> bool)
    ensures (forall lockedUntil, ops, now :: UnderConditions(ops, possible) ==> KeepsRate(p, lockedUntil, ops, now))
       <==> !CanTry(p) || forall health: Health :: possible(health) ==> health.incr
  {
    if CanTry(p) && exists health: Health :: possible(health) && !health.incr {
      var health: Health :| possible(health) && !health.incr;
      LostIncrCountsNothing(p, 6, 0, health);
      BurstMembers(p, 6, 0, health);
      assert UnderConditions(Burst(p, 6, 0, health), possible) && !KeepsRate(p, None, Burst(p, 6, 0, health), 0);
    } else {
      forall lockedUntil, ops, now | UnderConditions(ops, possible) ensures KeepsRate(p, lockedUntil, ops, now) {
        var start := Account(None, lockedUntil);
        if Sequential(now, ops) && NoSuccess(p, start, ops) && Unharmed(p, start, ops) {
          GuessRate(p, lockedUntil, ops, now);
          if CanTry(p) {
            AllCounted(p, start, ops);
          } else {
            NothingTried(p, start, ops);
          }
        }
      }
    }
  }

  lemma {:induction false} NothingTried(p: Profile, a: Account, ops: seq<Op>)
    requires !CanTry(p)
    ensures Guesses(p, a, ops) == 0 == Uncounted(p, a, ops)
    decreases |ops|
  {
    if ops != [] {
      NothingTried(p, Step(p, a, ops[0]), ops[1..]);
    }
  }

  // ----- What a lost command does -----

  /**
   A lost DEL: a second-factor login that finds a live counter of five takes the lock away and leaves the
   counter, and the next wrong password makes it six without locking the account.
   */
  lemma {:induction false} LostDeleteUnlocks(p: Profile, a: Account, op: Op, password: string, t: Times)
    requires op.SecondFactor? && IsHarmed(p, a, op) && Ordered(t) && op.at <= t.check
    requires IsLive(a.counter, t.incr) && password != p.password && CanTry(p)
    ensures var after := Step(p, a, op);
            var (b, outcome) := LoginStep(p, after, password, true, t, Health(true, true, true));
      && after == a.(lockedUntil := None)
      && outcome == WrongCredentials && b.counter.value.count == 6 && b.lockedUntil.None?
  {
  }

  /** A wrong password at each of the given times; only the first one loses its EXPIRE. */
  function WrongPasswords(wrong: string, times: seq<Times>): seq<Op> {
    seq(|times|, i requires 0 <= i < |times| => Attempt(wrong, true, times[i], Health(true, i > 0, true)))
  }

  /** Five wrong passwords, the first of which loses its EXPIRE, lock the account and leave a counter that stays. */
  lemma {:induction false} LostExpireStays(p: Profile, wrong: string, times: seq<Times>)
    requires |times| == 5 && wrong != p.password && CanTry(p)
    ensures Run(p, Account(None, None), WrongPasswords(wrong, times))
         == Account(Some(Counter(5, None)), Some(times[4].lock + LOCK_TIME))
  {
    var ops := WrongPasswords(wrong, times);
    var four := ops[1..];
    forall i | 0 <= i < 4 ensures four[i] == Attempt(wrong, true, times[i + 1], Health(true, true, true)) {
    }
    FailuresCount(p, Step(p, Account(None, None), ops[0]), wrong, four);
  }

  lemma {:induction false} FailuresCount(p: Profile, a: Account, wrong: string, ops: seq<Op>)
    requires a.lockedUntil.None? && a.counter.Some? && a.counter.value.expiresAt.None?
    requires ops != [] && a.counter.value.count >= 1 && a.counter.value.count + |ops| == MAX_FAILS
    requires wrong != p.password && CanTry(p)
    requires forall i :: 0 <= i < |ops| ==> ops[i].Attempt? && ops[i].password == wrong && ops[i].health.incr
    ensures Run(p, a, ops) == Account(Some(Counter(MAX_FAILS, None)), Some(ops[|ops| - 1].t.lock + LOCK_TIME))
    decreases |ops|
  {
    if |ops| > 1 {
      FailuresCount(p, Step(p, a, ops[0]), wrong, ops[1..]);
    } else {
      assert Run(p, Step(p, a, ops[0]), ops[1..]) == Step(p, a, ops[0]);
    }
  }

  /** From then on, until somebody logs in, wrong passwords are counted without end and never lock the account again. */
  lemma {:induction false} NeverLocksAgain(p: Profile, a: Account, ops: seq<Op>)
    requires a.counter.Some? && a.counter.value.expiresAt.None? && a.counter.value.count >= MAX_FAILS
    requires NoSuccess(p, a, ops) && forall op <- ops :: !op.CountryLock?
    ensures var b := Run(p, a, ops);
      && b.lockedUntil == a.lockedUntil && b.counter.Some? && b.counter.value.expiresAt.None?
      && b.counter.value.count + Uncounted(p, a, ops) == a.counter.value.count + Guesses(p, a, ops)
    decreases |ops|
  {
    if ops != [] {
      assert ops[0] in ops && forall op <- ops[1..] :: op in ops;
      NeverLocksAgain(p, Step(p, a, ops[0]), ops[1..]);
    }
  }

  // ----- Every outcome, field by field -----

  /** Exactly when a login is answered how: the checks in their order, super admins exempt from three of them. */
  lemma {:induction false} LoginOutcomes(
    p: Profile, a: Account, password: string, subscribed: bool, t: Times, health: Health)
    ensures var outcome := LoginStep(p, a, password, subscribed, t, health).1;
            var locked := a.lockedUntil.Some? && a.lockedUntil.value > t.check;
            var suspended := p.suspended && !p.superAdmin;
            var known := p.hasOrganization && password == p.password;
            var shut := p.organizationSuspended && !p.superAdmin;
            var unpaid := !subscribed && !p.superAdmin;
      && (outcome == AccountLocked <==> locked)
      && (outcome == AccountSuspended <==> !locked && suspended)
      && (outcome == WrongCredentials <==> !locked && !suspended && !known)
      && (outcome == OrganizationSuspended <==> !locked && !suspended && known && shut)
      && (outcome == SubscriptionRefused <==> !locked && !suspended && known && !shut && unpaid)
      && (outcome == NeedsTwoFactor <==> !locked && !suspended && known && !shut && !unpaid && p.twoFactorEnabled)
      && (outcome == LoggedIn <==> !locked && !suspended && known && !shut && !unpaid && !p.twoFactorEnabled)
  {
  }

  /**
   The right password forgets the failures; only a completed login also takes the lock away. A refusal for any
   other reason than wrong credentials changes nothing.
   */
  lemma {:induction false} LoginEffects(
    p: Profile, a: Account, password: string, subscribed: bool, t: Times, health: Health)
    ensures var (b, outcome) := LoginStep(p, a, password, subscribed, t, health);
      && (outcome == LoggedIn || outcome == NeedsTwoFactor ==> b.counter == if health.del then None else a.counter)
      && (outcome == LoggedIn ==> b.lockedUntil == None)
      && (outcome == NeedsTwoFactor ==> b.lockedUntil == a.lockedUntil)
      && (outcome != LoggedIn && outcome != NeedsTwoFactor && outcome != WrongCredentials ==> b == a)
  {
  }

  /**
   A wrong password: with INCR the count is one more, or one if no live counter was there; the first sets an expiry
   900 seconds away, later ones keep it; the fifth locks for 15 minutes. Without INCR nothing changes.
   */
  lemma {:induction false} WrongPasswordEffects(
    p: Profile, a: Account, password: string, subscribed: bool, t: Times, health: Health)
    requires LoginStep(p, a, password, subscribed, t, health).1 == WrongCredentials
    ensures var b := LoginStep(p, a, password, subscribed, t, health).0;
            var live := a.counter.Some?
                        && (a.counter.value.expiresAt.None? || t.incr < a.counter.value.expiresAt.value);
            var count := if live then a.counter.value.count + 1 else 1;
      && (!health.incr ==> b == a)
      && (health.incr ==>
            && b.counter.Some? && b.counter.value.count == count
            && (count == 1 && health.expire ==> b.counter.value.expiresAt == Some(t.expire + 900_000))
            && (count == 1 && !health.expire && !live ==> b.counter.value.expiresAt == None)
            && (count > 1 ==> b.counter.value.expiresAt == a.counter.value.expiresAt)
            && b.lockedUntil == if count == 5 then Some(t.lock + 15 * 60 * 1000) else a.lockedUntil)
  {
  }

  /** The second factor is accepted exactly with a right code and an open, paid organisation, or for a super admin. */
  lemma {:induction false} TwoFactorOnFields(p: Profile, a: Account, valid: bool, subscribed: bool, health: Health)
    ensures var (b, outcome) := CompleteTwoFactorStep(p, a, valid, subscribed, health);
            var shut := !p.hasOrganization || (p.organizationSuspended && !p.superAdmin);
            var unpaid := !subscribed && !p.superAdmin;
      && (outcome == WrongCredentials <==> !valid)
      && (outcome == OrganizationSuspended <==> valid && shut)
      && (outcome == SubscriptionRefused <==> valid && !shut && unpaid)
      && (outcome == LoggedIn <==> valid && !shut && !unpaid)
      && (outcome == LoggedIn ==> b == Account(if health.del then None else a.counter, None))
      && (outcome != LoggedIn ==> b == a)
  {
  }

  /** Logins from many countries lock the account for an hour and leave the counter. */
  lemma {:induction false} CountryLockOnFields(p: Profile, a: Account, seen: int)
    ensures Step(p, a, CountryLock(seen)) == Account(a.counter, Some(seen + 60 * 60 * 1000))
  {
  }
}
