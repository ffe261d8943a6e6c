/** The monthly scan quota over whole runs, on a server whose zone is a fixed offset from UTC. */
module Quota {
  import opened Ladder
  import opened Calendar
  import opened Sequences

  datatype ResetTime = Unset | At(t: int)

  datatype Account = Account(tier: string, used: int, reset: ResetTime)

  function QuotaForTier(tier: string): (q: nat)
    ensures q >= 100
  {
    if tier == "basic" then 1000
    else if tier == "pro" then 10000
    else if tier == "admin" then 1073741824
    else 100
  }

  /** The month of an instant on a clock that runs zone seconds ahead of UTC. */
  function LocalMonth(c: Rules, now: int, zone: int): int
    requires Good(c)
  {
    Rung(c.start, now + zone * SECOND)
  }

  /** The start of the calendar month after the local month of now, read as a UTC date. */
  function NextMonthStart(c: Rules, now: int, zone: int): int
    requires Good(c)
  {
    var local := LocalMonth(c, now, zone);
    c.first(local / 12, local % 12 + 2)
  }

  /** The server's rule for the next reset, as a function of the current instant. */
  function ResetRule(c: Rules, zone: int): int -> int
    requires Good(c)
  {
    (now: int) => NextMonthStart(c, now, zone)
  }

  function MaybeReset(a: Account, now: int, next: int -> int): Account {
    if a.reset == Unset || now > a.reset.t then a.(used := 0, reset := At(next(now))) else a
  }

  predicate MayScan(a: Account) {
    a.tier == "admin" || a.used < QuotaForTier(a.tier)
  }

  function Reserve(a: Account, now: int, next: int -> int): Account {
    var r := MaybeReset(a, now, next);
    if MayScan(r) then r.(used := r.used + 1) else r
  }

  datatype QuotaInfo = QuotaInfo(used: int, limit: nat, remaining: nat, reset: ResetTime, unlimited: bool)
  datatype CheckResult = Granted(info: QuotaInfo) | Exceeded(info: QuotaInfo) | UserNotFound

  /** What a client is told about its quota, in plain numbers. */
  predicate InfoIs(i: QuotaInfo, tier: string, used: int, reset: ResetTime) {
    && i.used == used && i.reset == reset && (i.unlimited <==> tier == "admin")
    && (tier == "free" ==> i.limit == 100)
    && (tier == "basic" ==> i.limit == 1000)
    && (tier == "pro" ==> i.limit == 10000)
    && (tier == "admin" ==> i.limit == 1073741824)
    && (tier !in {"free", "basic", "pro", "admin"} ==> i.limit == 100)
    && (used <= i.limit ==> used + i.remaining == i.limit)
    && (used > i.limit ==> i.remaining == 0)
  }

  class User {
    const tier: string
    var scanCount: int
    var monthReset: ResetTime

    constructor (tier: string)
      ensures this.tier == tier && scanCount == 0 && monthReset == Unset
    {
      this.tier := tier;
      scanCount := 0;
      monthReset := Unset;
    }

    function Value(): Account
      reads this
    {
      Account(tier, scanCount, monthReset)
    }
  }

  class Store {
    var users: map<string, User>
    const zone: int
    const calendar: Rules

    constructor (zone: int)
      ensures users == map[] && this.zone == zone && calendar == GREGORIAN && Good(calendar)
    {
      GregorianIsGood();
      users := map[];
      this.zone := zone;
      calendar := GREGORIAN;
    }

    method MaybeResetLocked(u: User, now: int)
      requires Good(calendar)
      modifies u
      ensures u.Value() == MaybeReset(old(u.Value()), now, ResetRule(calendar, zone))
    {
      if u.monthReset == Unset || now > u.monthReset.t {
        u.scanCount := 0;
        u.monthReset := At(NextMonthStart(calendar, now, zone));
      }
    }

    function Info(u: User): QuotaInfo
      reads this, u
    {
      var limit := QuotaForTier(u.tier);
      QuotaInfo(u.scanCount, limit, if limit > u.scanCount then limit - u.scanCount else 0,
                u.monthReset, u.tier == "admin")
    }

    /** Reading the quota resets a period that is over, and reserves nothing. */
    method Quota(key: string, now: int) returns (info: CheckResult)
      requires Good(calendar)
      modifies users.Values
      ensures key !in users ==> info == UserNotFound
      ensures key in users ==>
                && users[key].Value() == MaybeReset(old(users[key].Value()), now, ResetRule(calendar, zone))
                && info.Granted? && InfoIs(info.info, users[key].tier, users[key].scanCount, users[key].monthReset)
      ensures forall u :: u in users.Values && (key !in users || u != users[key]) ==> u.Value() == old(u.Value())
    {
      if key !in users {
        return UserNotFound;
      }
      MaybeResetLocked(users[key], now);
      info := Granted(Info(users[key]));
    }

    /** A slot is granted exactly when the account, reset if its period is over, may scan. */
    method CheckAndIncrementQuota(key: string, now: int) returns (r: CheckResult)
      requires Good(calendar)
      modifies users.Values
      ensures r.UserNotFound? <==> key !in users
      ensures key in users ==>
                && users[key].Value() == Reserve(old(users[key].Value()), now, ResetRule(calendar, zone))
                && (r.Granted? <==> MayScan(MaybeReset(old(users[key].Value()), now, ResetRule(calendar, zone))))
                && InfoIs(r.info, users[key].tier, users[key].scanCount, users[key].monthReset)
                && (var used := MaybeReset(old(users[key].Value()), now, ResetRule(calendar, zone)).used;
                    r.Granted? <==> users[key].tier == "admin" || used < r.info.limit)
                && (r.Exceeded? ==> r.info.remaining == 0)
      ensures forall u :: u in users.Values && (key !in users || u != users[key]) ==> u.Value() == old(u.Value())
    {
      if key !in users {
        return UserNotFound;
      }
      var u := users[key];
      MaybeResetLocked(u, now);
      if u.tier != "admin" && u.scanCount >= QuotaForTier(u.tier) {
        return Exceeded(Info(u));
      }
      u.scanCount := u.scanCount + 1;
      r := Granted(Info(u));
    }
  }

  // ------------------------------------------------------- the reset instant

  lemma NextMonthStartIs(c: Rules, now: int, zone: int)
    requires Good(c)
    ensures NextMonthStart(c, now, zone) == NextRung(c.start, now + zone * SECOND)
  {
    assert FieldsAgree(c, LocalMonth(c, now, zone));
  }

  /**
    The computed reset instant is not after now exactly when now's UTC month is later than its
    local month.
   */
  lemma ResetIsNotAfterNowIff(c: Rules, now: int, zone: int)
    requires Good(c)
    ensures NextMonthStart(c, now, zone) <= now <==> LocalMonth(c, now, 0) > LocalMonth(c, now, zone)
  {
    NextMonthStartIs(c, now, zone);
    NextRungPassedIff(c.start, now, now + zone * SECOND);
    assert now + 0 * SECOND == now;
  }

  // ------------------------------------------------------------------ runs

  /** A call on the account: a reservation, or a read of the quota. */
  datatype Call = Call(reserve: bool, at: int)

  function After(a: Account, next: int -> int, c: Call): Account {
    if c.reserve then Reserve(a, c.at, next) else MaybeReset(a, c.at, next)
  }

  /** Which calls of a run reserve a scan. */
  function Grants(a: Account, next: int -> int, calls: seq<Call>): (r: seq<bool>)
    ensures |r| == |calls|
    decreases calls
  {
    if calls == [] then []
    else [calls[0].reserve && MayScan(MaybeReset(a, calls[0].at, next))]
         + Grants(After(a, next, calls[0]), next, calls[1..])
  }

  /** The reservations granted after lo and not after hi. */
  function GrantedWithin(calls: seq<Call>, ok: seq<bool>, lo: int, hi: int): nat
    requires |calls| == |ok|
    decreases calls
  {
    if calls == [] then 0
    else (if ok[0] && lo < calls[0].at <= hi then 1 else 0) + GrantedWithin(calls[1..], ok[1..], lo, hi)
  }

  ghost function GrantedMask(calls: seq<Call>, ok: seq<bool>, lo: int, hi: int): seq<bool>
    requires |calls| == |ok|
  {
    seq(|calls|, i requires 0 <= i < |calls| => ok[i] && lo < calls[i].at <= hi)
  }

  lemma {:induction false} GrantedWithinIsCount(calls: seq<Call>, ok: seq<bool>, lo: int, hi: int)
    requires |calls| == |ok|
    ensures GrantedWithin(calls, ok, lo, hi) == CountTrue(GrantedMask(calls, ok, lo, hi))
    decreases calls
  {
    if calls != [] {
      GrantedWithinIsCount(calls[1..], ok[1..], lo, hi);
      assert GrantedMask(calls, ok, lo, hi)[1..] == GrantedMask(calls[1..], ok[1..], lo, hi);
    }
  }

  /** The count is the number of calls that are granted and fall in the interval. */
  lemma GrantedWithinCounts(calls: seq<Call>, ok: seq<bool>, lo: int, hi: int)
    requires |calls| == |ok|
    ensures GrantedWithin(calls, ok, lo, hi) == |set i | 0 <= i < |calls| && ok[i] && lo < calls[i].at <= hi|
  {
    GrantedWithinIsCount(calls, ok, lo, hi);
    CountIsSize(GrantedMask(calls, ok, lo, hi));
    assert TruePositions(GrantedMask(calls, ok, lo, hi)) == set i | 0 <= i < |calls| && ok[i] && lo < calls[i].at <= hi;
  }

  ghost predicate Sorted(calls: seq<Call>) {
    forall i, j :: 0 <= i < j < |calls| ==> calls[i].at <= calls[j].at
  }

  // ---------------------------------------------------- one reset per period

  /** Every reset computed inside the period (lo, hi] falls outside it. */
  ghost predicate ResetsOutside(next: int -> int, lo: int, hi: int) {
    && (forall t :: next(t) <= lo || hi <= next(t))
    && (forall t :: lo < t <= hi ==> hi <= next(t))
  }

  ghost predicate ResetOutside(a: Account, lo: int, hi: int) {
    a.reset == Unset || a.reset.t <= lo || hi <= a.reset.t
  }

  lemma {:induction false} NoneOutside(calls: seq<Call>, ok: seq<bool>, lo: int, hi: int)
    requires |calls| == |ok|
    requires forall i :: 0 <= i < |calls| ==> hi < calls[i].at
    ensures GrantedWithin(calls, ok, lo, hi) == 0
    decreases calls
  {
    if calls != [] {
      NoneOutside(calls[1..], ok[1..], lo, hi);
    }
  }

  function Left(a: Account): nat {
    if a.used < QuotaForTier(a.tier) then QuotaForTier(a.tier) - a.used else 0
  }

  /** Once the reset lies beyond the period, the period grants no more than what is left. */
  lemma {:induction false} GrantsUseUpTheQuota(a: Account, next: int -> int, calls: seq<Call>, lo: int, hi: int)
    requires a.tier != "admin" && a.reset.At? && hi <= a.reset.t && Sorted(calls)
    ensures GrantedWithin(calls, Grants(a, next, calls), lo, hi) <= Left(a)
    decreases calls
  {
    if calls != [] {
      var ok := Grants(a, next, calls);
      if calls[0].at > hi {
        NoneOutside(calls, ok, lo, hi);
      } else {
        var a' := After(a, next, calls[0]);
        assert ok[1..] == Grants(a', next, calls[1..]);
        GrantsUseUpTheQuota(a', next, calls[1..], lo, hi);
      }
    }
  }

  lemma {:induction false} PeriodGrantsAtMostTheQuota(a: Account, next: int -> int, calls: seq<Call>, lo: int, hi: int)
    requires a.tier != "admin" && a.used >= 0 && Sorted(calls)
    requires ResetsOutside(next, lo, hi) && ResetOutside(a, lo, hi)
    ensures GrantedWithin(calls, Grants(a, next, calls), lo, hi) <= QuotaForTier(a.tier)
    decreases calls
  {
    if calls != [] {
      var c := calls[0];
      var ok := Grants(a, next, calls);
      var a' := After(a, next, c);
      assert ok[1..] == Grants(a', next, calls[1..]);
      if c.at > hi {
        NoneOutside(calls, ok, lo, hi);
      } else if c.at <= lo {
        PeriodGrantsAtMostTheQuota(a', next, calls[1..], lo, hi);
      } else {
        assert a'.reset.At? && hi <= a'.reset.t;
        GrantsUseUpTheQuota(a', next, calls[1..], lo, hi);
      }
    }
  }

  // ------------------------------------------------------------- theorems

  ghost predicate FreshAccount(a: Account) {
    a.used == 0 && a.reset == Unset && a.tier != "admin"
  }

  ghost predicate PeriodRespectsQuota(a: Account, next: int -> int, calls: seq<Call>, lo: int, hi: int) {
    GrantedWithin(calls, Grants(a, next, calls), lo, hi) <= QuotaForTier(a.tier)
  }

  /** In every run from a fresh account, the period (lo, hi] grants no more than the quota. */
  ghost predicate Enforces(next: int -> int, lo: int, hi: int) {
    forall a, calls | FreshAccount(a) && Sorted(calls) :: PeriodRespectsQuota(a, next, calls, lo, hi)
  }

  /** The reset rule is "the next boundary as seen offset later". */
  ghost predicate LooksAhead(next: int -> int, start: int -> int, offset: int)
    requires Climbs(start)
  {
    forall t :: next(t) == NextRung(start, t + offset)
  }

  lemma LookingAheadEnforces(next: int -> int, start: int -> int, offset: int, m: int)
    requires Climbs(start) && LooksAhead(next, start, offset) && offset >= 0
    ensures Enforces(next, start(m), start(m + 1))
  {
    forall t ensures next(t) <= start(m) || start(m + 1) <= next(t) {
      NextRungIsBoundary(start, t + offset, m);
    }
    forall t | start(m) < t <= start(m + 1) ensures start(m + 1) <= next(t) {
      NextRungIsBoundary(start, t + offset, m);
    }
    forall a, calls | FreshAccount(a) && Sorted(calls)
      ensures PeriodRespectsQuota(a, next, calls, start(m), start(m + 1))
    {
      PeriodGrantsAtMostTheQuota(a, next, calls, start(m), start(m + 1));
    }
  }

  // ------------------------------------------------------- the stale window

  /** Every call is a reservation in the period, at an instant whose computed reset is past. */
  ghost predicate AllStale(next: int -> int, calls: seq<Call>, lo: int, hi: int) {
    forall i :: 0 <= i < |calls| ==> calls[i].reserve && lo < calls[i].at <= hi && next(calls[i].at) < calls[i].at
  }

  /** While the reset rule answers with the past, every reservation starts a new period. */
  lemma {:induction false} StaleCallsAreGranted(a: Account, next: int -> int, calls: seq<Call>, lo: int, hi: int)
    requires Sorted(calls) && AllStale(next, calls, lo, hi)
    requires calls == [] || a.reset == Unset || a.reset.t < calls[0].at
    ensures GrantedWithin(calls, Grants(a, next, calls), lo, hi) == |calls|
    decreases calls
  {
    if calls != [] {
      var a' := After(a, next, calls[0]);
      var rest := calls[1..];
      assert AllStale(next, rest, lo, hi) && Sorted(rest);
      assert rest != [] ==> rest[0] == calls[1];
      StaleCallsAreGranted(a', next, rest, lo, hi);
      assert Grants(a, next, calls)[1..] == Grants(a', next, rest);
    }
  }

  /** UTC has entered month m, the server's own calendar has not. */
  ghost predicate InStaleWindow(c: Rules, zone: int, m: int, t: int)
    requires Good(c)
  {
    c.start(m) < t <= c.start(m + 1) && LocalMonth(c, t, zone) < m
  }

  lemma WindowIsStale(c: Rules, zone: int, m: int, t: int)
    requires Good(c) && InStaleWindow(c, zone, m, t)
    ensures NextMonthStart(c, t, zone) < t
  {
    NextMonthStartIs(c, t, zone);
    ClimbsBy(c.start, LocalMonth(c, t, zone) + 1, m);
  }

  /**
    In the stale window of any month, any number of reservations at any instants are all
    granted, whatever the tier.
   */
  lemma StaleWindowIsUnlimited(c: Rules, zone: int, m: int, a: Account, calls: seq<Call>)
    requires Good(c) && Sorted(calls) && (calls == [] || a.reset == Unset || a.reset.t < calls[0].at)
    requires forall i :: 0 <= i < |calls| ==> calls[i].reserve && InStaleWindow(c, zone, m, calls[i].at)
    ensures GrantedWithin(calls, Grants(a, ResetRule(c, zone), calls), c.start(m), c.start(m + 1)) == |calls|
  {
    forall i | 0 <= i < |calls| ensures ResetRule(c, zone)(calls[i].at) < calls[i].at {
      WindowIsStale(c, zone, m, calls[i].at);
    }
    StaleCallsAreGranted(a, ResetRule(c, zone), calls, c.start(m), c.start(m + 1));
  }

  /** The window lasts from the UTC start of the month for as long as the zone is behind UTC. */
  lemma StaleWindowIs(c: Rules, zone: int, m: int, t: int)
    requires Good(c)
    ensures InStaleWindow(c, zone, m, t) <==> c.start(m) < t <= c.start(m + 1) && t < c.start(m) - zone * SECOND
  {
    RungIsUnique(c.start, t + zone * SECOND, m);
  }

  lemma WesternMonthOverruns(c: Rules, zone: int, m: int)
    requires Good(c) && zone < 0
    ensures !Enforces(ResetRule(c, zone), c.start(m), c.start(m + 1))
  {
    var a := Account("free", 0, Unset);
    var calls := seq(101, i => Call(true, c.start(m) + 1));
    assert StepUp(c.start, m);
    StaleWindowIs(c, zone, m, c.start(m) + 1);
    StaleWindowIsUnlimited(c, zone, m, a, calls);
    assert FreshAccount(a) && Sorted(calls);
    assert !PeriodRespectsQuota(a, ResetRule(c, zone), calls, c.start(m), c.start(m + 1));
  }

  // -------------------------------------------------------------- theorem

  lemma ResetRuleLooksAhead(c: Rules, zone: int)
    requires Good(c)
    ensures LooksAhead(ResetRule(c, zone), c.start, zone * SECOND)
  {
    forall t ensures ResetRule(c, zone)(t) == NextRung(c.start, t + zone * SECOND) {
      NextMonthStartIs(c, t, zone);
    }
  }

  /**
    In every single month the quota is enforced exactly on servers whose zone is not west of
    UTC: there, no run from a fresh account is granted more than the tier's quota; elsewhere
    some run of that very month is.
   */
  lemma QuotaEnforcedIff(c: Rules, zone: int, m: int)
    requires Good(c)
    ensures Enforces(ResetRule(c, zone), c.start(m), c.start(m + 1)) <==> zone >= 0
  {
    if zone >= 0 {
      ResetRuleLooksAhead(c, zone);
      LookingAheadEnforces(ResetRule(c, zone), c.start, zone * SECOND, m);
    } else {
      WesternMonthOverruns(c, zone, m);
    }
  }

  /** The same on the Gregorian calendar, with its leap years and December roll-over. */
  lemma GregorianQuotaEnforcedIff(zone: int, m: int)
    ensures Good(GREGORIAN)
    ensures Enforces(ResetRule(GREGORIAN, zone), GREGORIAN.start(m), GREGORIAN.start(m + 1)) <==> zone >= 0
  {
    GregorianIsGood();
    QuotaEnforcedIff(GREGORIAN, zone, m);
  }

  // ------------------------------------------------------- fair denials

  /** Call i is a reservation in (lo, hi] that is refused. */
  ghost predicate DeniedAt(calls: seq<Call>, ok: seq<bool>, i: nat, lo: int, hi: int) {
    i < |calls| == |ok| && calls[i].reserve && !ok[i] && lo < calls[i].at <= hi
  }

  /** In every run from a fresh account, a refusal in (lo, hi] means that [lo, hi] granted the quota. */
  ghost predicate DenialsAreFair(next: int -> int, lo: int, hi: int) {
    forall a, calls, i: nat | FreshAccount(a) && Sorted(calls) && DeniedAt(calls, Grants(a, next, calls), i, lo, hi) ::
      GrantedWithin(calls, Grants(a, next, calls), lo - 1, hi) >= QuotaForTier(a.tier)
  }

  /** If the reset lies beyond lo, all that was used was granted from lo on, where the run now stands. */
  ghost predicate PaidSince(a: Account, calls: seq<Call>, lo: int, granted: nat) {
    a.reset.At? && a.reset.t > lo ==> a.used <= granted && forall i :: 0 <= i < |calls| ==> lo <= calls[i].at
  }

  lemma PaidAfter(a: Account, next: int -> int, calls: seq<Call>, lo: int, hi: int, granted: nat)
    requires calls != [] && Sorted(calls) && calls[0].at <= hi && PaidSince(a, calls, lo, granted)
    requires forall t :: next(t) > lo ==> lo <= t
    ensures
      var c := calls[0];
      var ok := c.reserve && MayScan(MaybeReset(a, c.at, next));
      PaidSince(After(a, next, c), calls[1..], lo, granted + (if ok && lo - 1 < c.at <= hi then 1 else 0))
  {
    assert forall i :: 0 <= i < |calls[1..]| ==> calls[0].at <= calls[1..][i].at;
  }

  /** A refusal is paid for by grants since lo, if resets beyond lo are only computed from lo on. */
  lemma {:induction false} DenialIsPaid(a: Account, next: int -> int, calls: seq<Call>, i: nat, lo: int, hi: int, granted: nat)
    requires Sorted(calls) && PaidSince(a, calls, lo, granted)
    requires forall t :: next(t) > lo ==> lo <= t
    requires DeniedAt(calls, Grants(a, next, calls), i, lo, hi)
    ensures granted + GrantedWithin(calls, Grants(a, next, calls), lo - 1, hi) >= QuotaForTier(a.tier)
    decreases calls
  {
    if i > 0 {
      var c, ok := calls[0], Grants(a, next, calls);
      var a' := After(a, next, c);
      assert ok[1..] == Grants(a', next, calls[1..]);
      assert c.at <= calls[i].at;
      PaidAfter(a, next, calls, lo, hi, granted);
      DenialIsPaid(a', next, calls[1..], i - 1, lo, hi, granted + (if ok[0] && lo - 1 < c.at <= hi then 1 else 0));
    }
  }

  lemma LookingBackIsFair(next: int -> int, start: int -> int, offset: int, m: int)
    requires Climbs(start) && LooksAhead(next, start, offset) && offset <= 0
    ensures DenialsAreFair(next, start(m), start(m + 1))
  {
    forall t | next(t) > start(m) ensures start(m) <= t {
      NextRungIsBoundary(start, t + offset, m);
    }
    var lo, hi := start(m), start(m + 1);
    forall a, calls, i: nat | FreshAccount(a) && Sorted(calls) && DeniedAt(calls, Grants(a, next, calls), i, lo, hi)
      ensures GrantedWithin(calls, Grants(a, next, calls), lo - 1, hi) >= QuotaForTier(a.tier)
    {
      DenialIsPaid(a, next, calls, i, lo, hi, 0);
    }
  }

  /** The free quota used up at one instant, then one more call. */
  function Spree(t: int, n: nat, later: int): seq<Call> {
    seq(n, i => Call(true, t)) + [Call(true, later)]
  }

  /** While the reset lies beyond both instants, the spree uses up what is left and the last call is refused. */
  lemma {:induction false} SpreeIsRefused(a: Account, next: int -> int, t: int, n: nat, later: int)
    requires a.tier == "free" && 0 <= a.used == 100 - n && t <= later
    requires if a.reset == Unset then n == 100 && later <= next(t) else later <= a.reset.t
    ensures
      var calls := Spree(t, n, later);
      !Grants(a, next, calls)[n] && GrantedWithin(calls, Grants(a, next, calls), t, later) == 0
    decreases n
  {
    var calls := Spree(t, n, later);
    var ok := Grants(a, next, calls);
    if n > 0 {
      var a' := After(a, next, calls[0]);
      SpreeIsRefused(a', next, t, n - 1, later);
      assert calls[1..] == Spree(t, n - 1, later);
      assert ok[1..] == Grants(a', next, calls[1..]);
    } else {
      assert calls == [Call(true, later)];
      assert GrantedWithin(calls[1..], ok[1..], t, later) == 0;
    }
  }

  lemma LookingAheadIsUnfair(next: int -> int, start: int -> int, offset: int, m: int)
    requires Climbs(start) && LooksAhead(next, start, offset) && offset > 0
    ensures !DenialsAreFair(next, start(m), start(m + 1))
  {
    var a := Account("free", 0, Unset);
    var t, later := start(m) - 1, start(m) + 1;
    assert StepUp(start, m);
    NextRungIsBoundary(start, t + offset, m);
    SpreeIsRefused(a, next, t, 100, later);
    var calls := Spree(t, 100, later);
    assert FreshAccount(a) && Sorted(calls) && calls[100] == Call(true, later);
    WiderWindow(calls, Grants(a, next, calls), t, later, start(m + 1));
    assert DeniedAt(calls, Grants(a, next, calls), 100, start(m), start(m + 1));
  }

  lemma {:induction false} WiderWindow(calls: seq<Call>, ok: seq<bool>, lo: int, hi: int, wider: int)
    requires |calls| == |ok| && hi <= wider && forall i :: 0 <= i < |calls| ==> calls[i].at <= hi
    ensures GrantedWithin(calls, ok, lo, wider) == GrantedWithin(calls, ok, lo, hi)
    decreases calls
  {
    if calls != [] {
      WiderWindow(calls[1..], ok[1..], lo, hi, wider);
    }
  }

  /**
    The dual: in every single month, whoever is refused a scan has been granted the quota in
    that month, exactly on servers whose zone is not east of UTC. East of it, scans made before
    the month began can use up the month.
   */
  lemma DenialsAreFairIff(c: Rules, zone: int, m: int)
    requires Good(c)
    ensures DenialsAreFair(ResetRule(c, zone), c.start(m), c.start(m + 1)) <==> zone <= 0
  {
    ResetRuleLooksAhead(c, zone);
    if zone <= 0 {
      LookingBackIsFair(ResetRule(c, zone), c.start, zone * SECOND, m);
    } else {
      LookingAheadIsUnfair(ResetRule(c, zone), c.start, zone * SECOND, m);
    }
  }

  /** So a month of the Gregorian calendar means the quota, no more and no less, exactly on UTC servers. */
  lemma GregorianQuotaIsExactIff(zone: int, m: int)
    ensures Good(GREGORIAN)
    ensures
      var next, lo, hi := ResetRule(GREGORIAN, zone), GREGORIAN.start(m), GREGORIAN.start(m + 1);
      Enforces(next, lo, hi) && DenialsAreFair(next, lo, hi) <==> zone == 0
  {
    GregorianIsGood();
    QuotaEnforcedIff(GREGORIAN, zone, m);
    DenialsAreFairIff(GREGORIAN, zone, m);
  }
}
