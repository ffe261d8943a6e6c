/** The per-key token bucket. Times are in seconds and tokens are reals. */
module TokenBucket {
  import opened Sequences

  datatype Bucket = Absent | Bucket(tokens: real, lastFill: real)

  /** Tokens earned over a stretch of time. */
  function Earned(rate: real, window: real, elapsed: real): real
    requires window > 0.0
  {
    (elapsed / window) * rate
  }

  /** The tokens a call at time now finds, after the refill. */
  function Available(b: Bucket, rate: real, window: real, now: real): real
    requires window > 0.0
  {
    match b
    case Absent => rate
    case Bucket(tokens, last) =>
      var refill := Earned(rate, window, now - last);
      if tokens + refill > rate then rate else tokens + refill
  }

  function Allowed(b: Bucket, rate: real, window: real, now: real): bool
    requires window > 0.0
  {
    Available(b, rate, window, now) >= 1.0
  }

  function After(b: Bucket, rate: real, window: real, now: real): Bucket
    requires window > 0.0
  {
    var t := Available(b, rate, window, now);
    Bucket(if t < 1.0 then t else t - 1.0, now)
  }

  class Auth {
    var buckets: map<string, Bucket>
    const window: real

    constructor (window: real)
      requires window > 0.0
      ensures Valid() && buckets == map[] && this.window == window
    {
      buckets := map[];
      this.window := window;
    }

    ghost predicate Valid()
      reads this
    {
      window > 0.0 && forall k :: k in buckets ==> buckets[k].Bucket?
    }

    ghost function BucketOf(key: string): Bucket
      reads this
    {
      Lookup(buckets, key)
    }

    /** One call: only the caller's own bucket changes. */
    method Allow(key: string, rate: int, now: real) returns (ok: bool)
      requires Valid()
      modifies this
      ensures Valid()
      ensures ok == Allowed(old(BucketOf(key)), rate as real, window, now)
      ensures BucketOf(key) == After(old(BucketOf(key)), rate as real, window, now)
      ensures forall k :: k != key ==> BucketOf(k) == old(BucketOf(k))
    {
      var b := if key in buckets then buckets[key] else Bucket(rate as real, now);
      var elapsed := now - b.lastFill;
      var refill := (elapsed / window) * (rate as real);
      var tokens := b.tokens + refill;
      if b.tokens + refill > rate as real {
        tokens := rate as real;
      }
      if tokens < 1.0 {
        buckets := buckets[key := Bucket(tokens, now)];
        return false;
      }
      buckets := buckets[key := Bucket(tokens - 1.0, now)];
      return true;
    }
  }

  // -------------------------------------------------------- arithmetic of refills

  lemma EarnedAdds(rate: real, window: real, a: real, b: real)
    requires window > 0.0
    ensures Earned(rate, window, a + b) == Earned(rate, window, a) + Earned(rate, window, b)
    ensures Earned(rate, window, 0.0) == 0.0
  {
    assert (a + b) / window == a / window + b / window;
  }

  lemma EarnedNonnegative(rate: real, window: real, a: real)
    requires window > 0.0 && rate >= 0.0 && a >= 0.0
    ensures Earned(rate, window, a) >= 0.0
  {
    assert a / window >= 0.0;
  }

  ghost predicate FilledBy(b: Bucket, t: real) {
    b.Bucket? ==> b.lastFill <= t
  }

  /** Waiting from t to u earns at most the rate's worth, and loses nothing. */
  lemma AvailableGrows(b: Bucket, rate: real, window: real, t: real, u: real)
    requires window > 0.0 && rate >= 0.0 && t <= u && FilledBy(b, t)
    ensures Available(b, rate, window, u) <= Available(b, rate, window, t) + Earned(rate, window, u - t)
    ensures Available(b, rate, window, t) <= Available(b, rate, window, u)
    ensures b.Bucket? ==>
              (var next := Available(b, rate, window, t) + Earned(rate, window, u - t);
               Available(b, rate, window, u) == if next > rate then rate else next)
  {
    EarnedNonnegative(rate, window, u - t);
    if b.Bucket? {
      EarnedAdds(rate, window, t - b.lastFill, u - t);
      assert (t - b.lastFill) + (u - t) == u - b.lastFill;
    }
  }

  /** Lazy refill is exact: refilling at t and then at u is refilling once at u. */
  lemma LazyRefillIsExact(b: Bucket, rate: real, window: real, t: real, u: real)
    requires window > 0.0 && rate >= 0.0 && t <= u && FilledBy(b, t)
    ensures Available(Bucket(Available(b, rate, window, t), t), rate, window, u) == Available(b, rate, window, u)
  {
    AvailableGrows(b, rate, window, t, u);
    EarnedNonnegative(rate, window, u - t);
  }

  // ------------------------------------------------------------------- runs

  ghost predicate Nondecreasing(times: seq<real>) {
    forall i, j :: 0 <= i < j < |times| ==> times[i] <= times[j]
  }

  /** The decisions on a sequence of calls of one key at a fixed rate. */
  function Decisions(b: Bucket, rate: real, window: real, times: seq<real>): (r: seq<bool>)
    requires window > 0.0
    ensures |r| == |times|
    decreases times
  {
    if times == [] then []
    else [Allowed(b, rate, window, times[0])]
         + Decisions(After(b, rate, window, times[0]), rate, window, times[1..])
  }

  /** How many of the calls between s and e were allowed. */
  function AllowedWithin(times: seq<real>, ok: seq<bool>, s: real, e: real): nat
    requires |times| == |ok|
    decreases times
  {
    if times == [] then 0
    else (if ok[0] && s <= times[0] <= e then 1 else 0) + AllowedWithin(times[1..], ok[1..], s, e)
  }

  ghost function AllowedMask(times: seq<real>, ok: seq<bool>, s: real, e: real): seq<bool>
    requires |times| == |ok|
  {
    seq(|times|, i requires 0 <= i < |times| => ok[i] && s <= times[i] <= e)
  }

  lemma {:induction false} AllowedWithinIsCount(times: seq<real>, ok: seq<bool>, s: real, e: real)
    requires |times| == |ok|
    ensures AllowedWithin(times, ok, s, e) == CountTrue(AllowedMask(times, ok, s, e))
    decreases times
  {
    if times != [] {
      AllowedWithinIsCount(times[1..], ok[1..], s, e);
      assert AllowedMask(times, ok, s, e)[1..] == AllowedMask(times[1..], ok[1..], s, e);
    }
  }

  /** The count is the number of calls that are allowed and fall in the interval. */
  lemma AllowedWithinCounts(times: seq<real>, ok: seq<bool>, s: real, e: real)
    requires |times| == |ok|
    ensures AllowedWithin(times, ok, s, e) == |set i | 0 <= i < |times| && ok[i] && s <= times[i] <= e|
  {
    AllowedWithinIsCount(times, ok, s, e);
    CountIsSize(AllowedMask(times, ok, s, e));
    assert TruePositions(AllowedMask(times, ok, s, e)) == set i | 0 <= i < |times| && ok[i] && s <= times[i] <= e;
  }

  /** A burst at one instant: of n calls on a new key exactly the first rate are allowed. */
  lemma {:induction false} BurstIsCut(b: Bucket, rate: nat, window: real, t: real, left: nat, n: nat, i: nat)
    requires window > 0.0 && left <= rate && i < n
    requires if b == Absent then left == rate else b == Bucket(left as real, t)
    ensures Decisions(b, rate as real, window, seq(n, k => t))[i] <==> i < left
    decreases n
  {
    var times := seq(n, k => t);
    EarnedAdds(rate as real, window, 0.0, 0.0);
    assert Available(b, rate as real, window, t) == left as real;
    if i > 0 {
      var b' := After(b, rate as real, window, t);
      assert times[1..] == seq(n - 1, k => t);
      assert Decisions(b, rate as real, window, times)[1..] == Decisions(b', rate as real, window, times[1..]);
      BurstIsCut(b', rate, window, t, if left == 0 then 0 else left - 1, n - 1, i - 1);
    }
  }

  lemma {:induction false} NoneAfterTheEnd(times: seq<real>, ok: seq<bool>, s: real, e: real)
    requires |times| == |ok|
    requires forall i :: 0 <= i < |times| ==> times[i] > e
    ensures AllowedWithin(times, ok, s, e) == 0
    decreases times
  {
    if times != [] {
      NoneAfterTheEnd(times[1..], ok[1..], s, e);
    }
  }

  /** From time t on, the calls allowed until e are paid for by the tokens at hand and those earned. */
  lemma {:induction false} SpendingIsBounded(b: Bucket, rate: real, window: real, times: seq<real>, t: real, s: real, e: real)
    requires window > 0.0 && rate >= 0.0 && FilledBy(b, t) && t <= e
    requires Nondecreasing(times) && (times != [] ==> t <= times[0])
    ensures AllowedWithin(times, Decisions(b, rate, window, times), s, e) as real
            <= PositivePart(Available(b, rate, window, t)) + Earned(rate, window, e - t)
    decreases times
  {
    EarnedNonnegative(rate, window, e - t);
    if times != [] {
      var u := times[0];
      var ok := Decisions(b, rate, window, times);
      var b' := After(b, rate, window, u);
      assert ok[1..] == Decisions(b', rate, window, times[1..]);
      if u > e {
        NoneAfterTheEnd(times, ok, s, e);
      } else {
        SpendingIsBounded(b', rate, window, times[1..], u, s, e);
        AvailableGrows(b, rate, window, t, u);
        EarnedAdds(rate, window, u - t, e - u);
        EarnedAdds(rate, window, 0.0, 0.0);
        assert (u - t) + (e - u) == e - t;
        EarnedNonnegative(rate, window, u - t);
        AfterAvailable(b, rate, window, u);
      }
    }
  }

  function PositivePart(x: real): real {
    if x < 0.0 then 0.0 else x
  }

  lemma AfterAvailable(b: Bucket, rate: real, window: real, u: real)
    requires window > 0.0 && rate >= 0.0
    ensures
      var have := Available(b, rate, window, u);
      && have <= rate
      && Available(After(b, rate, window, u), rate, window, u) == if have < 1.0 then have else have - 1.0
  {
    EarnedAdds(rate, window, 0.0, 0.0);
  }

  /** Whatever happened before s, the calls allowed between s and e are paid for by a full bucket and what it earns. */
  lemma {:induction false} SpendingWithin(b: Bucket, rate: real, window: real, times: seq<real>, s: real, e: real)
    requires window > 0.0 && rate >= 0.0 && s <= e
    requires Nondecreasing(times) && (times != [] ==> FilledBy(b, times[0]))
    ensures AllowedWithin(times, Decisions(b, rate, window, times), s, e) as real <= rate + Earned(rate, window, e - s)
    decreases times
  {
    EarnedNonnegative(rate, window, e - s);
    if times != [] {
      var u := times[0];
      var ok := Decisions(b, rate, window, times);
      if u < s {
        assert ok[1..] == Decisions(After(b, rate, window, u), rate, window, times[1..]);
        SpendingWithin(After(b, rate, window, u), rate, window, times[1..], s, e);
      } else if u <= e {
        SpendingIsBounded(b, rate, window, times, u, s, e);
        AfterAvailable(b, rate, window, u);
        EarnedAdds(rate, window, u - s, e - u);
        EarnedNonnegative(rate, window, u - s);
        assert (u - s) + (e - u) == e - s;
      } else {
        NoneAfterTheEnd(times, ok, s, e);
      }
    }
  }

  /**
    The window bound: whatever happened before, the calls of one key allowed between s and e
    number at most rate + (e - s) / window * rate.
   */
  lemma WindowBound(b: Bucket, rate: real, window: real, times: seq<real>, s: real, e: real)
    requires window > 0.0 && rate >= 0.0 && s <= e
    requires Nondecreasing(times) && (times != [] ==> FilledBy(b, times[0]))
    ensures AllowedWithin(times, Decisions(b, rate, window, times), s, e) as real <= rate + ((e - s) / window) * rate
  {
    SpendingWithin(b, rate, window, times, s, e);
  }

  // ------------------------------------------------ denied calls leave no trace

  function Keep<T>(s: seq<T>, mask: seq<bool>): seq<T>
    requires |s| == |mask|
    decreases s
  {
    if s == [] then [] else (if mask[0] then [s[0]] else []) + Keep(s[1..], mask[1..])
  }

  ghost predicate SameFuture(a: Bucket, b: Bucket, rate: real, window: real, t: real)
    requires window > 0.0
  {
    FilledBy(a, t) && FilledBy(b, t) && Available(a, rate, window, t) == Available(b, rate, window, t)
  }

  lemma SameFutureLasts(a: Bucket, b: Bucket, rate: real, window: real, t: real, u: real)
    requires window > 0.0 && rate >= 0.0 && t <= u && SameFuture(a, b, rate, window, t)
    ensures SameFuture(a, b, rate, window, u)
  {
    AvailableGrows(a, rate, window, t, u);
    AvailableGrows(b, rate, window, t, u);
    AfterAvailable(a, rate, window, t);
    EarnedNonnegative(rate, window, u - t);
  }

  /**
    Deleting denied calls from a run, any of them, leaves every other decision as it was.
   */
  lemma {:induction false} DeniedCallsLeaveNoTrace(
      a: Bucket, b: Bucket, rate: real, window: real, times: seq<real>, keep: seq<bool>, t: real)
    requires window > 0.0 && rate >= 0.0 && SameFuture(a, b, rate, window, t)
    requires Nondecreasing(times) && (times != [] ==> t <= times[0]) && |keep| == |times|
    requires forall i :: 0 <= i < |times| ==> keep[i] || !Decisions(a, rate, window, times)[i]
    ensures Decisions(b, rate, window, Keep(times, keep)) == Keep(Decisions(a, rate, window, times), keep)
    decreases times
  {
    if times != [] {
      var u := times[0];
      var ok := Decisions(a, rate, window, times);
      var a' := After(a, rate, window, u);
      assert ok[1..] == Decisions(a', rate, window, times[1..]);
      assert forall i :: 0 <= i < |times| - 1 ==> keep[1..][i] || !ok[1..][i];
      SameFutureLasts(a, b, rate, window, t, u);
      AfterAvailable(a, rate, window, u);
      AfterAvailable(b, rate, window, u);
      if keep[0] {
        DeniedCallsLeaveNoTrace(a', After(b, rate, window, u), rate, window, times[1..], keep[1..], u);
        var kept := Keep(times, keep);
        assert kept[0] == u && kept[1..] == Keep(times[1..], keep[1..]);
      } else {
        assert !ok[0];
        DeniedCallsLeaveNoTrace(a', b, rate, window, times[1..], keep[1..], u);
        assert Keep(times, keep) == Keep(times[1..], keep[1..]);
        assert Keep(ok, keep) == Keep(ok[1..], keep[1..]);
      }
    }
  }

  // ------------------------------------------------------- a patient caller

  /** A caller that spaces its requests at least window / rate apart is never denied. */
  lemma {:induction false} SpacedCallerIsNeverDenied(b: Bucket, rate: real, window: real, times: seq<real>)
    requires window > 0.0 && rate >= 1.0
    requires forall i :: 0 <= i < |times| - 1 ==> times[i + 1] - times[i] >= window / rate
    requires times != [] ==> Allowed(b, rate, window, times[0])
    ensures forall i :: 0 <= i < |times| ==> Decisions(b, rate, window, times)[i]
    decreases times
  {
    if |times| > 1 {
      var b' := After(b, rate, window, times[0]);
      var gap := times[1] - times[0];
      AfterAvailable(b, rate, window, times[0]);
      OneTokenPerGap(rate, window, gap);
      assert Allowed(b', rate, window, times[1]);
      var rest := times[1..];
      forall i | 0 <= i < |rest| - 1 ensures rest[i + 1] - rest[i] >= window / rate {
        assert times[(i + 1) + 1] - times[i + 1] >= window / rate;
      }
      SpacedCallerIsNeverDenied(b', rate, window, rest);
    }
  }

  lemma OneTokenPerGap(rate: real, window: real, gap: real)
    requires window > 0.0 && rate >= 1.0 && gap >= window / rate
    ensures Earned(rate, window, gap) >= 1.0
  {
    var unit := window / rate;
    assert unit * rate == window;
    assert (unit / window) * rate == 1.0;
    EarnedAdds(rate, window, unit, gap - unit);
    EarnedNonnegative(rate, window, gap - unit);
    assert unit + (gap - unit) == gap;
  }

  // ------------------------------------------------------------ several keys

  datatype Call = Call(key: string, rate: int, at: real)

  function Lookup(buckets: map<string, Bucket>, key: string): Bucket {
    if key in buckets then buckets[key] else Absent
  }

  function Serve(buckets: map<string, Bucket>, window: real, calls: seq<Call>): (r: seq<bool>)
    requires window > 0.0
    ensures |r| == |calls|
    decreases calls
  {
    if calls == [] then []
    else
      var c := calls[0];
      var b := Lookup(buckets, c.key);
      [Allowed(b, c.rate as real, window, c.at)]
      + Serve(buckets[c.key := After(b, c.rate as real, window, c.at)], window, calls[1..])
  }

  function OfKey(calls: seq<Call>, key: string): (m: seq<bool>)
    ensures |m| == |calls|
  {
    seq(|calls|, i requires 0 <= i < |calls| => calls[i].key == key)
  }

  function TimesOf(calls: seq<Call>, key: string): seq<real>
    decreases calls
  {
    if calls == [] then []
    else (if calls[0].key == key then [calls[0].at] else []) + TimesOf(calls[1..], key)
  }

  /** A key's decisions are those of its own calls alone: other keys never change them. */
  lemma {:induction false} KeysAreIndependent(
      buckets: map<string, Bucket>, window: real, calls: seq<Call>, key: string, rate: int)
    requires window > 0.0
    requires forall i :: 0 <= i < |calls| && calls[i].key == key ==> calls[i].rate == rate
    ensures Keep(Serve(buckets, window, calls), OfKey(calls, key))
         == Decisions(Lookup(buckets, key), rate as real, window, TimesOf(calls, key))
    decreases calls
  {
    if calls != [] {
      var c := calls[0];
      var b := Lookup(buckets, c.key);
      var next := buckets[c.key := After(b, c.rate as real, window, c.at)];
      KeysAreIndependent(next, window, calls[1..], key, rate);
      var ok, mask := Serve(buckets, window, calls), OfKey(calls, key);
      assert ok[1..] == Serve(next, window, calls[1..]);
      assert mask[1..] == OfKey(calls[1..], key);
      if c.key == key {
        var times := TimesOf(calls, key);
        assert times[0] == c.at && times[1..] == TimesOf(calls[1..], key);
      } else {
        assert TimesOf(calls, key) == TimesOf(calls[1..], key);
        assert Keep(ok, mask) == Keep(ok[1..], mask[1..]);
      }
    }
  }

  lemma {:induction false} TimesOfSorted(calls: seq<Call>, key: string, lo: real)
    requires forall i, j :: 0 <= i < j < |calls| ==> calls[i].at <= calls[j].at
    requires forall i :: 0 <= i < |calls| ==> lo <= calls[i].at
    ensures Nondecreasing(TimesOf(calls, key))
    ensures forall i :: 0 <= i < |TimesOf(calls, key)| ==> lo <= TimesOf(calls, key)[i]
    decreases calls
  {
    if calls != [] {
      TimesOfSorted(calls[1..], key, calls[0].at);
    }
  }

  lemma LimiterSpending(window: real, calls: seq<Call>, key: string, rate: nat, s: real, e: real)
    requires window > 0.0 && s <= e
    requires forall i, j :: 0 <= i < j < |calls| ==> calls[i].at <= calls[j].at
    requires forall i :: 0 <= i < |calls| && calls[i].key == key ==> calls[i].rate == rate
    ensures
      var times, ok := TimesOf(calls, key), Keep(Serve(map[], window, calls), OfKey(calls, key));
      |times| == |ok| && AllowedWithin(times, ok, s, e) as real <= rate as real + Earned(rate as real, window, e - s)
  {
    if calls != [] {
      TimesOfSorted(calls, key, calls[0].at);
    }
    KeysAreIndependent(map[], window, calls, key, rate);
    SpendingWithin(Absent, rate as real, window, TimesOf(calls, key), s, e);
  }

  /** The window bound for one key of a limiter that serves any mix of keys. */
  lemma LimiterWindowBound(window: real, calls: seq<Call>, key: string, rate: nat, s: real, e: real)
    requires window > 0.0 && s <= e
    requires forall i, j :: 0 <= i < j < |calls| ==> calls[i].at <= calls[j].at
    requires forall i :: 0 <= i < |calls| && calls[i].key == key ==> calls[i].rate == rate
    ensures
      var times, ok := TimesOf(calls, key), Keep(Serve(map[], window, calls), OfKey(calls, key));
      |times| == |ok| && AllowedWithin(times, ok, s, e) as real <= rate as real + ((e - s) / window) * (rate as real)
  {
    LimiterSpending(window, calls, key, rate, s, e);
  }
}
