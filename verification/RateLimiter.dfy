/** `keyedLimiter`: one token bucket a key, made when the key is first seen.

    The library's bucket is modelled in integer units: a token is `period` units and one
    unit is gained each tick of the clock.
  */
module RateLimiter {
  datatype Rate = Rate(period: nat, burst: nat)

  datatype Bucket = Bucket(level: nat, last: int)

  datatype Call = Call(key: string, now: int)

  function Min(a: int, b: int): int {
    if a < b then a else b
  }

  function Capacity(r: Rate): nat {
    r.burst * r.period
  }

  function NewBucket(r: Rate): Bucket {
    Bucket(Capacity(r), 0)
  }

  /** The level at `now`; a clock that went back gains nothing. */
  function Available(r: Rate, b: Bucket, now: int): nat {
    Min(Capacity(r), b.level + if now < b.last then 0 else now - b.last)
  }

  /** `Limiter.Allow`: a refused call leaves the bucket as it was. */
  function Take(r: Rate, b: Bucket, now: int): (bool, Bucket)
    requires r.period > 0
  {
    if Available(r, b, now) >= r.period then (true, Bucket(Available(r, b, now) - r.period, now)) else (false, b)
  }

  // ---------- One full bucket a key from the start ----------

  /** The bucket of `key` after the calls of `run`, had it been full from the start. */
  function BucketOf(r: Rate, run: seq<Call>, key: string): Bucket
    requires r.period > 0
  {
    if run == [] then NewBucket(r)
    else
      var before := BucketOf(r, run[..|run| - 1], key);
      if run[|run| - 1].key == key then Take(r, before, run[|run| - 1].now).1 else before
  }

  /** The answer to call `i`. */
  function Answer(r: Rate, run: seq<Call>, i: nat): bool
    requires r.period > 0 && i < |run|
  {
    Take(r, BucketOf(r, run[..i], run[i].key), run[i].now).0
  }

  class KeyedLimiter {
    var limiters: map<string, Bucket>
    const rate: Rate
    ghost var run: seq<Call>

    /** A bucket that is not there yet stands for a full one. */
    ghost predicate Valid()
      reads this
    {
      && rate.period > 0
      && (forall key | key in limiters :: limiters[key] == BucketOf(rate, run, key))
      && (forall key | key !in limiters :: BucketOf(rate, run, key) == NewBucket(rate))
    }

    constructor (rate: Rate)
      requires rate.period > 0
      ensures Valid() && this.rate == rate && run == []
    {
      this.rate := rate;
      limiters := map[];
      run := [];
    }

    /** What is done under the map's lock: other calls may come between it and `Take`. */
    method Find(key: string)
      requires Valid()
      modifies this`limiters
      ensures Valid() && key in limiters && old(limiters).Keys <= limiters.Keys
    {
      if key !in limiters { limiters := limiters[key := NewBucket(rate)]; }
    }

    /** What is done under the bucket's lock, for a time read before. */
    method TakeToken(key: string, now: int) returns (ok: bool)
      requires Valid() && key in limiters
      modifies this`limiters, this`run
      ensures Valid() && run == old(run) + [Call(key, now)] && old(limiters).Keys <= limiters.Keys
      ensures ok == Answer(rate, run, |old(run)|)
    {
      ghost var before := run;
      var (granted, bucket) := Take(rate, limiters[key], now);
      limiters := limiters[key := bucket];
      run := run + [Call(key, now)];
      ok := granted;
      assert run[..|before|] == before;
    }

    /** Every answer is that of a full bucket a key from the start; in order, a call is
        refused exactly when some window up to it is full. */
    method Allow(key: string, now: int) returns (ok: bool)
      requires Valid()
      modifies this
      ensures Valid() && run == old(run) + [Call(key, now)]
      ensures ok == Answer(rate, run, |old(run)|)
      ensures InTimeOrder(run, key) ==> (!ok <==> exists from :: WindowFull(rate, old(run), key, from, now))
    {
      Find(key);
      ghost var before := run;
      ok := TakeToken(key, now);
      if InTimeOrder(run, key) { RefusedExactly(rate, before, key, now); }
    }
  }

  /** The calls for one key. */
  function Only(run: seq<Call>, key: string): seq<Call> {
    if run == [] then []
    else Only(run[..|run| - 1], key) + if run[|run| - 1].key == key then [run[|run| - 1]] else []
  }

  /** What others ask changes nothing for a key: its calls are answered as if they were the
      only ones. */
  lemma {:induction false} KeysIndependent(r: Rate, run: seq<Call>, key: string)
    requires r.period > 0
    ensures BucketOf(r, run, key) == BucketOf(r, Only(run, key), key)
    ensures run != [] && run[|run| - 1].key == key ==>
              Only(run, key) != [] &&
              Answer(r, run, |run| - 1) == Answer(r, Only(run, key), |Only(run, key)| - 1)
  {
    if run == [] {
    } else {
      var most := run[..|run| - 1];
      KeysIndependent(r, most, key);
      if run[|run| - 1].key == key {
        assert Only(run, key)[..|Only(most, key)|] == Only(most, key);
      } else {
        assert Only(run, key) == Only(most, key);
      }
    }
  }

  // ---------- The bound ----------

  /** How many calls of `key` at times `from` to `to` were granted. */
  function Granted(r: Rate, run: seq<Call>, key: string, from: int, to: int): nat
    requires r.period > 0
  {
    if run == [] then 0
    else
      var n := |run| - 1;
      Granted(r, run[..n], key, from, to) +
      if run[n].key == key && from <= run[n].now <= to && Answer(r, run, n) then 1 else 0
  }

  /** By how much granted calls of `key` went back in time, from the first grant in the
      window on: `Allow` reads the clock before it takes the bucket's lock, so calls can reach
      the bucket in another order than that of their times. */
  function Back(r: Rate, run: seq<Call>, key: string, from: int, to: int): nat
    requires r.period > 0
  {
    if run == [] then 0
    else
      var n := |run| - 1;
      var last := BucketOf(r, run[..n], key).last;
      Back(r, run[..n], key, from, to) +
      if run[n].key == key && Answer(r, run, n) && Granted(r, run[..n], key, from, to) > 0 && run[n].now < last
      then last - run[n].now else 0
  }

  /** What one call does to a bucket, whichever way the clock went. */
  lemma TakePays(r: Rate, b: Bucket, now: int)
    requires r.period > 0
    ensures var (ok, b') := Take(r, b, now);
            && (!ok ==> b' == b)
            && (ok ==> b'.last == now && b'.level + r.period <= Capacity(r))
            && (ok ==> r.period + b'.level - b'.last <= b.level - b.last + if now < b.last then b.last - now else 0)
  {
  }

  /** From the first grant in the window on, what was granted there and what is left exceed a
      full bucket by no more than the time gone and the steps back, in whatever order calls
      inside and outside the window come. */
  lemma {:induction false} Potential(r: Rate, run: seq<Call>, key: string, from: int, to: int)
    requires r.period > 0 && Granted(r, run, key, from, to) > 0
    ensures var b := BucketOf(r, run, key);
            Granted(r, run, key, from, to) * r.period + b.level
            <= Capacity(r) + (b.last - from) + Back(r, run, key, from, to)
  {
    var n := |run| - 1;
    var most, c := run[..n], run[n];
    var b, g := BucketOf(r, most, key), Granted(r, most, key, from, to);
    if g > 0 { Potential(r, most, key, from, to); }
    if c.key == key && Answer(r, run, n) {
      TakePays(r, b, c.now);
      OneMore(g, r.period);
    }
  }

  lemma OneMore(g: nat, p: nat)
    ensures (g + 1) * p == g * p + p && 0 * p == 0
  {
  }

  lemma DivideBound(g: nat, burst: nat, period: nat, time: nat)
    requires period > 0 && g * period <= burst * period + time
    ensures g <= burst + time / period
  {
    var q := time / period;
    assert time < (q + 1) * period;
    assert (burst + q + 1) * period == burst * period + (q + 1) * period;
    if g >= burst + q + 1 {
      MulMonotone(burst + q + 1, g, period);
    }
  }

  lemma MulMonotone(x: nat, y: nat, p: nat)
    requires x <= y
    ensures x * p <= y * p
  {
  }

  /** In any window, whatever the order of the calls, a key is granted at most the burst and
      what the window and the steps back refill. */
  lemma {:induction false} WindowBoundAnyOrder(r: Rate, run: seq<Call>, key: string, from: int, to: int)
    requires r.period > 0 && from <= to
    ensures Granted(r, run, key, from, to) <= r.burst + (to - from + Back(r, run, key, from, to)) / r.period
  {
    if run == [] {
    } else {
      var n := |run| - 1;
      var most, back := run[..n], Back(r, run, key, from, to);
      if Granted(r, most, key, from, to) == Granted(r, run, key, from, to) {
        WindowBoundAnyOrder(r, most, key, from, to);
        QuotientMonotone(to - from + Back(r, most, key, from, to), to - from + back, r.period);
      } else {
        Potential(r, run, key, from, to);
        assert BucketOf(r, run, key).last == run[n].now;
        DivideBound(Granted(r, run, key, from, to), r.burst, r.period, to - from + back);
      }
    }
  }

  lemma QuotientMonotone(x: nat, y: nat, p: nat)
    requires x <= y && p > 0
    ensures x / p <= y / p
  {
    assert x / p * p <= x;
    DivideBound(x / p, 0, p, y);
  }

  // ---------- Order ----------

  /** Two granted calls of `key` that reached the bucket against the order of their times. */
  predicate Inverted(r: Rate, run: seq<Call>, key: string, i: int, j: int)
    requires r.period > 0
  {
    && 0 <= i < j < |run| && run[i].key == key && run[j].key == key && run[j].now < run[i].now
    && Answer(r, run, i) && Answer(r, run, j)
  }

  /** Granted calls of `key` take effect in the order of their times. */
  ghost predicate InOrder(r: Rate, run: seq<Call>, key: string)
    requires r.period > 0
  {
    forall i, j :: !Inverted(r, run, key, i, j)
  }

  lemma AnswerOfPrefix(r: Rate, run: seq<Call>, n: nat, i: nat)
    requires r.period > 0 && i < n <= |run|
    ensures Answer(r, run[..n], i) == Answer(r, run, i)
  {
    assert run[..n][..i] == run[..i];
  }

  lemma InOrderPrefix(r: Rate, run: seq<Call>, key: string, n: nat)
    requires r.period > 0 && n <= |run| && InOrder(r, run, key)
    ensures InOrder(r, run[..n], key)
  {
    forall i, j ensures !Inverted(r, run[..n], key, i, j) {
      if 0 <= i < j < n {
        AnswerOfPrefix(r, run, n, i);
        AnswerOfPrefix(r, run, n, j);
        assert !Inverted(r, run, key, i, j);
      }
    }
  }

  /** A bucket remembers the time of the last grant. */
  lemma {:induction false} LastGrant(r: Rate, run: seq<Call>, key: string, from: int, to: int) returns (i: nat)
    requires r.period > 0 && Granted(r, run, key, from, to) > 0
    ensures i < |run| && run[i].key == key && Answer(r, run, i) && run[i].now == BucketOf(r, run, key).last
  {
    var n := |run| - 1;
    if run[n].key == key && Answer(r, run, n) {
      i := n;
    } else {
      i := LastGrant(r, run[..n], key, from, to);
      AnswerOfPrefix(r, run, n, i);
    }
  }

  lemma {:induction false} InOrderNoBack(r: Rate, run: seq<Call>, key: string, from: int, to: int)
    requires r.period > 0 && InOrder(r, run, key)
    ensures Back(r, run, key, from, to) == 0
  {
    if run == [] {
    } else {
      var n := |run| - 1;
      InOrderPrefix(r, run, key, n);
      InOrderNoBack(r, run[..n], key, from, to);
      if run[n].key == key && Answer(r, run, n) && Granted(r, run[..n], key, from, to) > 0 {
        var i := LastGrant(r, run[..n], key, from, to);
        AnswerOfPrefix(r, run, n, i);
        assert !Inverted(r, run, key, i, n);
      }
    }
  }

  /** `Granted` keeps the bound of the window. */
  predicate Bounded(r: Rate, run: seq<Call>, key: string, from: int, to: int)
    requires r.period > 0 && from <= to
  {
    Granted(r, run, key, from, to) <= r.burst + (to - from) / r.period
  }

  /** When the grants of a key come in the order of their times, whatever other keys do, it
      is granted at most the burst and one call a period in any window. */
  lemma WindowBound(r: Rate, run: seq<Call>, key: string, from: int, to: int)
    requires r.period > 0 && from <= to && InOrder(r, run, key)
    ensures Bounded(r, run, key, from, to)
  {
    InOrderNoBack(r, run, key, from, to);
    WindowBoundAnyOrder(r, run, key, from, to);
  }

  // ---------- Which rates keep the bound in every order ----------

  /** A granted call leaves `rest`. */
  lemma AppendGrant(r: Rate, run: seq<Call>, now: int, to: int, b: Bucket, rest: nat)
    requires r.period > 0 && 0 <= now <= to && BucketOf(r, run, "k") == b
    requires b.level + (if now < b.last then 0 else now - b.last) == rest + r.period <= Capacity(r)
    ensures var run' := run + [Call("k", now)];
            && BucketOf(r, run', "k") == Bucket(rest, now)
            && Granted(r, run', "k", 0, to) == Granted(r, run, "k", 0, to) + 1
  {
    assert Available(r, b, now) == rest + r.period;
    assert (run + [Call("k", now)])[..|run|] == run;
  }

  /** A bucket with as many tokens left as may be granted. */
  lemma Tokens(r: Rate, n: nat)
    requires r.period > 0 && 0 < n <= r.burst
    ensures n * r.period == (n - 1) * r.period + r.period <= Capacity(r) && (n - 1) * r.period >= 0
  {
    MulMonotone(n, r.burst, r.period);
  }

  function AtZero(n: nat): seq<Call> {
    if n == 0 then [] else AtZero(n - 1) + [Call("k", 0)]
  }

  lemma {:induction false} AtZeroGranted(r: Rate, n: nat, left: nat, to: nat)
    requires r.period > 0 && n + left == r.burst
    ensures BucketOf(r, AtZero(n), "k") == Bucket(left * r.period, 0)
    ensures Granted(r, AtZero(n), "k", 0, to) == n
    decreases n
  {
    if n == 0 {
    } else {
      AtZeroGranted(r, n - 1, left + 1, to);
      Tokens(r, left + 1);
      AppendGrant(r, AtZero(n - 1), 0, to, Bucket((left + 1) * r.period, 0), left * r.period);
    }
  }

  /** Three more calls, of which the first two are swapped by a single tick. */
  function Swapped(run: seq<Call>, p: nat): seq<Call> {
    run + [Call("k", p)] + [Call("k", p - 1)] + [Call("k", 2 * p - 1)]
  }

  /** The three calls after `run`, which left one token: two of them out of order. */
  lemma SwappedGranted(r: Rate, run: seq<Call>, p: nat)
    requires p == r.period > 0 && 2 * p <= Capacity(r) && BucketOf(r, run, "k") == Bucket(p, 0)
    ensures var to := 2 * p - 1;
            Granted(r, Swapped(run, p), "k", 0, to) == Granted(r, run, "k", 0, to) + 3
  {
    var to := 2 * p - 1;
    AppendGrant(r, run, p, to, Bucket(p, 0), p);
    AppendGrant(r, run + [Call("k", p)], p - 1, to, Bucket(p, p), 0);
    AppendGrant(r, run + [Call("k", p)] + [Call("k", p - 1)], to, to, Bucket(0, p - 1), 0);
  }

  lemma AllButOne(r: Rate, to: nat)
    requires r.period > 0 && r.burst >= 2
    ensures BucketOf(r, AtZero(r.burst - 1), "k") == Bucket(r.period, 0)
    ensures Granted(r, AtZero(r.burst - 1), "k", 0, to) == r.burst - 1 && 2 * r.period <= Capacity(r)
  {
    AtZeroGranted(r, r.burst - 1, 1, to);
    Tokens(r, 2);
  }

  lemma SwappedExceeds(r: Rate, run: seq<Call>, p: nat)
    requires p == r.period > 0 && 2 * p <= Capacity(r) && BucketOf(r, run, "k") == Bucket(p, 0)
    requires Granted(r, run, "k", 0, 2 * p - 1) == r.burst - 1
    ensures !Bounded(r, Swapped(run, p), "k", 0, 2 * p - 1)
  {
    SwappedGranted(r, run, p);
    OneQuotient(p);
  }

  /** With a burst of two or more, an inversion of one tick is enough to exceed the bound:
      all but one of the burst at once, and then the swapped calls. */
  lemma OneTickExceeds(r: Rate)
    requires r.period > 0 && r.burst >= 2
    ensures !Bounded(r, Swapped(AtZero(r.burst - 1), r.period), "k", 0, 2 * r.period - 1)
  {
    AllButOne(r, 2 * r.period - 1);
    SwappedExceeds(r, AtZero(r.burst - 1), r.period);
  }

  lemma OneQuotient(p: nat)
    requires p > 0
    ensures (2 * p - 1) / p == 1
  {
  }

  lemma {:induction false} LevelAfterGrant(r: Rate, run: seq<Call>, key: string, from: int, to: int)
    requires r.period > 0 && Granted(r, run, key, from, to) > 0
    ensures BucketOf(r, run, key).level + r.period <= Capacity(r)
  {
    var n := |run| - 1;
    TakePays(r, BucketOf(r, run[..n], key), run[n].now);
    if Granted(r, run[..n], key, from, to) > 0 { LevelAfterGrant(r, run[..n], key, from, to); }
  }

  /** With a burst of one nothing is ever granted at a step back. */
  lemma {:induction false} SmallBurstNoBack(r: Rate, run: seq<Call>, key: string, from: int, to: int)
    requires r.period > 0 && r.burst <= 1
    ensures Back(r, run, key, from, to) == 0
  {
    if run == [] {
    } else {
      var n := |run| - 1;
      SmallBurstNoBack(r, run[..n], key, from, to);
      assert Capacity(r) <= r.period by { MulMonotone(r.burst, 1, r.period); }
      if Granted(r, run[..n], key, from, to) > 0 { LevelAfterGrant(r, run[..n], key, from, to); }
    }
  }

  /** The bound of the window holds whatever the order of the calls exactly for rates with a
      burst of at most one; the limiters of the server have bursts from 10 to 60. */
  lemma BoundedInAnyOrderExactly(r: Rate)
    requires r.period > 0
    ensures (forall run, key, from, to | from <= to :: Bounded(r, run, key, from, to)) <==> r.burst <= 1
  {
    if r.burst <= 1 {
      forall run, key, from, to | from <= to ensures Bounded(r, run, key, from, to) {
        SmallBurstNoBack(r, run, key, from, to);
        WindowBoundAnyOrder(r, run, key, from, to);
      }
    } else {
      OneTickExceeds(r);
    }
  }

  /** A key that exceeded the bound had two grants out of order. */
  lemma ExceededMeansInverted(r: Rate, run: seq<Call>, key: string, from: int, to: int)
    requires r.period > 0 && from <= to && !Bounded(r, run, key, from, to)
    ensures exists i, j :: Inverted(r, run, key, i, j)
  {
    if InOrder(r, run, key) { WindowBound(r, run, key, from, to); }
  }

  // ---------- Exactly when a call is refused ----------

  /** The calls of `key` come in the order of their times. */
  ghost predicate InTimeOrder(run: seq<Call>, key: string) {
    forall i, j | 0 <= i < j < |run| && run[i].key == key && run[j].key == key :: run[i].now <= run[j].now
  }

  /** In the window from `from` to `now`, `key` has already been granted all that the burst
      and the refill of the window allow. */
  predicate WindowFull(r: Rate, run: seq<Call>, key: string, from: int, now: int)
    requires r.period > 0
  {
    from <= now && Granted(r, run, key, from, now) >= r.burst + (now - from) / r.period
  }

  /** Since `from`, when the bucket was full, nothing of its refill has been lost. */
  predicate NothingSpilt(r: Rate, run: seq<Call>, key: string, from: int)
    requires r.period > 0
  {
    var b := BucketOf(r, run, key);
    from <= b.last && Granted(r, run, key, from, b.last) * r.period + b.level >= Capacity(r) + (b.last - from)
  }

  lemma {:induction false} GrantedMore(r: Rate, run: seq<Call>, key: string, from: int, to: int, later: int)
    requires r.period > 0 && to <= later
    ensures Granted(r, run, key, from, to) <= Granted(r, run, key, from, later)
  {
    if run != [] { GrantedMore(r, run[..|run| - 1], key, from, to, later); }
  }

  /** One more call of `key` at `now`. */
  lemma SpillStep(r: Rate, run: seq<Call>, key: string, now: int, from: int)
    requires r.period > 0 && NothingSpilt(r, run, key, from) && BucketOf(r, run, key).last <= now
    requires Take(r, BucketOf(r, run, key), now).0
    requires Available(r, BucketOf(r, run, key), now) < Capacity(r)
    ensures NothingSpilt(r, run + [Call(key, now)], key, from)
  {
    var run', b := run + [Call(key, now)], BucketOf(r, run, key);
    assert run'[..|run|] == run;
    var g := Granted(r, run, key, from, now);
    GrantedMore(r, run, key, from, b.last, now);
    MulMonotone(Granted(r, run, key, from, b.last), g, r.period);
    OneMore(g, r.period);
  }

  lemma FullStep(r: Rate, run: seq<Call>, key: string, now: int)
    requires r.period > 0 && Take(r, BucketOf(r, run, key), now).0
    requires Available(r, BucketOf(r, run, key), now) == Capacity(r)
    ensures NothingSpilt(r, run + [Call(key, now)], key, now)
  {
    var run' := run + [Call(key, now)];
    assert run'[..|run|] == run;
    MulMonotone(1, Granted(r, run', key, now, now), r.period);
  }

  /** A key whose calls come in order has a full bucket, or one that has lost nothing since
      some grant. */
  lemma {:induction false} FullOrNothingSpilt(r: Rate, run: seq<Call>, key: string)
    requires r.period > 0 && InTimeOrder(run, key)
    ensures BucketOf(r, run, key) == NewBucket(r) || exists from :: NothingSpilt(r, run, key, from)
    ensures BucketOf(r, run, key) == NewBucket(r) ||
            exists i :: 0 <= i < |run| && run[i].key == key && run[i].now == BucketOf(r, run, key).last
  {
    if run != [] {
      var n := |run| - 1;
      var most, c := run[..n], run[n];
      assert run == most + [c];
      FullOrNothingSpilt(r, most, key);
      var b := BucketOf(r, most, key);
      if c.key == key && Take(r, b, c.now).0 {
        if Available(r, b, c.now) == Capacity(r) {
          FullStep(r, most, key, c.now);
        } else {
          var from :| NothingSpilt(r, most, key, from);
          SpillStep(r, most, key, c.now, from);
        }
      } else if from :| NothingSpilt(r, most, key, from) {
        assert NothingSpilt(r, run, key, from);
      }
    }
  }

  lemma RoundUp(g: nat, burst: nat, p: nat, t: nat)
    requires p > 0 && (g + 1) * p > burst * p + t
    ensures g >= burst + t / p
  {
    var q := t / p;
    assert q * p <= t;
    assert (burst + q) * p == burst * p + q * p;
    if g < burst + q { MulMonotone(g + 1, burst + q, p); }
  }

  lemma RefusedMeansFull(r: Rate, run: seq<Call>, key: string, now: int)
    requires r.period > 0 && InTimeOrder(run + [Call(key, now)], key) && !Take(r, BucketOf(r, run, key), now).0
    ensures exists from :: WindowFull(r, run, key, from, now)
  {
    var run', b := run + [Call(key, now)], BucketOf(r, run, key);
    assert forall i | 0 <= i < |run| :: run'[i] == run[i];
    assert run'[|run|] == Call(key, now);
    assert InTimeOrder(run, key);
    if r.burst == 0 {
      assert (now - now) / r.period == 0;
      assert WindowFull(r, run, key, now, now);
    } else {
      MulMonotone(1, r.burst, r.period);
      FullOrNothingSpilt(r, run, key);
      var from :| NothingSpilt(r, run, key, from);
      FullSince(r, run, key, from, now);
    }
  }

  lemma FullSince(r: Rate, run: seq<Call>, key: string, from: int, now: int)
    requires r.period > 0 && NothingSpilt(r, run, key, from)
    requires var b := BucketOf(r, run, key); b.last <= now && b.level + (now - b.last) < r.period
    ensures WindowFull(r, run, key, from, now)
  {
    var b, g := BucketOf(r, run, key), Granted(r, run, key, from, now);
    GrantedMore(r, run, key, from, b.last, now);
    MulMonotone(Granted(r, run, key, from, b.last), g, r.period);
    OneMore(g, r.period);
    RoundUp(g, r.burst, r.period, now - from);
  }

  lemma FullMeansRefused(r: Rate, run: seq<Call>, key: string, from: int, now: int)
    requires r.period > 0 && InTimeOrder(run + [Call(key, now)], key) && WindowFull(r, run, key, from, now)
    ensures !Take(r, BucketOf(r, run, key), now).0
  {
    var run' := run + [Call(key, now)];
    assert run'[..|run|] == run;
    assert InOrder(r, run', key);
    WindowBound(r, run', key, from, now);
  }

  /** When the calls of a key come in the order of their times, one is refused exactly when
      some window up to it is full: none is refused without need. */
  lemma RefusedExactly(r: Rate, run: seq<Call>, key: string, now: int)
    requires r.period > 0 && InTimeOrder(run + [Call(key, now)], key)
    ensures !Answer(r, run + [Call(key, now)], |run|) <==> exists from :: WindowFull(r, run, key, from, now)
  {
    assert (run + [Call(key, now)])[..|run|] == run;
    if !Take(r, BucketOf(r, run, key), now).0 { RefusedMeansFull(r, run, key, now); }
    forall from | WindowFull(r, run, key, from, now) ensures !Take(r, BucketOf(r, run, key), now).0 {
      FullMeansRefused(r, run, key, from, now);
    }
  }
}
