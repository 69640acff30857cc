/**
 * The in-memory rate limiter (src/lib/rate-limit.ts): a fixed window per key that opens at the key's
 * first hit, with a sweep that deletes expired buckets at most once a minute. Times are whole
 * milliseconds.
 */
module RateLimit {

  datatype Bucket = Bucket(count: nat, resetAt: int)

  type Buckets = map<string, Bucket>

  /** The module's two variables. */
  datatype Limiter = Limiter(buckets: Buckets, lastSweep: int)

  datatype Hit = Hit(key: string, max: nat, windowMs: int, now: int)

  datatype Answer = Answer(ok: bool, retryAfter: int)

  const SWEEP_MS := 60000

  /** `Math.ceil(ms / 1000)`. */
  function CeilSeconds(ms: int): int { -((-ms) / 1000) }

  /** `sweepExpired`. */
  function Sweep(l: Limiter, now: int): Limiter {
    if now - l.lastSweep < SWEEP_MS then l
    else Limiter(map k | k in l.buckets && now < l.buckets[k].resetAt :: l.buckets[k], now)
  }

  function Opens(b: Buckets, h: Hit): bool { h.key !in b || h.now >= b[h.key].resetAt }

  /** What the rest of `rateLimit` leaves for the key. */
  function Counted(b: Buckets, h: Hit): Buckets {
    if Opens(b, h) then b[h.key := Bucket(1, h.now + h.windowMs)]
    else b[h.key := Bucket(b[h.key].count + 1, b[h.key].resetAt)]
  }

  function Reply(b: Buckets, h: Hit): Answer {
    if Opens(b, h) then Answer(true, 0)
    else if b[h.key].count + 1 > h.max then Answer(false, CeilSeconds(b[h.key].resetAt - h.now))
    else Answer(true, 0)
  }

  /**
   * A hit is refused exactly when its window is open and has had `max` hits. The wait it is told is at least a second,
   * and the fewest whole seconds after which the window is over: by then a hit passes, and up to a second before it does not.
   */
  lemma RetryAfterIsExact(b: Buckets, h: Hit, later: Hit)
    requires later.key == h.key && later.max == h.max && later.now >= h.now
    ensures Reply(b, h).ok <==> h.key !in b || h.now >= b[h.key].resetAt || b[h.key].count < h.max
    ensures Reply(b, h).ok ==> Reply(b, h).retryAfter == 0
    ensures !Reply(b, h).ok ==>
              var wait := Reply(b, h).retryAfter;
              && wait >= 1
              && (later.now >= h.now + 1000 * wait ==> Reply(Counted(b, h), later).ok)
              && (later.now <= h.now + 1000 * (wait - 1) ==> !Reply(Counted(b, h), later).ok)
  {
    if !Reply(b, h).ok { CeilIsLeast(b[h.key].resetAt - h.now); }
  }

  lemma CeilIsLeast(ms: int)
    ensures 1000 * (CeilSeconds(ms) - 1) < ms <= 1000 * CeilSeconds(ms)
  {
  }

  /** The answers of the limiter to a run of hits. */
  function Answers(l: Limiter, hits: seq<Hit>): (r: seq<Answer>)
    ensures |r| == |hits|
    decreases |hits|
  {
    if hits == [] then []
    else
      var swept := Sweep(l, hits[0].now);
      [Reply(swept.buckets, hits[0])] + Answers(swept.(buckets := Counted(swept.buckets, hits[0])), hits[1..])
  }

  /** A sweep deletes expired buckets and no others, and two of them are at least a minute apart. */
  lemma SweepIsRare(l: Limiter, now: int, later: int)
    ensures forall k :: k in l.buckets && k !in Sweep(l, now).buckets ==> l.buckets[k].resetAt <= now
    ensures forall k :: k in Sweep(l, now).buckets ==> k in l.buckets && Sweep(l, now).buckets[k] == l.buckets[k]
    ensures now >= l.lastSweep + 60000 ==> forall k :: k in Sweep(l, now).buckets ==> now < l.buckets[k].resetAt
    ensures now < l.lastSweep + 60000 ==> Sweep(l, now) == l
    ensures now >= l.lastSweep + 60000 && later < now + 60000 ==> Sweep(Sweep(l, now), later) == Sweep(l, now)
  {
  }

  /** The answers of a limiter that never deletes a bucket. */
  function Unswept(b: Buckets, hits: seq<Hit>): (r: seq<Answer>)
    ensures |r| == |hits|
    decreases |hits|
  {
    if hits == [] then [] else [Reply(b, hits[0])] + Unswept(Counted(b, hits[0]), hits[1..])
  }

  ghost predicate Ordered(hits: seq<Hit>) {
    forall i, j :: 0 <= i < j < |hits| ==> hits[i].now <= hits[j].now
  }

  // ------------------------------------------------------------------------------------------
  // When the sweep shows
  // ------------------------------------------------------------------------------------------

  /** The swept buckets are some of the unswept ones. */
  ghost predicate Within(s: Buckets, u: Buckets) { forall k :: k in s ==> k in u && s[k] == u[k] }

  /** The hit comes before the end of a window whose bucket was deleted. */
  predicate IsEarly(s: Buckets, u: Buckets, h: Hit) { h.key !in s && h.key in u && h.now < u[h.key].resetAt }

  /** The limiter after one hit. */
  function AfterHit(l: Limiter, h: Hit): Limiter {
    var swept := Sweep(l, h.now);
    swept.(buckets := Counted(swept.buckets, h))
  }

  /** Some hit of the run is early. */
  predicate HasEarly(l: Limiter, u: Buckets, hits: seq<Hit>)
    decreases |hits|
  {
    hits != [] && (IsEarly(Sweep(l, hits[0].now).buckets, u, hits[0]) || HasEarly(AfterHit(l, hits[0]), Counted(u, hits[0]), hits[1..]))
  }

  /** A hit that is not early is answered alike and leaves the swept buckets within the others. */
  lemma NotEarlyAgrees(l: Limiter, u: Buckets, h: Hit)
    requires Within(l.buckets, u) && !IsEarly(Sweep(l, h.now).buckets, u, h)
    ensures Reply(Sweep(l, h.now).buckets, h) == Reply(u, h) && Within(AfterHit(l, h).buckets, Counted(u, h))
  {
  }

  /** Without an early hit, every answer is that of the limiter that never sweeps, whatever the clock does. */
  lemma {:induction false} NoEarlyNoDifference(l: Limiter, u: Buckets, hits: seq<Hit>)
    requires Within(l.buckets, u) && !HasEarly(l, u, hits)
    ensures Answers(l, hits) == Unswept(u, hits)
    decreases |hits|
  {
    if hits != [] {
      NotEarlyAgrees(l, u, hits[0]);
      NoEarlyNoDifference(AfterHit(l, hits[0]), Counted(u, hits[0]), hits[1..]);
    }
  }

  /** The same hits with other limits. */
  function Limited(hits: seq<Hit>, limits: seq<nat>): (r: seq<Hit>)
    requires |limits| == |hits|
    ensures |r| == |hits|
    decreases |hits|
  {
    if hits == [] then [] else [hits[0].(max := limits[0])] + Limited(hits[1..], limits[1..])
  }

  /** Limits do not change what is stored, so they make no hit early. */
  lemma {:induction false} LimitsMakeNoneEarly(l: Limiter, u: Buckets, hits: seq<Hit>, limits: seq<nat>)
    requires |limits| == |hits|
    ensures HasEarly(l, u, Limited(hits, limits)) <==> HasEarly(l, u, hits)
    decreases |hits|
  {
    if hits != [] {
      var h := hits[0].(max := limits[0]);
      assert Limited(hits, limits)[1..] == Limited(hits[1..], limits[1..]);
      assert AfterHit(l, h) == AfterHit(l, hits[0]) && Counted(u, h) == Counted(u, hits[0]);
      LimitsMakeNoneEarly(AfterHit(l, hits[0]), Counted(u, hits[0]), hits[1..], limits[1..]);
    }
  }

  lemma FirstAnswers(l: Limiter, u: Buckets, hits: seq<Hit>)
    requires hits != []
    ensures Answers(l, hits)[0] == Reply(Sweep(l, hits[0].now).buckets, hits[0]) && Unswept(u, hits)[0] == Reply(u, hits[0])
    ensures Answers(l, hits)[1..] == Answers(AfterHit(l, hits[0]), hits[1..])
    ensures Unswept(u, hits)[1..] == Unswept(Counted(u, hits[0]), hits[1..])
  {
  }

  /** An early hit is let through, and refused without the sweep once its limit is what the bucket holds. */
  lemma {:induction false} EarlyHitShows(l: Limiter, u: Buckets, hits: seq<Hit>) returns (limits: seq<nat>)
    requires Within(l.buckets, u) && HasEarly(l, u, hits)
    ensures |limits| == |hits| && Answers(l, Limited(hits, limits)) != Unswept(u, Limited(hits, limits))
    decreases |hits|
  {
    var h := hits[0];
    if IsEarly(Sweep(l, h.now).buckets, u, h) {
      limits := [u[h.key].count] + seq(|hits| - 1, _ => 0);
      var first := Limited(hits, limits)[0];
      assert first == h.(max := u[h.key].count);
      FirstAnswers(l, u, Limited(hits, limits));
    } else {
      NotEarlyAgrees(l, u, h);
      var rest := EarlyHitShows(AfterHit(l, h), Counted(u, h), hits[1..]);
      limits := [h.max] + rest;
      assert limits[1..] == rest && h.(max := h.max) == h;
      assert Limited(hits, limits) == [h] + Limited(hits[1..], rest);
      assert ([h] + Limited(hits[1..], rest))[1..] == Limited(hits[1..], rest);
      FirstAnswers(l, u, Limited(hits, limits));
    }
  }

  /**
   * Exactly when the sweep shows: under every choice of limits the answers are those of a limiter that never sweeps
   * if and only if no hit comes before the end of a window whose bucket a sweep has deleted.
   */
  lemma SweepShowsIff(l: Limiter, u: Buckets, hits: seq<Hit>)
    requires Within(l.buckets, u)
    ensures (forall limits: seq<nat> :: |limits| == |hits| ==>
               Answers(l, Limited(hits, limits)) == Unswept(u, Limited(hits, limits)))
            <==> !HasEarly(l, u, hits)
  {
    if HasEarly(l, u, hits) {
      var limits := EarlyHitShows(l, u, hits);
    } else {
      forall limits: seq<nat> | |limits| == |hits|
        ensures Answers(l, Limited(hits, limits)) == Unswept(u, Limited(hits, limits))
      {
        LimitsMakeNoneEarly(l, u, hits, limits);
        NoEarlyNoDifference(l, u, Limited(hits, limits));
      }
    }
  }

  /** What was deleted had expired by `bound`. */
  ghost predicate Agree(s: Buckets, u: Buckets, bound: int) {
    Within(s, u) && forall k :: k in u && k !in s ==> u[k].resetAt <= bound
  }

  /** No hit is earlier than the sweep before it; `bound` is when that was. */
  ghost predicate NotBeforeSweeps(bound: int, last: int, hits: seq<Hit>)
    decreases |hits|
  {
    hits != [] ==>
      var now := hits[0].now;
      now >= bound && if now - last < SWEEP_MS then NotBeforeSweeps(bound, last, hits[1..])
                      else NotBeforeSweeps(now, now, hits[1..])
  }

  lemma AgreeAfterHit(l: Limiter, u: Buckets, bound: int, h: Hit)
    requires Agree(l.buckets, u, bound) && bound <= h.now
    ensures !IsEarly(Sweep(l, h.now).buckets, u, h)
    ensures Agree(AfterHit(l, h).buckets, Counted(u, h), if h.now - l.lastSweep < SWEEP_MS then bound else h.now)
  {
  }

  /** When no hit is earlier than the last sweep, none is early. */
  lemma {:induction false} NoneIsEarly(l: Limiter, u: Buckets, bound: int, hits: seq<Hit>)
    requires Agree(l.buckets, u, bound) && NotBeforeSweeps(bound, l.lastSweep, hits)
    ensures !HasEarly(l, u, hits)
    decreases |hits|
  {
    if hits != [] {
      var h := hits[0];
      AgreeAfterHit(l, u, bound, h);
      NoneIsEarly(AfterHit(l, h), Counted(u, h), if h.now - l.lastSweep < SWEEP_MS then bound else h.now, hits[1..]);
    }
  }

  /** So while no hit is earlier than the last sweep, every answer is that of the limiter that never sweeps. */
  lemma SweepIsUnobservable(l: Limiter, u: Buckets, bound: int, hits: seq<Hit>)
    requires Agree(l.buckets, u, bound) && NotBeforeSweeps(bound, l.lastSweep, hits)
    ensures Answers(l, hits) == Unswept(u, hits)
  {
    NoneIsEarly(l, u, bound, hits);
    NoEarlyNoDifference(l, u, hits);
  }

  /** A clock that never goes back makes no hit earlier than a sweep. */
  lemma {:induction false} OrderedIsNotBefore(bound: int, last: int, hits: seq<Hit>)
    requires Ordered(hits) && (hits != [] ==> bound <= hits[0].now)
    ensures NotBeforeSweeps(bound, last, hits)
    decreases |hits|
  {
    if hits != [] {
      var now := hits[0].now;
      if now - last < SWEEP_MS { OrderedIsNotBefore(bound, last, hits[1..]); } else { OrderedIsNotBefore(now, now, hits[1..]); }
    }
  }

  /** After a sweep, a clock that goes back reopens a window that was full. */
  lemma BackwardClockIsObservable()
    ensures var hits := [Hit("a", 1, 100000, 0), Hit("b", 1, 1, 100000), Hit("a", 1, 100000, 50)];
            Answers(Limiter(map[], 0), hits)[2].ok && !Unswept(map[], hits)[2].ok
  {
    var h0, h1, h2 := Hit("a", 1, 100000, 0), Hit("b", 1, 1, 100000), Hit("a", 1, 100000, 50);
    var hits := [h0, h1, h2];
    assert hits[1..] == [h1, h2] && hits[1..][1..] == [h2];
    assert "a" != "b";
    var l0 := Limiter(map[], 0);
    var s0 := Sweep(l0, 0);
    var l1 := s0.(buckets := Counted(s0.buckets, h0));
    assert l1.buckets["a"] == Bucket(1, 100000);
    var s1 := Sweep(l1, 100000);
    assert "a" !in s1.buckets;
    var l2 := s1.(buckets := Counted(s1.buckets, h1));
    assert "a" !in Sweep(l2, 50).buckets;
    assert Answers(l0, hits)[2] == Answers(l1, hits[1..])[1] == Answers(l2, [h2])[0] == Reply(Sweep(l2, 50).buckets, h2);
    var u1 := Counted(map[], h0);
    var u2 := Counted(u1, h1);
    assert u2["a"] == Bucket(1, 100000);
    assert Unswept(map[], hits)[2] == Unswept(u1, hits[1..])[1] == Unswept(u2, [h2])[0] == Reply(u2, h2);
  }

  // ------------------------------------------------------------------------------------------
  // How many hits get through
  // ------------------------------------------------------------------------------------------

  /** The allowed hits on `key` at times in [from, until). */
  function Allowed(hits: seq<Hit>, answers: seq<Answer>, key: string, from: int, until: int): nat
    requires |hits| == |answers|
  {
    if hits == [] then 0
    else
      (if hits[0].key == key && answers[0].ok && from <= hits[0].now < until then 1 else 0)
      + Allowed(hits[1..], answers[1..], key, from, until)
  }

  lemma {:induction false} NoneAfterEnd(hits: seq<Hit>, answers: seq<Answer>, key: string, from: int, until: int)
    requires |hits| == |answers| && forall i :: 0 <= i < |hits| ==> hits[i].now >= until
    ensures Allowed(hits, answers, key, from, until) == 0
  {
    if hits != [] {
      NoneAfterEnd(hits[1..], answers[1..], key, from, until);
    }
  }

  function Left(max: nat, count: nat): nat { if count <= max then max - count else 0 }

  /** How many more hits the key's bucket lets through in [from, from + window). */
  function Room(b: Buckets, key: string, max: nat, from: int, window: nat): nat
    requires max >= 1
  {
    if key !in b || b[key].resetAt < from then 2 * max - 1
    else if b[key].resetAt < from + window then Left(max, b[key].count) + max
    else Left(max, b[key].count)
  }

  /** All hits on the key use the same limit, as a call site does. */
  ghost predicate FixedLimit(hits: seq<Hit>, key: string, max: nat, window: nat) {
    forall i :: 0 <= i < |hits| && hits[i].key == key ==> hits[i].max == max && hits[i].windowMs == window
  }

  lemma {:induction false} RoomBounds(b: Buckets, hits: seq<Hit>, key: string, max: nat, window: nat, from: int)
    requires max >= 1 && Ordered(hits) && FixedLimit(hits, key, max, window)
    requires key in b ==> b[key].count >= 1
    ensures Allowed(hits, Unswept(b, hits), key, from, from + window) <= Room(b, key, max, from, window)
    decreases |hits|
  {
    if hits != [] {
      var h := hits[0];
      var rest := Unswept(Counted(b, h), hits[1..]);
      assert Unswept(b, hits)[1..] == rest;
      RoomBounds(Counted(b, h), hits[1..], key, max, window, from);
      if h.key == key && h.now >= from + window {
        NoneAfterEnd(hits[1..], rest, key, from, from + window);
      }
    }
  }

  /**
   * Over any run, any half-open interval of one window's length holds at most 2 * max - 1 allowed hits
   * of a key: the windows are fixed, so two of them can meet in it, but not both of their first hits.
   */
  lemma AtMostTwoWindows(hits: seq<Hit>, key: string, max: nat, window: nat, from: int)
    requires max >= 1 && Ordered(hits) && FixedLimit(hits, key, max, window)
    ensures Allowed(hits, Answers(Limiter(map[], 0), hits), key, from, from + window) <= 2 * max - 1
  {
    var first := if hits == [] then 0 else hits[0].now;
    OrderedIsNotBefore(first, 0, hits);
    SweepIsUnobservable(Limiter(map[], 0), map[], first, hits);
    RoomBounds(map[], hits, key, max, window, from);
  }

  // ------------------------------------------------------------------------------------------
  // The bound is reached
  // ------------------------------------------------------------------------------------------

  function Burst(key: string, max: nat, window: nat, now: int, n: nat): seq<Hit> {
    seq(n, _ => Hit(key, max, window, now))
  }

  /** A burst into an open window gets through as long as there is room. */
  lemma {:induction false} BurstGoesThrough(b: Buckets, key: string, max: nat, window: nat, now: int, n: nat, rest: seq<Hit>, from: int, until: int)
    requires key in b && now < b[key].resetAt && b[key].count + n <= max && from <= now < until
    ensures var b' := b[key := Bucket(b[key].count + n, b[key].resetAt)];
            var hits := Burst(key, max, window, now, n) + rest;
            Allowed(hits, Unswept(b, hits), key, from, until) == n + Allowed(rest, Unswept(b', rest), key, from, until)
    decreases n
  {
    var hits := Burst(key, max, window, now, n) + rest;
    if n == 0 {
      assert hits == rest;
      assert b[key := Bucket(b[key].count + 0, b[key].resetAt)] == b;
    } else {
      var h := Hit(key, max, window, now);
      var b1 := Counted(b, h);
      assert hits[1..] == Burst(key, max, window, now, n - 1) + rest;
      assert b1[key := Bucket(b1[key].count + (n - 1), b1[key].resetAt)] == b[key := Bucket(b[key].count + n, b[key].resetAt)];
      BurstGoesThrough(b1, key, max, window, now, n - 1, rest, from, until);
      assert Unswept(b, hits)[1..] == Unswept(b1, hits[1..]);
    }
  }

  /** One hit opens a window, max - 1 more come at its end, and max at the start of the next. */
  function WorstRun(key: string, max: nat, window: nat): seq<Hit>
    requires max >= 1
  {
    [Hit(key, max, window, 0)]
    + (Burst(key, max, window, window - 1, max - 1)
       + SecondWindow(key, max, window))
  }

  /** A first hit, or one after the window's end, gets through and opens a window. */
  lemma OpeningGoesThrough(b: Buckets, h: Hit, rest: seq<Hit>, from: int, until: int)
    requires Opens(b, h)
    ensures var hits := [h] + rest; var b' := b[h.key := Bucket(1, h.now + h.windowMs)];
            Allowed(hits, Unswept(b, hits), h.key, from, until) ==
              (if from <= h.now < until then 1 else 0) + Allowed(rest, Unswept(b', rest), h.key, from, until)
  {
    assert ([h] + rest)[1..] == rest;
    assert Unswept(b, [h] + rest)[1..] == Unswept(Counted(b, h), rest);
  }

  lemma WorstRunIsOrdered(key: string, max: nat, window: nat)
    requires max >= 1 && window >= 2
    ensures Ordered(WorstRun(key, max, window)) && FixedLimit(WorstRun(key, max, window), key, max, window)
  {
  }

  lemma TwoWindowsAreReached(key: string, max: nat, window: nat)
    requires max >= 1 && window >= 2
    ensures Ordered(WorstRun(key, max, window)) && FixedLimit(WorstRun(key, max, window), key, max, window)
    ensures Allowed(WorstRun(key, max, window), Answers(Limiter(map[], 0), WorstRun(key, max, window)), key, 1, 1 + window)
              == 2 * max - 1
  {
    WorstRunIsOrdered(key, max, window);
    OrderedIsNotBefore(0, 0, WorstRun(key, max, window));
    SweepIsUnobservable(Limiter(map[], 0), map[], 0, WorstRun(key, max, window));
    var second := SecondWindow(key, max, window);
    var first := Burst(key, max, window, window - 1, max - 1) + second;
    OpeningGoesThrough(map[], Hit(key, max, window, 0), first, 1, 1 + window);
    var b1: Buckets := map[][key := Bucket(1, window)];
    BurstGoesThrough(b1, key, max, window, window - 1, max - 1, second, 1, 1 + window);
    SecondWindowGoesThrough(b1[key := Bucket(max, window)], key, max, window);
  }

  function SecondWindow(key: string, max: nat, window: nat): seq<Hit>
    requires max >= 1
  {
    [Hit(key, max, window, window)] + (Burst(key, max, window, window, max - 1) + [])
  }

  lemma SecondWindowGoesThrough(b: Buckets, key: string, max: nat, window: nat)
    requires max >= 1 && window >= 2 && Opens(b, Hit(key, max, window, window))
    ensures var hits := SecondWindow(key, max, window);
            Allowed(hits, Unswept(b, hits), key, 1, 1 + window) == max
  {
    OpeningGoesThrough(b, Hit(key, max, window, window), Burst(key, max, window, window, max - 1) + [], 1, 1 + window);
    BurstGoesThrough(b[key := Bucket(1, 2 * window)], key, max, window, window, max - 1, [], 1, 1 + window);
  }

  // ------------------------------------------------------------------------------------------
  // The module's variables as an object
  // ------------------------------------------------------------------------------------------

  class Store {
    var buckets: Buckets
    var lastSweep: int

    constructor ()
      ensures View() == Limiter(map[], 0)
    {
      buckets, lastSweep := map[], 0;
    }

    function View(): Limiter
      reads this
    {
      Limiter(buckets, lastSweep)
    }

    /** `sweepExpired`: the loop over the keys there were. */
    method SweepExpired(now: int)
      modifies this
      ensures View() == Sweep(old(View()), now)
    {
      if now - lastSweep < SWEEP_MS {
        return;
      }
      lastSweep := now;
      var todo := buckets.Keys;
      while todo != {}
        invariant todo <= old(buckets).Keys
        invariant forall k :: k in buckets ==> k in old(buckets) && buckets[k] == old(buckets)[k]
        invariant forall k :: k in old(buckets) ==>
                    (k in buckets <==> k in todo || now < old(buckets)[k].resetAt)
        invariant lastSweep == now
        decreases todo
      {
        var k :| k in todo;
        if now >= buckets[k].resetAt {
          buckets := buckets - {k};
        }
        todo := todo - {k};
      }
    }

    /** `rateLimit`, with the clock's reading. */
    method Limit(h: Hit) returns (r: Answer)
      modifies this
      ensures var swept := Sweep(old(View()), h.now);
              r == Reply(swept.buckets, h) && View() == swept.(buckets := Counted(swept.buckets, h))
    {
      SweepExpired(h.now);
      if h.key !in buckets || h.now >= buckets[h.key].resetAt {
        buckets := buckets[h.key := Bucket(1, h.now + h.windowMs)];
        return Answer(true, 0);
      }
      var count := buckets[h.key].count + 1;
      var resetAt := buckets[h.key].resetAt;
      buckets := buckets[h.key := Bucket(count, resetAt)];
      if count > h.max {
        return Answer(false, CeilSeconds(resetAt - h.now));
      }
      return Answer(true, 0);
    }
  }
}
