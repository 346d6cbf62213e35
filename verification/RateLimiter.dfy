/** The fixed-window limiter of ratelimit.go. */
module RateLimiter {

  const SWEEP_THRESHOLD := 10000

  datatype Bucket = Bucket(count: int, resetAt: int)

  type Buckets = map<string, Bucket>

  /** One call of `Allow`; `now` is the clock it reads. */
  datatype Request = Request(key: string, limit: int, window: int, now: int)

  predicate Expired(b: Bucket, now: int) { now > b.resetAt }

  function Sweep(buckets: Buckets, now: int): Buckets
  {
    map k | k in buckets && !Expired(buckets[k], now) :: buckets[k]
  }

  /** `Allow` without the sweep. */
  function Admit(buckets: Buckets, r: Request): (Buckets, bool)
  {
    if r.key !in buckets || Expired(buckets[r.key], r.now) then
      (buckets[r.key := Bucket(1, r.now + r.window)], true)
    else
      var b := buckets[r.key];
      if b.count >= r.limit then (buckets, false) else (buckets[r.key := b.(count := b.count + 1)], true)
  }

  function Allow(buckets: Buckets, r: Request, threshold: nat): (Buckets, bool)
  {
    Admit(if |buckets| >= threshold then Sweep(buckets, r.now) else buckets, r)
  }

  class Limiter {
    var buckets: Buckets

    constructor ()
      ensures buckets == map[]
    {
      buckets := map[];
    }

    method RemoveExpired(now: int)
      modifies this
      ensures buckets == Sweep(old(buckets), now)
    {
      var left := buckets.Keys;
      while left != {}
        invariant left <= buckets.Keys <= old(buckets).Keys
        invariant forall k :: k in buckets ==> buckets[k] == old(buckets)[k]
        invariant forall k :: k in old(buckets) && k !in left ==>
                    (k in buckets <==> !Expired(old(buckets)[k], now))
        decreases |left|
      {
        var k :| k in left;
        left := left - {k};
        if Expired(buckets[k], now) {
          buckets := buckets - {k};
        }
      }
    }

    method AllowRequest(r: Request) returns (allowed: bool)
      modifies this
      ensures (buckets, allowed) == Allow(old(buckets), r, SWEEP_THRESHOLD)
    {
      if |buckets| >= SWEEP_THRESHOLD {
        RemoveExpired(r.now);
      }
      if r.key !in buckets || Expired(buckets[r.key], r.now) {
        buckets := buckets[r.key := Bucket(1, r.now + r.window)];
        return true;
      }
      var b := buckets[r.key];
      if b.count >= r.limit { return false; }
      buckets := buckets[r.key := b.(count := b.count + 1)];
      allowed := true;
    }
  }

  // ----- runs -----

  ghost predicate Ordered(requests: seq<Request>)
  {
    forall i, j :: 0 <= i < j < |requests| ==> requests[i].now <= requests[j].now
  }

  function Last<T>(s: seq<T>): T
    requires s != []
  {
    s[|s| - 1]
  }

  function Front<T>(s: seq<T>): seq<T>
    requires s != []
  {
    s[..|s| - 1]
  }

  /** The buckets and the answers after the requests. */
  function Run(requests: seq<Request>, threshold: nat): (r: (Buckets, seq<bool>))
    ensures |r.1| == |requests|
  {
    if requests == [] then (map[], [])
    else
      var (buckets, answers) := Run(Front(requests), threshold);
      var (next, allowed) := Allow(buckets, Last(requests), threshold);
      (next, answers + [allowed])
  }

  /** The limiter that never sweeps. */
  function RunUnswept(requests: seq<Request>): (r: (Buckets, seq<bool>))
    ensures |r.1| == |requests|
  {
    if requests == [] then (map[], [])
    else
      var (buckets, answers) := RunUnswept(Front(requests));
      var (next, allowed) := Admit(buckets, Last(requests));
      (next, answers + [allowed])
  }

  // ----- sweeping -----

  /** `small` lacks only buckets of `full` that have expired by `now`. */
  ghost predicate Covers(full: Buckets, small: Buckets, now: int)
  {
    && (forall k :: k in small ==> k in full && full[k] == small[k])
    && (forall k :: k in full && k !in small ==> Expired(full[k], now))
  }

  lemma SweepIsCovered(full: Buckets, small: Buckets, now: int)
    requires Covers(full, small, now)
    ensures Covers(full, Sweep(small, now), now)
  {
  }

  lemma AdmitAgrees(full: Buckets, small: Buckets, r: Request)
    requires Covers(full, small, r.now)
    ensures Admit(full, r).1 == Admit(small, r).1
    ensures Covers(Admit(full, r).0, Admit(small, r).0, r.now)
  {
  }

  /** Sweeping never changes an answer, whatever the threshold, while the clock does not go back. */
  lemma {:induction false} SweepingIsInvisible(requests: seq<Request>, threshold: nat)
    requires Ordered(requests)
    ensures Run(requests, threshold).1 == RunUnswept(requests).1
    ensures requests != [] ==>
              Covers(RunUnswept(requests).0, Run(requests, threshold).0, Last(requests).now)
  {
    if requests != [] {
      var before, r := Front(requests), Last(requests);
      SweepingIsInvisible(before, threshold);
      var small, full := Run(before, threshold).0, RunUnswept(before).0;
      assert Covers(full, small, r.now) by {
        if before != [] { assert Last(before).now <= r.now; }
      }
      SweepIsCovered(full, small, r.now);
      AdmitAgrees(full, small, r);
      AdmitAgrees(full, Sweep(small, r.now), r);
    }
  }

  // ----- the bound -----

  /** A call that was allowed, and its number within its bucket. */
  datatype Grant = Grant(time: int, ordinal: int)

  /** The allowed calls of one key. */
  function Grants(requests: seq<Request>, key: string): seq<Grant>
  {
    if requests == [] then []
    else
      var before, r := Grants(Front(requests), key), Last(requests);
      var (buckets, allowed) := Admit(RunUnswept(Front(requests)).0, r);
      if r.key == key && allowed then before + [Grant(r.now, buckets[key].count)] else before
  }

  ghost predicate Uses(requests: seq<Request>, key: string, limit: int, window: int)
  {
    forall i :: 0 <= i < |requests| && requests[i].key == key ==>
      requests[i].limit == limit && requests[i].window == window
  }

  function Most(limit: int): int { if limit < 1 then 1 else limit }

  predicate Numbered(g: seq<Grant>, i: int, limit: int)
    requires 0 <= i < |g|
  {
    1 <= g[i].ordinal <= Most(limit) && g[i].ordinal <= i + 1
  }

  /** The time of the call that started the bucket of call `i`. */
  function StartTime(g: seq<Grant>, i: int): int
    requires 0 <= i < |g| && 1 <= g[i].ordinal <= i + 1
  {
    g[i - (g[i].ordinal - 1)].time
  }

  /** Call `i + 1` is the next of its bucket, or starts one after the window of the bucket before. */
  predicate Linked(g: seq<Grant>, i: int, window: int)
    requires 0 <= i < |g| - 1 && 1 <= g[i].ordinal <= i + 1
  {
    if g[i + 1].ordinal == 1 then g[i + 1].time > StartTime(g, i) + window
    else g[i + 1].ordinal == g[i].ordinal + 1
  }

  ghost predicate GrantsOk(g: seq<Grant>, limit: int, window: int)
  {
    && (forall i, j :: 0 <= i < j < |g| ==> g[i].time <= g[j].time)
    && (forall i :: 0 <= i < |g| ==> Numbered(g, i, limit))
    && (forall i :: 0 <= i < |g| - 1 ==> Numbered(g, i, limit) && Linked(g, i, window))
  }

  /** The bucket of the key agrees with its last allowed call. */
  predicate BucketOk(g: seq<Grant>, buckets: Buckets, key: string, window: int)
  {
    if g == [] then key !in buckets
    else
      && key in buckets
      && buckets[key].count == Last(g).ordinal
      && 1 <= Last(g).ordinal <= |g|
      && buckets[key].resetAt == StartTime(g, |g| - 1) + window
  }

  lemma AppendGrant(g: seq<Grant>, next: Grant, limit: int, window: int)
    requires GrantsOk(g, limit, window)
    requires g != [] ==> Last(g).time <= next.time && Numbered(g, |g| - 1, limit)
    requires if next.ordinal == 1 then g == [] || next.time > StartTime(g, |g| - 1) + window
             else g != [] && next.ordinal == Last(g).ordinal + 1 && next.ordinal <= limit
    ensures GrantsOk(g + [next], limit, window)
    ensures 1 <= next.ordinal <= |g| + 1
    ensures StartTime(g + [next], |g|) == if next.ordinal == 1 then next.time else StartTime(g, |g| - 1)
  {
    var g' := g + [next];
    forall i | 0 <= i < |g'| ensures Numbered(g', i, limit) {
      if i < |g| { assert Numbered(g, i, limit); }
    }
    forall i | 0 <= i < |g'| - 1 ensures Numbered(g', i, limit) && Linked(g', i, window) {
      assert Numbered(g, i, limit);
      assert StartTime(g', i) == StartTime(g, i);
      if i + 1 < |g| { assert Linked(g, i, window); }
    }
  }

  lemma AdmitKeepsGrants(g: seq<Grant>, buckets: Buckets, r: Request)
    requires GrantsOk(g, r.limit, r.window) && BucketOk(g, buckets, r.key, r.window)
    requires g != [] ==> Last(g).time <= r.now
    ensures var (next, allowed) := Admit(buckets, r);
            var g' := if allowed then g + [Grant(r.now, next[r.key].count)] else g;
            GrantsOk(g', r.limit, r.window) && BucketOk(g', next, r.key, r.window)
  {
    var (next, allowed) := Admit(buckets, r);
    if g != [] { assert Numbered(g, |g| - 1, r.limit); }
    hide GrantsOk, StartTime;
    if allowed {
      AppendGrant(g, Grant(r.now, next[r.key].count), r.limit, r.window);
    }
  }

  lemma {:induction false} GrantsAreOk(requests: seq<Request>, key: string, limit: int, window: int)
    requires Ordered(requests) && Uses(requests, key, limit, window)
    ensures GrantsOk(Grants(requests, key), limit, window)
    ensures BucketOk(Grants(requests, key), RunUnswept(requests).0, key, window)
    ensures Grants(requests, key) != [] ==> requests != [] && Last(Grants(requests, key)).time <= Last(requests).now
  {
    if requests != [] {
      var before, r := Front(requests), Last(requests);
      GrantsAreOk(before, key, limit, window);
      assert before != [] ==> Last(before).now <= r.now;
      hide GrantsOk, StartTime;
      if r.key == key {
        AdmitKeepsGrants(Grants(before, key), RunUnswept(before).0, r);
      }
    }
  }

  lemma {:induction false} StartOfBucket(g: seq<Grant>, limit: int, window: int, i: int, back: nat)
    requires GrantsOk(g, limit, window) && 0 <= i < |g| && back < g[i].ordinal <= i + 1
    ensures g[i - back].ordinal == g[i].ordinal - back
  {
    if back > 0 {
      StartOfBucket(g, limit, window, i, back - 1);
      assert Numbered(g, i - back, limit) && Linked(g, i - back, window);
    }
  }

  /** `2 * limit` allowed calls in a row take more than one window: the last of them is in a bucket
      that started after the first one, and the bucket before that one has ended. */
  lemma GrantsSpread(g: seq<Grant>, limit: int, window: int, i: int, j: int)
    requires GrantsOk(g, limit, window) && 0 <= i && i + 2 * Most(limit) - 1 <= j < |g|
    ensures g[j].time > g[i].time + window
  {
    assert Numbered(g, j, limit);
    StartOfBucket(g, limit, window, j, g[j].ordinal - 1);
    var start := j - (g[j].ordinal - 1);
    assert Numbered(g, start - 1, limit) && Linked(g, start - 1, window);
    var before := start - 1 - (g[start - 1].ordinal - 1);
    assert i <= before && g[before].time >= g[i].time;
    assert g[j].time >= g[start].time;
  }

  /** The allowed calls of one key with a time in the closed interval from `from` to `to`, in the
      limiter that sweeps. */
  function AllowedIn(requests: seq<Request>, answers: seq<bool>, key: string, from: int, to: int): set<int>
    requires |answers| == |requests|
  {
    set i | 0 <= i < |requests| && requests[i].key == key && answers[i] && from <= requests[i].now <= to
  }

  function GrantsIn(g: seq<Grant>, from: int, to: int): set<int>
  {
    set i | 0 <= i < |g| && from <= g[i].time <= to
  }

  ghost function Pick<T>(s: set<T>): (x: T)
    requires s != {}
    ensures x in s
  {
    var x :| x in s;
    x
  }

  function Range(low: int, n: nat): (r: set<int>)
    ensures |r| == n && forall i :: i in r <==> low <= i < low + n
  {
    if n == 0 then {} else Range(low, n - 1) + {low + n - 1}
  }

  lemma {:induction false} SubsetSize(a: set<int>, b: set<int>)
    requires a <= b
    ensures |a| <= |b|
  {
    if a != {} {
      var x := Pick(a);
      SubsetSize(a - {x}, b - {x});
    }
  }

  lemma {:induction false} Least(s: set<int>) returns (m: int)
    requires s != {}
    ensures m in s && forall i :: i in s ==> m <= i
    decreases |s|
  {
    m := Pick(s);
    var rest := s - {m};
    assert forall i :: i in s ==> i == m || i in rest;
    if rest != {} {
      var other := Least(rest);
      if other < m { m := other; }
    }
  }

  lemma GrantsAreFew(g: seq<Grant>, limit: int, window: int, from: int)
    requires GrantsOk(g, limit, window)
    ensures |GrantsIn(g, from, from + window)| <= 2 * Most(limit) - 1
  {
    var inside := GrantsIn(g, from, from + window);
    hide GrantsOk;
    if inside != {} {
      var first := Least(inside);
      var n := 2 * Most(limit) - 1;
      forall i | i in inside ensures first <= i < first + n {
        if i >= first + n { GrantsSpread(g, limit, window, first, i); }
      }
      SubsetSize(inside, Range(first, n));
    }
  }

  lemma AllowedInStep(before: seq<Request>, answers: seq<bool>, r: Request, allowed: bool, key: string, from: int, to: int)
    requires |answers| == |before|
    ensures AllowedIn(before + [r], answers + [allowed], key, from, to) ==
            AllowedIn(before, answers, key, from, to) +
            if r.key == key && allowed && from <= r.now <= to then {|before|} else {}
    ensures |before| !in AllowedIn(before, answers, key, from, to)
  {
  }

  lemma GrantsInStep(g: seq<Grant>, next: Grant, from: int, to: int)
    ensures GrantsIn(g + [next], from, to) == GrantsIn(g, from, to) + if from <= next.time <= to then {|g|} else {}
    ensures |g| !in GrantsIn(g, from, to)
  {
  }

  lemma {:induction false} GrantsCount(requests: seq<Request>, key: string, from: int, to: int)
    ensures |AllowedIn(requests, RunUnswept(requests).1, key, from, to)| == |GrantsIn(Grants(requests, key), from, to)|
  {
    if requests == [] {
      assert AllowedIn(requests, RunUnswept(requests).1, key, from, to) == {};
      assert GrantsIn(Grants(requests, key), from, to) == {};
    } else {
      var before, r := Front(requests), Last(requests);
      GrantsCount(before, key, from, to);
      var (buckets, answers) := RunUnswept(before);
      var (next, allowed) := Admit(buckets, r);
      assert requests == before + [r];
      hide AllowedIn, GrantsIn;
      AllowedInStep(before, answers, r, allowed, key, from, to);
      if r.key == key && allowed {
        GrantsInStep(Grants(before, key), Grant(r.now, next[key].count), from, to);
      }
    }
  }

  /** For a key that is always used with the same limit and window, no closed interval as long as
      the window holds more than `2 * limit - 1` allowed calls (one call, when the limit is below
      one), whatever other keys do and whenever buckets are swept. */
  lemma AllowedIsBounded(requests: seq<Request>, threshold: nat, key: string, limit: int, window: int, from: int)
    requires Ordered(requests) && Uses(requests, key, limit, window)
    ensures |AllowedIn(requests, Run(requests, threshold).1, key, from, from + window)| <= 2 * Most(limit) - 1
  {
    SweepingIsInvisible(requests, threshold);
    GrantsAreOk(requests, key, limit, window);
    GrantsCount(requests, key, from, from + window);
    GrantsAreFew(Grants(requests, key), limit, window, from);
  }

  // ----- the bound is exact -----

  /** One call at 0, `limit - 1` calls at the end of its window, `limit` calls just after it. */
  function Burst(key: string, limit: int, window: int, n: nat): (r: seq<Request>)
    ensures |r| == n
  {
    seq(n, i => Request(key, limit, window, if i == 0 then 0 else if i < limit then window else window + 1))
  }

  function BurstBuckets(key: string, limit: int, window: int, n: nat): Buckets
  {
    if n == 0 then map[]
    else if n <= limit then map[key := Bucket(n, window)]
    else map[key := Bucket(n - limit, 2 * window + 1)]
  }

  function Trues(n: nat): (r: seq<bool>)
    ensures |r| == n
  {
    seq(n, _ => true)
  }

  lemma BurstStep(key: string, limit: int, window: int, n: nat)
    requires limit >= 1 && window >= 1 && 0 < n <= 2 * limit
    ensures Admit(BurstBuckets(key, limit, window, n - 1), Last(Burst(key, limit, window, n)))
            == (BurstBuckets(key, limit, window, n), true)
  {
    var r := Last(Burst(key, limit, window, n));
    assert r == Request(key, limit, window, if n == 1 then 0 else if n <= limit then window else window + 1);
    var before, after := BurstBuckets(key, limit, window, n - 1), BurstBuckets(key, limit, window, n);
    assert after.Keys == {key};
    assert before[key := after[key]] == after;
  }

  lemma {:induction false} BurstRun(key: string, limit: int, window: int, n: nat)
    requires limit >= 1 && window >= 1 && n <= 2 * limit
    ensures RunUnswept(Burst(key, limit, window, n)) == (BurstBuckets(key, limit, window, n), Trues(n))
  {
    if n > 0 {
      var requests := Burst(key, limit, window, n);
      BurstRun(key, limit, window, n - 1);
      assert Front(requests) == Burst(key, limit, window, n - 1);
      BurstStep(key, limit, window, n);
      hide Admit, BurstBuckets, Burst, Last;
      assert Trues(n - 1) + [true] == Trues(n);
    }
  }

  lemma BurstInside(key: string, limit: int, window: int)
    requires limit >= 1 && window >= 1
    ensures var requests := Burst(key, limit, window, 2 * limit);
            AllowedIn(requests, Trues(2 * limit), key, window, window + window) == Range(1, 2 * limit - 1)
  {
  }

  function AllowedCount(requests: seq<Request>, threshold: nat, key: string, from: int, window: int): nat
  {
    |AllowedIn(requests, Run(requests, threshold).1, key, from, from + window)|
  }

  /** The bound is reached for every limit and window: all calls of the burst are allowed, and all but
      the first fall into one closed interval as long as the window. */
  lemma {:induction false} BoundIsReached(threshold: nat, key: string, limit: int, window: int)
    requires limit >= 1 && window >= 1
    ensures var requests := Burst(key, limit, window, 2 * limit);
            && Ordered(requests) && Uses(requests, key, limit, window)
            && AllowedCount(requests, threshold, key, window, window) == 2 * limit - 1
  {
    var requests := Burst(key, limit, window, 2 * limit);
    assert Ordered(requests) && Uses(requests, key, limit, window);
    BurstRun(key, limit, window, 2 * limit);
    BurstInside(key, limit, window);
    hide Run, RunUnswept, AllowedIn, Burst, Ordered;
    SweepingIsInvisible(requests, threshold);
  }

  /** No interval from `from` on that is as long as the window holds more than `limit` calls. */
  ghost predicate Within(requests: seq<Request>, threshold: nat, key: string, limit: int, window: int, from: int)
  {
    Ordered(requests) && Uses(requests, key, limit, window) ==> AllowedCount(requests, threshold, key, from, window) <= limit
  }

  /** In no run, for no key. */
  ghost predicate KeepsLimit(limit: int, window: int)
  {
    forall requests, threshold: nat, key, from :: Within(requests, threshold, key, limit, window, from)
  }

  lemma OneCall(threshold: nat, limit: int, window: int)
    requires window >= 1
    ensures var requests := [Request("", limit, window, 0)];
            && Ordered(requests) && Uses(requests, "", limit, window)
            && AllowedCount(requests, threshold, "", 0, window) == 1
  {
    var requests := [Request("", limit, window, 0)];
    SweepingIsInvisible(requests, threshold);
    assert Front(requests) == [];
    assert RunUnswept(requests).1 == [true];
    assert AllowedIn(requests, [true], "", 0, 0 + window) == {0};
  }

  /** So the limit is kept in this sense if and only if it is one. */
  lemma LimitIsKeptExactlyForOne(limit: int, window: int)
    requires window >= 1
    ensures KeepsLimit(limit, window) <==> limit == 1
  {
    hide Ordered, Uses, Run, AllowedIn;
    if limit == 1 {
      forall requests, threshold: nat, key, from ensures Within(requests, threshold, key, limit, window, from) {
        if Ordered(requests) && Uses(requests, key, limit, window) {
          AllowedIsBounded(requests, threshold, key, limit, window, from);
        }
      }
    } else if limit > 1 {
      BoundIsReached(SWEEP_THRESHOLD, "", limit, window);
      assert !Within(Burst("", limit, window, 2 * limit), SWEEP_THRESHOLD, "", limit, window, window);
    } else {
      OneCall(SWEEP_THRESHOLD, limit, window);
      assert !Within([Request("", limit, window, 0)], SWEEP_THRESHOLD, "", limit, window, 0);
    }
  }
}
