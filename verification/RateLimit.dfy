/** Fixed-window rate limiting, as functions on bucket maps and whole request histories. */
module RateLimit {
  import opened Wrappers

  datatype Bucket = Bucket(start: int, count: nat)

  type Buckets = map<string, Bucket>

  /** A request of a client key at a time. */
  datatype Request = Request(key: string, now: int)

  const PRUNE_ABOVE: nat := 10000

  predicate Expired(b: Bucket, window: int, now: int) { now - b.start >= window }

  function Prune(m: Buckets, window: int, now: int): Buckets {
    map k | k in m && !Expired(m[k], window, now) :: m[k]
  }

  /** One call: the new map, and whether the request is within the limit. */
  function Bump(m: Buckets, key: string, window: int, limit: int, now: int, pruneAbove: Option<nat>): (Buckets, bool) {
    if key !in m || Expired(m[key], window, now) then (m[key := Bucket(now, 1)], true)
    else
      var b := m[key].(count := m[key].count + 1);
      var m' := m[key := b];
      (if pruneAbove.Some? && |m'| > pruneAbove.value then Prune(m', window, now) else m', b.count <= limit)
  }

  /** The map and the decisions after a history, starting from the empty map. */
  function Run(h: seq<Request>, window: int, limit: int, pruneAbove: Option<nat>): (r: (Buckets, seq<bool>))
    ensures |r.1| == |h|
  {
    if h == [] then (map[], [])
    else
      var (m, ok) := Run(h[..|h| - 1], window, limit, pruneAbove);
      var r := h[|h| - 1];
      var (m', good) := Bump(m, r.key, window, limit, r.now, pruneAbove);
      (m', ok + [good])
  }

  lemma RunSnoc(h: seq<Request>, r: Request, window: int, limit: int, pruneAbove: Option<nat>)
    ensures var (m, ok) := Run(h, window, limit, pruneAbove);
      var (m', good) := Bump(m, r.key, window, limit, r.now, pruneAbove);
      Run(h + [r], window, limit, pruneAbove) == (m', ok + [good])
  {
    assert (h + [r])[..|h|] == h;
  }

  /** The clock does not go back. */
  ghost predicate Monotone(h: seq<Request>) {
    forall i, j :: 0 <= i < j < |h| ==> h[i].now <= h[j].now
  }

  /** How many requests of `key` between `lo` and `hi` (inclusive) were let through. */
  function Passed(h: seq<Request>, ok: seq<bool>, key: string, lo: int, hi: int): nat
    requires |h| == |ok|
  {
    if h == [] then 0
    else
      var n := |h| - 1;
      Passed(h[..n], ok[..n], key, lo, hi) + if h[n].key == key && lo <= h[n].now <= hi && ok[n] then 1 else 0
  }

  lemma PassedSnoc(h: seq<Request>, r: Request, ok: seq<bool>, good: bool, key: string, lo: int, hi: int)
    requires |h| == |ok|
    ensures Passed(h + [r], ok + [good], key, lo, hi) ==
            Passed(h, ok, key, lo, hi) + if r.key == key && lo <= r.now <= hi && good then 1 else 0
  {
    assert (h + [r])[..|h|] == h && (ok + [good])[..|ok|] == ok;
  }

  // ----- Pruning cannot be observed -----

  /** `p` is `m` without some buckets that have expired. */
  ghost predicate PrunedFrom(p: Buckets, m: Buckets, window: int, now: int) {
    && (forall k :: k in p ==> k in m && p[k] == m[k])
    && (forall k :: k in m && k !in p ==> Expired(m[k], window, now))
  }

  lemma BumpPruned(p: Buckets, m: Buckets, window: int, limit: int, r: Request, pruneAbove: Option<nat>)
    requires window > 0 && PrunedFrom(p, m, window, r.now)
    ensures var (p', a) := Bump(p, r.key, window, limit, r.now, pruneAbove);
      var (m', b) := Bump(m, r.key, window, limit, r.now, None);
      a == b && PrunedFrom(p', m', window, r.now) && r.key in p' && p'[r.key] == m'[r.key]
  {
  }

  lemma {:induction false} RunPruned(h: seq<Request>, window: int, limit: int, pruneAbove: Option<nat>)
    requires window > 0 && Monotone(h)
    ensures Run(h, window, limit, pruneAbove).1 == Run(h, window, limit, None).1
    ensures h != [] ==>
      PrunedFrom(Run(h, window, limit, pruneAbove).0, Run(h, window, limit, None).0, window, h[|h| - 1].now)
  {
    if h != [] {
      var n := |h| - 1;
      RunPruned(h[..n], window, limit, pruneAbove);
      var p, m := Run(h[..n], window, limit, pruneAbove).0, Run(h[..n], window, limit, None).0;
      if n > 0 {
        assert h[..n][n - 1] == h[n - 1];
        forall k | k in m && k !in p ensures Expired(m[k], window, h[n].now) {
          assert Expired(m[k], window, h[n - 1].now);
        }
      }
      BumpPruned(p, m, window, limit, h[n], pruneAbove);
    }
  }

  /** Dropping expired buckets never changes a decision, and never drops the bucket just counted. */
  lemma PruningIsInvisible(h: seq<Request>, window: int, limit: int, pruneAbove: Option<nat>)
    requires window > 0 && Monotone(h)
    ensures Run(h, window, limit, pruneAbove).1 == Run(h, window, limit, None).1
    ensures h != [] ==> h[|h| - 1].key in Run(h, window, limit, pruneAbove).0
  {
    RunPruned(h, window, limit, pruneAbove);
  }

  // ----- Bounds over whole histories -----

  /** What is known of a key's bucket after a history, about the requests let through in [lo, lo + window]. */
  ghost predicate Bounded(h: seq<Request>, key: string, lo: int, window: int, limit: int) {
    var (m, ok) := Run(h, window, limit, None);
    var n := Passed(h, ok, key, lo, lo + window);
    if key !in m then n == 0
    else
      var b := m[key];
      && b.count >= 1 && h != [] && b.start <= h[|h| - 1].now
      && (n > 0 ==> b.start + window > lo)
      && (b.start <= lo ==> n <= Min(b.count, limit))
      && (lo < b.start <= lo + window ==> n <= limit + Min(b.count, limit))
      && n <= 2 * limit
  }

  lemma {:induction false} HistoryIsBounded(h: seq<Request>, key: string, lo: int, window: int, limit: int)
    requires window > 0 && limit >= 1 && Monotone(h)
    ensures Bounded(h, key, lo, window, limit)
  {
    if h != [] {
      var n := |h| - 1;
      HistoryIsBounded(h[..n], key, lo, window, limit);
      if n > 0 { assert h[..n][n - 1].now <= h[n].now; }
      var (m, ok) := Run(h, window, limit, None);
      assert ok[..n] == Run(h[..n], window, limit, None).1;
    }
  }

  /** The same for the half-open interval [lo, lo + window). */
  ghost predicate BoundedOpen(h: seq<Request>, key: string, lo: int, window: int, limit: int) {
    var (m, ok) := Run(h, window, limit, None);
    var n := Passed(h, ok, key, lo, lo + window - 1);
    if key !in m then n == 0
    else
      var b := m[key];
      && b.count >= 1 && h != [] && b.start <= h[|h| - 1].now
      && (n > 0 ==> b.start + window > lo)
      && (b.start < lo ==> n <= Min(b.count, limit) - 1)
      && (lo <= b.start < lo + window ==> n <= limit - 1 + Min(b.count, limit))
      && n <= 2 * limit - 1
  }

  lemma {:induction false} HistoryIsBoundedOpen(h: seq<Request>, key: string, lo: int, window: int, limit: int)
    requires window > 0 && limit >= 1 && Monotone(h)
    ensures BoundedOpen(h, key, lo, window, limit)
  {
    if h != [] {
      var n := |h| - 1;
      HistoryIsBoundedOpen(h[..n], key, lo, window, limit);
      if n > 0 { assert h[..n][n - 1].now <= h[n].now; }
      var (m, ok) := Run(h, window, limit, None);
      assert ok[..n] == Run(h[..n], window, limit, None).1;
    }
  }

  /**
   * Over any history, at most twice the limit passes in a closed interval as long as the
   * window, and one less in a half-open one.
   */
  lemma AtMostTwiceTheLimit(h: seq<Request>, key: string, lo: int, window: int, limit: int, pruneAbove: Option<nat>)
    requires window > 0 && limit >= 1 && Monotone(h)
    ensures Passed(h, Run(h, window, limit, pruneAbove).1, key, lo, lo + window) <= 2 * limit
    ensures Passed(h, Run(h, window, limit, pruneAbove).1, key, lo, lo + window - 1) <= 2 * limit - 1
  {
    PruningIsInvisible(h, window, limit, pruneAbove);
    HistoryIsBounded(h, key, lo, window, limit);
    HistoryIsBoundedOpen(h, key, lo, window, limit);
  }

  lemma {:induction false} NonePassed(h: seq<Request>, ok: seq<bool>, key: string, lo: int, hi: int)
    requires |h| == |ok|
    requires forall i :: 0 <= i < |h| && h[i].key == key ==> h[i].now < lo
    ensures Passed(h, ok, key, lo, hi) == 0
  {
    if h != [] { NonePassed(h[..|h| - 1], ok[..|h| - 1], key, lo, hi); }
  }

  /** In the window that a bucket stands for, exactly the counted requests up to the limit passed. */
  ghost predicate WindowExact(h: seq<Request>, key: string, window: int, limit: int) {
    var (m, ok) := Run(h, window, limit, None);
    if key !in m then forall i :: 0 <= i < |h| ==> h[i].key != key
    else
      var b := m[key];
      && b.count >= 1 && h != [] && b.start <= h[|h| - 1].now
      && Passed(h, ok, key, b.start, b.start + window - 1) == Min(b.count, limit)
      && forall i :: 0 <= i < |h| && h[i].key == key ==> h[i].now < b.start + window
  }

  lemma {:induction false} WindowIsExact(h: seq<Request>, key: string, window: int, limit: int)
    requires window > 0 && limit >= 1 && Monotone(h)
    ensures WindowExact(h, key, window, limit)
  {
    if h != [] {
      var n := |h| - 1;
      WindowIsExact(h[..n], key, window, limit);
      var (m, ok) := Run(h, window, limit, None);
      var (m0, ok0) := Run(h[..n], window, limit, None);
      assert ok[..n] == ok0;
      assert forall i :: 0 <= i < n ==> h[..n][i] == h[i];
      if n > 0 { assert h[..n][n - 1].now <= h[n].now; }
      if h[n].key == key && (key !in m0 || Expired(m0[key], window, h[n].now)) {
        NonePassed(h[..n], ok0, key, h[n].now, h[n].now + window - 1);
      }
    }
  }

  // ----- The bound is reached -----

  function Burst(key: string, now: int, n: nat): (h: seq<Request>)
    ensures |h| == n && forall i :: 0 <= i < n ==> h[i] == Request(key, now)
  {
    seq(n, i => Request(key, now))
  }

  /** What one more request of the key does to its bucket and to the count. */
  lemma OneMore(h: seq<Request>, key: string, now: int, window: int, limit: int, hi: int)
    requires window > 0 && 0 <= now <= hi && key in Run(h, window, limit, None).0
    ensures var (m, ok) := Run(h, window, limit, None);
      var (m', ok') := Run(h + [Request(key, now)], window, limit, None);
      if Expired(m[key], window, now) then
        && key in m' && m'[key] == Bucket(now, 1)
        && Passed(h + [Request(key, now)], ok', key, 0, hi) == Passed(h, ok, key, 0, hi) + 1
      else
        && key in m' && m'[key] == Bucket(m[key].start, m[key].count + 1)
        && Passed(h + [Request(key, now)], ok', key, 0, hi) ==
           Passed(h, ok, key, 0, hi) + if m[key].count < limit then 1 else 0
  {
    var (m, ok) := Run(h, window, limit, None);
    RunSnoc(h, Request(key, now), window, limit, None);
    PassedSnoc(h, Request(key, now), ok, Bump(m, key, window, limit, now, None).1, key, 0, hi);
  }

  lemma BurstSnoc(h: seq<Request>, key: string, now: int, n: nat)
    ensures h + Burst(key, now, n) == if n == 0 then h else h + Burst(key, now, n - 1) + [Request(key, now)]
  {
  }

  /** A burst into an open window that has room for it passes as a whole. */
  lemma {:induction false} BurstPasses(
    h: seq<Request>, q: seq<Request>, key: string, now: int, n: nat, window: int, limit: int, hi: int, b: Bucket)
    requires window > 0 && 0 <= now <= hi && q == h + Burst(key, now, n)
    requires var m := Run(h, window, limit, None).0; key in m && m[key] == b
    requires !Expired(b, window, now) && b.count + n <= limit
    ensures var m := Run(q, window, limit, None).0; key in m && m[key] == Bucket(b.start, b.count + n)
    ensures Passed(q, Run(q, window, limit, None).1, key, 0, hi)
            == Passed(h, Run(h, window, limit, None).1, key, 0, hi) + n
    decreases n
  {
    BurstSnoc(h, key, now, n);
    if n > 0 {
      var p := h + Burst(key, now, n - 1);
      BurstPasses(h, p, key, now, n - 1, window, limit, hi, b);
      assert q == p + [Request(key, now)];
      OneMore(p, key, now, window, limit, hi);
    }
  }

  /** As many requests as the limit, at one time. */
  function FullBurst(key: string, now: int, limit: nat): seq<Request>
    requires limit >= 1
  {
    [Request(key, now)] + Burst(key, now, limit - 1)
  }

  /** A full burst that opens a window passes as a whole. */
  lemma FullBurstPasses(h: seq<Request>, key: string, now: int, window: int, limit: nat, hi: int)
    requires window > 0 && limit >= 1 && 0 <= now <= hi
    requires var m := Run(h, window, limit, None).0; key in m ==> Expired(m[key], window, now)
    ensures var (m, ok) := Run(h, window, limit, None);
      var (m', ok') := Run(h + FullBurst(key, now, limit), window, limit, None);
      && key in m' && m'[key] == Bucket(now, limit)
      && Passed(h + FullBurst(key, now, limit), ok', key, 0, hi) == Passed(h, ok, key, 0, hi) + limit
  {
    var r := Request(key, now);
    RunSnoc(h, r, window, limit, None);
    PassedSnoc(h, r, Run(h, window, limit, None).1, true, key, 0, hi);
    assert h + FullBurst(key, now, limit) == h + [r] + Burst(key, now, limit - 1);
    BurstPasses(h + [r], h + FullBurst(key, now, limit), key, now, limit - 1, window, limit, hi, Bucket(now, 1));
  }

  /** A full burst at time 0 and one at the end of the window. */
  function TwoBursts(key: string, window: int, limit: nat): seq<Request>
    requires limit >= 1
  {
    [] + FullBurst(key, 0, limit) + FullBurst(key, window, limit)
  }

  lemma TwoBurstsPass(key: string, window: int, limit: nat)
    requires window > 0 && limit >= 1
    ensures var h := TwoBursts(key, window, limit);
            Passed(h, Run(h, window, limit, None).1, key, 0, window) == 2 * limit
  {
    FullBurstPasses([], key, 0, window, limit, window);
    FullBurstPasses([] + FullBurst(key, 0, limit), key, window, window, limit, window);
  }

  /** The bound of AtMostTwiceTheLimit is the best there is, for every limit and window. */
  lemma TwiceTheLimitIsReached(key: string, window: int, limit: nat, pruneAbove: Option<nat>)
    requires window > 0 && limit >= 1
    ensures var h := TwoBursts(key, window, limit);
      Monotone(h) && Passed(h, Run(h, window, limit, pruneAbove).1, key, 0, window) == 2 * limit
  {
    TwoBurstsPass(key, window, limit);
    PruningIsInvisible(TwoBursts(key, window, limit), window, limit, pruneAbove);
  }

  // ----- When memory is given back -----

  /** A call drops a bucket exactly when it counts into an open window of an overfull map. */
  lemma DropsIffCountingAboveCap(m: Buckets, key: string, window: int, limit: int, now: int, cap: nat)
    requires window > 0
    ensures var m' := Bump(m, key, window, limit, now, Some(cap)).0;
      (exists k :: k in m && k !in m') <==>
      (key in m && !Expired(m[key], window, now) && |m| > cap && exists k :: k in m && Expired(m[k], window, now))
  {
    if key in m && !Expired(m[key], window, now) {
      var m1 := m[key := m[key].(count := m[key].count + 1)];
      assert m1.Keys == m.Keys;
      assert |m1| == |m1.Keys| == |m.Keys| == |m|;
      if k :| k in m && Expired(m[k], window, now) && |m| > cap {
        assert k !in Prune(m1, window, now);
      }
    }
  }

  /** So a map that only sees new clients grows without bound, whatever has expired. */
  lemma NewClientsAlwaysGrowTheMap(m: Buckets, key: string, window: int, limit: int, now: int, cap: nat)
    requires key !in m
    ensures |Bump(m, key, window, limit, now, Some(cap)).0| == |m| + 1
  {
    assert m[key := Bucket(now, 1)].Keys == m.Keys + {key};
  }
}

/** The limiter of the public call endpoint: three windows, and caps counted elsewhere. */
module ActionsRateLimit {
  import opened Wrappers
  import opened RateLimit

  const MINUTE := 60000
  const HOUR := 3600000

  /** Math.trunc: towards zero. */
  function Trunc(x: real): (r: int)
    ensures x >= 0.0 ==> r as real <= x < r as real + 1.0
    ensures x <= 0.0 ==> r as real - 1.0 < x <= r as real
  {
    if x >= 0.0 then x.Floor else -((-x).Floor)
  }

  /** intEnv; `raw` is None when the setting is not a finite number. The fallback is not clamped. */
  function IntEnv(raw: Option<real>, fallback: int, min: int, max: int): (r: int)
    ensures min <= fallback <= max ==> min <= r <= max
    ensures raw.None? ==> r == fallback
    ensures raw.Some? && min <= max && min as real <= raw.value <= max as real ==> r == Trunc(raw.value)
    ensures raw.Some? && min <= max && raw.value <= min as real ==> r == min
    ensures raw.Some? && min <= max && raw.value >= max as real ==> r == max
  {
    if raw.None? then fallback else Wrappers.Min(Wrappers.Max(min, Trunc(raw.value)), max)
  }

  datatype Limits = Limits(ipMinute: int, ipHour: int, pageMinute: int, perDay: int, concurrent: int)

  datatype Settings = Settings(
    ipMinute: Option<real>, ipHour: Option<real>, pageMinute: Option<real>,
    perDay: Option<real>, concurrent: Option<real>)

  function LimitsOf(s: Settings): (r: Limits)
    ensures 1 <= r.ipMinute <= 1000 && 1 <= r.ipHour <= 10000 && 1 <= r.pageMinute <= 10000
    ensures 1 <= r.perDay <= 100000 && 1 <= r.concurrent <= 1000
  {
    Limits(IntEnv(s.ipMinute, 5, 1, 1000), IntEnv(s.ipHour, 20, 1, 10000), IntEnv(s.pageMinute, 30, 1, 10000),
           IntEnv(s.perDay, 500, 1, 100000), IntEnv(s.concurrent, 25, 1, 1000))
  }

  /** One request for a call session; the last two fields are the counts read from the database. */
  datatype Call = Call(page: string, ip: Option<string>, now: int, today: nat, active: nat)

  /** `clientIp || "unknown"`. */
  function IpKey(ip: Option<string>): string {
    if ip.None? || ip.value == "" then "unknown" else ip.value
  }

  function ByIp(calls: seq<Call>): (h: seq<Request>)
    ensures |h| == |calls|
  {
    seq(|calls|, i requires 0 <= i < |calls| => Request(IpKey(calls[i].ip), calls[i].now))
  }

  function ByPage(calls: seq<Call>): (h: seq<Request>)
    ensures |h| == |calls|
  {
    seq(|calls|, i requires 0 <= i < |calls| => Request(calls[i].page, calls[i].now))
  }

  datatype Windows = Windows(ipMinute: Buckets, ipHour: Buckets, pageMinute: Buckets)

  /** All three windows are counted, whether or not the first has already tripped. */
  function Admit(w: Windows, c: Call, l: Limits): (Windows, bool) {
    var (a, okA) := Bump(w.ipMinute, IpKey(c.ip), MINUTE, l.ipMinute, c.now, Some(PRUNE_ABOVE));
    var (b, okB) := Bump(w.ipHour, IpKey(c.ip), HOUR, l.ipHour, c.now, Some(PRUNE_ABOVE));
    var (p, okP) := Bump(w.pageMinute, c.page, MINUTE, l.pageMinute, c.now, Some(PRUNE_ABOVE));
    (Windows(a, b, p), okA && okB && okP && c.today < l.perDay && c.active < l.concurrent)
  }

  function AdmitAll(calls: seq<Call>, l: Limits): (r: (Windows, seq<bool>))
    ensures |r.1| == |calls|
  {
    if calls == [] then (Windows(map[], map[], map[]), [])
    else
      var (w, ok) := AdmitAll(calls[..|calls| - 1], l);
      var (w', good) := Admit(w, calls[|calls| - 1], l);
      (w', ok + [good])
  }

  /** The decisions of one window over the clients of a history of calls. */
  function IpRun(calls: seq<Call>, window: int, limit: int): (r: (Buckets, seq<bool>))
    ensures |r.1| == |calls|
  {
    Run(ByIp(calls), window, limit, Some(PRUNE_ABOVE))
  }

  function PageRun(calls: seq<Call>, window: int, limit: int): (r: (Buckets, seq<bool>))
    ensures |r.1| == |calls|
  {
    Run(ByPage(calls), window, limit, Some(PRUNE_ABOVE))
  }

  lemma RunsSnoc(calls: seq<Call>, c: Call, window: int, limit: int)
    ensures var (m, ok) := IpRun(calls, window, limit);
      var (m', good) := Bump(m, IpKey(c.ip), window, limit, c.now, Some(PRUNE_ABOVE));
      IpRun(calls + [c], window, limit) == (m', ok + [good])
    ensures var (m, ok) := PageRun(calls, window, limit);
      var (m', good) := Bump(m, c.page, window, limit, c.now, Some(PRUNE_ABOVE));
      PageRun(calls + [c], window, limit) == (m', ok + [good])
  {
    assert ByIp(calls + [c]) == ByIp(calls) + [Request(IpKey(c.ip), c.now)];
    assert ByPage(calls + [c]) == ByPage(calls) + [Request(c.page, c.now)];
    RunSnoc(ByIp(calls), Request(IpKey(c.ip), c.now), window, limit, Some(PRUNE_ABOVE));
    RunSnoc(ByPage(calls), Request(c.page, c.now), window, limit, Some(PRUNE_ABOVE));
  }

  /** Each window sees the whole history. */
  lemma {:induction false} WindowsRun(calls: seq<Call>, l: Limits)
    ensures AdmitAll(calls, l).0 == Windows(
      IpRun(calls, MINUTE, l.ipMinute).0, IpRun(calls, HOUR, l.ipHour).0, PageRun(calls, MINUTE, l.pageMinute).0)
  {
    if calls != [] {
      var before, c := calls[..|calls| - 1], calls[|calls| - 1];
      assert calls == before + [c];
      WindowsRun(before, l);
      RunsSnoc(before, c, MINUTE, l.ipMinute);
      RunsSnoc(before, c, HOUR, l.ipHour);
      RunsSnoc(before, c, MINUTE, l.pageMinute);
    }
  }

  /** A call is admitted exactly when it passes each window and finds both caps unreached. */
  lemma {:induction false} AdmittedIffAllPass(calls: seq<Call>, l: Limits, i: nat)
    requires i < |calls|
    ensures AdmitAll(calls, l).1[i] <==>
      && IpRun(calls, MINUTE, l.ipMinute).1[i] && IpRun(calls, HOUR, l.ipHour).1[i]
      && PageRun(calls, MINUTE, l.pageMinute).1[i]
      && calls[i].today < l.perDay && calls[i].active < l.concurrent
  {
    var before, c := calls[..|calls| - 1], calls[|calls| - 1];
    assert calls == before + [c];
    if i < |before| { AdmittedIffAllPass(before, l, i); }
    WindowsRun(before, l);
    RunsSnoc(before, c, MINUTE, l.ipMinute);
    RunsSnoc(before, c, HOUR, l.ipHour);
    RunsSnoc(before, c, MINUTE, l.pageMinute);
  }

  /** Whoever is admitted passed each window. */
  lemma AdmittedPassEach(calls: seq<Call>, l: Limits, ok: seq<bool>)
    requires ok == AdmitAll(calls, l).1
    ensures forall i :: 0 <= i < |calls| && ok[i] ==> Run(ByIp(calls), MINUTE, l.ipMinute, Some(PRUNE_ABOVE)).1[i]
    ensures forall i :: 0 <= i < |calls| && ok[i] ==> Run(ByIp(calls), HOUR, l.ipHour, Some(PRUNE_ABOVE)).1[i]
    ensures forall i :: 0 <= i < |calls| && ok[i] ==> Run(ByPage(calls), MINUTE, l.pageMinute, Some(PRUNE_ABOVE)).1[i]
  {
    forall i | 0 <= i < |calls| && ok[i]
      ensures IpRun(calls, MINUTE, l.ipMinute).1[i] && IpRun(calls, HOUR, l.ipHour).1[i]
              && PageRun(calls, MINUTE, l.pageMinute).1[i]
    {
      AdmittedIffAllPass(calls, l, i);
    }
  }

  lemma {:induction false} PassedMonotone(h: seq<Request>, ok: seq<bool>, ok': seq<bool>, key: string, lo: int, hi: int)
    requires |h| == |ok| == |ok'| && forall i :: 0 <= i < |h| && ok[i] ==> ok'[i]
    ensures Passed(h, ok, key, lo, hi) <= Passed(h, ok', key, lo, hi)
  {
    if h != [] {
      var n := |h| - 1;
      PassedMonotone(h[..n], ok[..n], ok'[..n], key, lo, hi);
    }
  }

  /** Decisions that imply a window's decisions inherit its bound. */
  lemma Inherits(h: seq<Request>, ok: seq<bool>, key: string, lo: int, window: int, limit: int)
    requires window > 0 && limit >= 1 && Monotone(h) && |h| == |ok|
    requires var ok' := Run(h, window, limit, Some(PRUNE_ABOVE)).1; forall i :: 0 <= i < |h| && ok[i] ==> ok'[i]
    ensures Passed(h, ok, key, lo, lo + window) <= 2 * limit
  {
    PassedMonotone(h, ok, Run(h, window, limit, Some(PRUNE_ABOVE)).1, key, lo, lo + window);
    AtMostTwiceTheLimit(h, key, lo, window, limit, Some(PRUNE_ABOVE));
  }

  /**
   * Over every history of calls, the admitted ones respect all three bounds at once: per
   * client in any minute and in any hour, and per page in any minute.
   */
  lemma AdmittedCallsAreBounded(calls: seq<Call>, l: Limits, ip: Option<string>, page: string, lo: int)
    requires l.ipMinute >= 1 && l.ipHour >= 1 && l.pageMinute >= 1
    requires forall i, j :: 0 <= i < j < |calls| ==> calls[i].now <= calls[j].now
    ensures var ok := AdmitAll(calls, l).1;
      && Passed(ByIp(calls), ok, IpKey(ip), lo, lo + MINUTE) <= 2 * l.ipMinute
      && Passed(ByIp(calls), ok, IpKey(ip), lo, lo + HOUR) <= 2 * l.ipHour
      && Passed(ByPage(calls), ok, page, lo, lo + MINUTE) <= 2 * l.pageMinute
  {
    var ok := AdmitAll(calls, l).1;
    AdmittedPassEach(calls, l, ok);
    Inherits(ByIp(calls), ok, IpKey(ip), lo, MINUTE, l.ipMinute);
    Inherits(ByIp(calls), ok, IpKey(ip), lo, HOUR, l.ipHour);
    Inherits(ByPage(calls), ok, page, lo, MINUTE, l.pageMinute);
  }

  // ----- The service -----

  /** One of the service's maps of counters. */
  class Counters {
    var buckets: Buckets

    constructor ()
      ensures buckets == map[]
    {
      buckets := map[];
    }

    method Bump(key: string, window: int, limit: int, now: int) returns (ok: bool)
      modifies this
      ensures (buckets, ok) == RateLimit.Bump(old(buckets), key, window, limit, now, Some(PRUNE_ABOVE))
    {
      if key !in buckets || now - buckets[key].start >= window {
        buckets := buckets[key := Bucket(now, 1)];
        return true;
      }
      var bucket := buckets[key].(count := buckets[key].count + 1);
      buckets := buckets[key := bucket];
      if |buckets| > PRUNE_ABOVE {
        DropExpired(window, now);
      }
      return bucket.count <= limit;
    }

    /** The loop over the map's entries that deletes while it iterates. */
    method DropExpired(window: int, now: int)
      modifies this
      ensures buckets == Prune(old(buckets), window, now)
    {
      var rest := buckets.Keys;
      while rest != {}
        invariant rest <= buckets.Keys <= old(buckets).Keys
        invariant forall k :: k in buckets ==> buckets[k] == old(buckets)[k]
        invariant forall k :: k in old(buckets) && k !in rest ==>
                    (k in buckets <==> !Expired(old(buckets)[k], window, now))
        decreases |rest|
      {
        var k :| k in rest;
        rest := rest - {k};
        if now - buckets[k].start >= window {
          buckets := buckets - {k};
        }
      }
    }
  }

  class Service {
    const ipMinute: Counters
    const searchIpMinute: Counters
    const ipHour: Counters
    const pageMinute: Counters

    ghost predicate Valid() {
      && ipMinute != ipHour && ipMinute != pageMinute && ipHour != pageMinute
      && searchIpMinute != ipMinute && searchIpMinute != ipHour && searchIpMinute != pageMinute
    }

    ghost function View(): Windows
      reads ipMinute, ipHour, pageMinute
    {
      Windows(ipMinute.buckets, ipHour.buckets, pageMinute.buckets)
    }

    constructor ()
      ensures Valid() && View() == AdmitAll([], Limits(1, 1, 1, 1, 1)).0 && searchIpMinute.buckets == map[]
    {
      ipMinute := new Counters();
      searchIpMinute := new Counters();
      ipHour := new Counters();
      pageMinute := new Counters();
    }

    /** The type-ahead finder's own window. */
    method AssertSearchWithinLimits(ip: Option<string>, now: int, setting: Option<real>) returns (admitted: bool)
      requires Valid()
      modifies searchIpMinute
      ensures (searchIpMinute.buckets, admitted) ==
        RateLimit.Bump(
          old(searchIpMinute.buckets), IpKey(ip), MINUTE, IntEnv(setting, 30, 1, 10000), now, Some(PRUNE_ABOVE))
    {
      admitted := searchIpMinute.Bump(IpKey(ip), MINUTE, IntEnv(setting, 30, 1, 10000), now);
    }

    method AssertWithinLimits(c: Call, settings: Settings) returns (admitted: bool)
      requires Valid()
      modifies ipMinute, ipHour, pageMinute
      ensures (View(), admitted) == Admit(old(View()), c, LimitsOf(settings))
    {
      var l := LimitsOf(settings);
      var ip := IpKey(c.ip);
      var okIpMinute := ipMinute.Bump(ip, MINUTE, l.ipMinute, c.now);
      var okIpHour := ipHour.Bump(ip, HOUR, l.ipHour, c.now);
      var okPageMinute := pageMinute.Bump(c.page, MINUTE, l.pageMinute, c.now);
      if !okIpMinute || !okIpHour || !okPageMinute { return false; }
      return c.today < l.perDay && c.active < l.concurrent;
    }
  }
}
