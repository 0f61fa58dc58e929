/** Who shares a window with whom: every decision follows from the caller's own history. */
module RateLimitClients {
  import opened Wrappers
  import opened RateLimit
  import opened ActionsRateLimit

  // ----- One key of a map of counters -----

  /** The requests of `key`, as if nobody else had ever called. */
  function Alone(h: seq<Request>, key: string): seq<Request> {
    if h == [] then []
    else
      var n := |h| - 1;
      Alone(h[..n], key) + if h[n].key == key then [Request("", h[n].now)] else []
  }

  /** Whether the last request of this history passes. */
  predicate LastPasses(h: seq<Request>, window: int, limit: int) {
    h != [] && Run(h, window, limit, None).1[|h| - 1]
  }

  /** `key` has in `m` what the nameless key has in `a`. */
  predicate SameBucket(m: Buckets, key: string, a: Buckets) {
    (key in m <==> "" in a) && (key in m ==> m[key] == a[""])
  }

  lemma BumpAlone(m: Buckets, a: Buckets, key: string, other: string, window: int, limit: int, now: int)
    requires SameBucket(m, key, a)
    ensures var (m', ok) := Bump(m, other, window, limit, now, None);
            if other == key then
              var (a', ok') := Bump(a, "", window, limit, now, None);
              SameBucket(m', key, a') && ok == ok'
            else SameBucket(m', key, a)
  {
  }

  lemma AloneSnoc(h: seq<Request>, r: Request, key: string)
    ensures Alone(h + [r], key) == if r.key == key then Alone(h, key) + [Request("", r.now)] else Alone(h, key)
  {
    assert (h + [r])[..|h|] == h;
    assert Alone(h, key) + [] == Alone(h, key);
  }

  lemma {:induction false} BucketAlone(h: seq<Request>, key: string, window: int, limit: int)
    ensures SameBucket(Run(h, window, limit, None).0, key, Run(Alone(h, key), window, limit, None).0)
  {
    if h != [] {
      var n := |h| - 1;
      var m, a := Run(h[..n], window, limit, None).0, Run(Alone(h[..n], key), window, limit, None).0;
      BucketAlone(h[..n], key, window, limit);
      assert h[..n] + [h[n]] == h;
      AloneSnoc(h[..n], h[n], key);
      BumpAlone(m, a, key, h[n].key, window, limit, h[n].now);
      RunSnoc(Alone(h[..n], key), Request("", h[n].now), window, limit, None);
    }
  }

  lemma LastAlone(h: seq<Request>, r: Request, window: int, limit: int)
    ensures Run(h + [r], window, limit, None).1[|h|] <==> LastPasses(Alone(h + [r], r.key), window, limit)
  {
    var m, a := Run(h, window, limit, None).0, Run(Alone(h, r.key), window, limit, None).0;
    AloneSnoc(h, r, r.key);
    BucketAlone(h, r.key, window, limit);
    BumpAlone(m, a, r.key, r.key, window, limit, r.now);
    RunSnoc(h, r, window, limit, None);
    RunSnoc(Alone(h, r.key), Request("", r.now), window, limit, None);
  }

  /** A decision is the same as if the others had not called. */
  lemma DecidedAlone(h: seq<Request>, i: nat, window: int, limit: int, pruneAbove: Option<nat>)
    requires window > 0 && Monotone(h) && i < |h|
    ensures Run(h, window, limit, pruneAbove).1[i] <==> LastPasses(Alone(h[..i + 1], h[i].key), window, limit)
  {
    PruningIsInvisible(h, window, limit, pruneAbove);
    DecisionsStay(h, i, window, limit);
    assert h[..i] + [h[i]] == h[..i + 1];
    LastAlone(h[..i], h[i], window, limit);
  }

  lemma {:induction false} DecisionsStay(h: seq<Request>, i: nat, window: int, limit: int)
    requires i < |h|
    ensures Run(h, window, limit, None).1[i] == Run(h[..i + 1], window, limit, None).1[i]
  {
    if i + 1 < |h| {
      var n := |h| - 1;
      DecisionsStay(h[..n], i, window, limit);
      assert h[..n][..i + 1] == h[..i + 1];
    } else {
      assert h[..i + 1] == h;
    }
  }

  // ----- Callers -----

  /** Without an address, or with the one that stands for having none. */
  predicate IsNameless(ip: Option<string>) { ip == None || ip == Some("") || ip == Some("unknown") }

  /** The same address, or both nameless. */
  predicate SameClient(a: Option<string>, b: Option<string>) { a == b || (IsNameless(a) && IsNameless(b)) }

  lemma KeysTellClients(a: Option<string>, b: Option<string>)
    ensures IpKey(a) == IpKey(b) <==> SameClient(a, b)
  {
  }

  /** When the calls of this client came. */
  function TimesOfClient(calls: seq<Call>, ip: Option<string>): seq<int> {
    if calls == [] then []
    else
      var n := |calls| - 1;
      TimesOfClient(calls[..n], ip) + if SameClient(calls[n].ip, ip) then [calls[n].now] else []
  }

  function TimesOfPage(calls: seq<Call>, page: string): seq<int> {
    if calls == [] then []
    else
      var n := |calls| - 1;
      TimesOfPage(calls[..n], page) + if calls[n].page == page then [calls[n].now] else []
  }

  /** Calls at these times, and nobody else's. */
  function At(times: seq<int>): seq<Request> {
    if times == [] then [] else At(times[..|times| - 1]) + [Request("", times[|times| - 1])]
  }

  lemma AtSnoc(times: seq<int>, now: int)
    ensures At(times + [now]) == At(times) + [Request("", now)]
  {
    assert (times + [now])[..|times|] == times;
  }

  lemma TimesSnoc(calls: seq<Call>, c: Call, ip: Option<string>, page: string)
    ensures TimesOfClient(calls + [c], ip) ==
            if SameClient(c.ip, ip) then TimesOfClient(calls, ip) + [c.now] else TimesOfClient(calls, ip)
    ensures TimesOfPage(calls + [c], page) ==
            if c.page == page then TimesOfPage(calls, page) + [c.now] else TimesOfPage(calls, page)
  {
    assert (calls + [c])[..|calls|] == calls;
    assert TimesOfClient(calls, ip) + [] == TimesOfClient(calls, ip);
    assert TimesOfPage(calls, page) + [] == TimesOfPage(calls, page);
  }

  lemma RequestsSnoc(calls: seq<Call>, c: Call)
    ensures ByIp(calls + [c]) == ByIp(calls) + [Request(IpKey(c.ip), c.now)]
    ensures ByPage(calls + [c]) == ByPage(calls) + [Request(c.page, c.now)]
  {
  }

  lemma {:induction false} ClientAlone(calls: seq<Call>, ip: Option<string>)
    ensures Alone(ByIp(calls), IpKey(ip)) == At(TimesOfClient(calls, ip))
  {
    if calls != [] {
      var front, c := calls[..|calls| - 1], calls[|calls| - 1];
      ClientAlone(front, ip);
      assert front + [c] == calls;
      RequestsSnoc(front, c);
      AloneSnoc(ByIp(front), Request(IpKey(c.ip), c.now), IpKey(ip));
      KeysTellClients(c.ip, ip);
      TimesSnoc(front, c, ip, "");
      AtSnoc(TimesOfClient(front, ip), c.now);
    }
  }

  lemma {:induction false} PageAlone(calls: seq<Call>, page: string)
    ensures Alone(ByPage(calls), page) == At(TimesOfPage(calls, page))
  {
    if calls != [] {
      var front, c := calls[..|calls| - 1], calls[|calls| - 1];
      PageAlone(front, page);
      assert front + [c] == calls;
      RequestsSnoc(front, c);
      AloneSnoc(ByPage(front), Request(c.page, c.now), page);
      TimesSnoc(front, c, None, page);
      AtSnoc(TimesOfPage(front, page), c.now);
    }
  }

  ghost predicate InOrder(calls: seq<Call>) {
    forall i, j :: 0 <= i < j < |calls| ==> calls[i].now <= calls[j].now
  }

  /** An address window decides a call by the calls of its client alone. */
  lemma ClientDecidedAlone(calls: seq<Call>, i: nat, window: int, limit: int)
    requires window > 0 && InOrder(calls) && i < |calls|
    ensures IpRun(calls, window, limit).1[i]
            <==> LastPasses(At(TimesOfClient(calls[..i + 1], calls[i].ip)), window, limit)
  {
    DecidedAlone(ByIp(calls), i, window, limit, Some(PRUNE_ABOVE));
    assert ByIp(calls)[..i + 1] == ByIp(calls[..i + 1]);
    ClientAlone(calls[..i + 1], calls[i].ip);
  }

  lemma PageDecidedAlone(calls: seq<Call>, i: nat, window: int, limit: int)
    requires window > 0 && InOrder(calls) && i < |calls|
    ensures PageRun(calls, window, limit).1[i]
            <==> LastPasses(At(TimesOfPage(calls[..i + 1], calls[i].page)), window, limit)
  {
    DecidedAlone(ByPage(calls), i, window, limit, Some(PRUNE_ABOVE));
    assert ByPage(calls)[..i + 1] == ByPage(calls[..i + 1]);
    PageAlone(calls[..i + 1], calls[i].page);
  }

  /**
   * A call is admitted, if and only if it passes a minute and an hour counting its client's calls alone and a
   * minute counting its page's calls alone, and finds both caps unreached.
   */
  lemma AdmittedByOwnCalls(calls: seq<Call>, l: Limits, i: nat)
    requires InOrder(calls) && i < |calls|
    ensures AdmitAll(calls, l).1[i] <==>
      && LastPasses(At(TimesOfClient(calls[..i + 1], calls[i].ip)), 60000, l.ipMinute)
      && LastPasses(At(TimesOfClient(calls[..i + 1], calls[i].ip)), 3600000, l.ipHour)
      && LastPasses(At(TimesOfPage(calls[..i + 1], calls[i].page)), 60000, l.pageMinute)
      && calls[i].today < l.perDay && calls[i].active < l.concurrent
  {
    AdmittedIffAllPass(calls, l, i);
    ClientDecidedAlone(calls, i, MINUTE, l.ipMinute);
    ClientDecidedAlone(calls, i, HOUR, l.ipHour);
    PageDecidedAlone(calls, i, MINUTE, l.pageMinute);
  }

  // ----- Searches -----

  /** The decisions of the search window over a history of searches. */
  function SearchAll(searches: seq<Call>, limit: int): (r: (Buckets, seq<bool>))
    ensures |r.1| == |searches|
  {
    if searches == [] then (map[], [])
    else
      var n := |searches| - 1;
      var (m, ok) := SearchAll(searches[..n], limit);
      var (m', good) := Bump(m, IpKey(searches[n].ip), MINUTE, limit, searches[n].now, Some(PRUNE_ABOVE));
      (m', ok + [good])
  }

  lemma {:induction false} SearchesRun(searches: seq<Call>, limit: int)
    ensures SearchAll(searches, limit) == IpRun(searches, MINUTE, limit)
  {
    if searches != [] {
      var n := |searches| - 1;
      SearchesRun(searches[..n], limit);
      RunsSnoc(searches[..n], searches[n], MINUTE, limit);
      assert searches[..n] + [searches[n]] == searches;
    }
  }

  /** A search passes, if and only if it passes a minute counting its client's searches alone. */
  lemma SearchedByOwnSearches(searches: seq<Call>, limit: int, i: nat)
    requires InOrder(searches) && i < |searches|
    ensures SearchAll(searches, limit).1[i]
            <==> LastPasses(At(TimesOfClient(searches[..i + 1], searches[i].ip)), 60000, limit)
  {
    SearchesRun(searches, limit);
    ClientDecidedAlone(searches, i, MINUTE, limit);
  }

  // ----- The first call of a client -----

  lemma {:induction false} NoneBefore(calls: seq<Call>, ip: Option<string>)
    requires forall j :: 0 <= j < |calls| ==> !SameClient(calls[j].ip, ip)
    ensures TimesOfClient(calls, ip) == []
  {
    if calls != [] { NoneBefore(calls[..|calls| - 1], ip); }
  }

  /** Calls from pairwise different clients are never refused by the address windows. */
  lemma StrangersPass(calls: seq<Call>, i: nat, window: int, limit: int)
    requires window > 0 && InOrder(calls) && i < |calls|
    requires forall j :: 0 <= j < i ==> !SameClient(calls[j].ip, calls[i].ip)
    ensures IpRun(calls, window, limit).1[i]
  {
    ClientDecidedAlone(calls, i, window, limit);
    assert calls[..i + 1][..i] == calls[..i];
    NoneBefore(calls[..i], calls[i].ip);
    var now := calls[i].now;
    assert At([now]) == [Request("", now)];
    assert Run([Request("", now)], window, limit, None).1 == [true];
  }

  // ----- The settings -----

  /** A whole number in range is the limit that its setting names; without settings the defaults hold. */
  lemma SettingsAreLimits(l: Limits)
    requires 1 <= l.ipMinute <= 1000 && 1 <= l.ipHour <= 10000 && 1 <= l.pageMinute <= 10000
    requires 1 <= l.perDay <= 100000 && 1 <= l.concurrent <= 1000
    ensures LimitsOf(Settings(Some(l.ipMinute as real), Some(l.ipHour as real), Some(l.pageMinute as real),
                              Some(l.perDay as real), Some(l.concurrent as real))) == l
    ensures LimitsOf(Settings(None, None, None, None, None)) == Limits(5, 20, 30, 500, 25)
  {
  }
}
