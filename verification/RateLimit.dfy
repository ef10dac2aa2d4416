/** The sliding-window rate limiter: pruned buckets against the full history of accepted requests. */
module RateLimit {
  import opened Prelude

  const WINDOW := 60.0

  const MAX_REQUESTS := 120

  const LOOPBACK := {"127.0.0.1", "::1", "localhost"}

  /** A request without client information is filed under this host. */
  function HostOf(client: Option<string>): string {
    if client.Some? then client.value else "local"
  }

  function BucketKey(host: string, path: string): string {
    host + ":" + path
  }

  /** Hosts hold no slash and paths begin with one, so no two of them share a bucket. */
  lemma BucketKeyIsInjective(host: string, path: string, host': string, path': string)
    requires '/' !in host && '/' !in host'
    requires path != "" && path[0] == '/' && path' != "" && path'[0] == '/'
    requires BucketKey(host, path) == BucketKey(host', path')
    ensures host == host' && path == path'
  {
    var key := BucketKey(host, path);
    assert key[|host| + 1] == '/' && key[|host'| + 1] == '/';
    assert forall i :: 0 <= i <= |host| ==> key[i] != '/';
    assert forall i :: 0 <= i <= |host'| ==> BucketKey(host', path')[i] != '/';
    assert key[..|host|] == host && key[..|host'|] == host';
    assert key[|host| + 1..] == path && key[|host'| + 1..] == path';
  }

  // --- The history view --------------------------------------------------------------

  /** Non-decreasing times, none of them later than `latest`. */
  predicate Ordered(times: seq<real>, latest: real) {
    times == [] ||
    (var n := |times| - 1;
     times[n] <= latest && Ordered(times[..n], times[n]))
  }

  /** The times of a history that are at most one window before `now`. */
  function Recent(history: seq<real>, now: real): seq<real> {
    if history == [] then []
    else
      var n := |history| - 1;
      Recent(history[..n], now) + if now - history[n] <= WINDOW then [history[n]] else []
  }

  /** What the limiter is for: admit while fewer than the maximum were admitted in the last window. */
  function Admit(history: seq<real>, now: real): seq<real> {
    if |Recent(history, now)| < MAX_REQUESTS then history + [now] else history
  }

  function AdmitAll(times: seq<real>): seq<real> {
    if times == [] then [] else Admit(AdmitAll(times[..|times| - 1]), times[|times| - 1])
  }

  /** How many admitted requests fall into the window that starts at `from`. */
  function InWindow(history: seq<real>, from: real): nat {
    if history == [] then 0
    else
      var n := |history| - 1;
      InWindow(history[..n], from) + if from <= history[n] <= from + WINDOW then 1 else 0
  }

  /** How many requests have a time in the window of sixty seconds, wherever they stand in the history. */
  lemma {:induction false} InWindowCounts(history: seq<real>, from: real)
    ensures InWindow(history, from) == |set i | 0 <= i < |history| && from <= history[i] <= from + 60.0|
  {
    if history != [] {
      var n := |history| - 1;
      InWindowCounts(history[..n], from);
      var before := set i | 0 <= i < n && from <= history[..n][i] <= from + 60.0;
      assert (set i | 0 <= i < |history| && from <= history[i] <= from + 60.0)
             == before + if from <= history[n] <= from + 60.0 then {n} else {};
    }
  }

  lemma {:induction false} WindowWithinRecent(history: seq<real>, from: real, now: real)
    requires now <= from + WINDOW
    ensures InWindow(history, from) <= |Recent(history, now)|
  {
    if history != [] {
      WindowWithinRecent(history[..|history| - 1], from, now);
    }
  }

  lemma AdmitKeepsBound(history: seq<real>, now: real, from: real)
    requires InWindow(history, from) <= MAX_REQUESTS
    ensures InWindow(Admit(history, now), from) <= MAX_REQUESTS
  {
    if Admit(history, now) != history {
      assert (history + [now])[..|history|] == history;
      if from <= now <= from + WINDOW {
        WindowWithinRecent(history, from, now);
      }
    }
  }

  /** Whatever arrives, every window of 60 seconds, wherever it starts, admits at most the maximum. */
  lemma {:induction false} EveryWindowIsBounded(times: seq<real>, from: real)
    ensures InWindow(AdmitAll(times), from) <= 120
  {
    if times != [] {
      EveryWindowIsBounded(times[..|times| - 1], from);
      AdmitKeepsBound(AdmitAll(times[..|times| - 1]), times[|times| - 1], from);
    }
  }

  lemma {:induction false} RecentIsWindow(history: seq<real>, latest: real, now: real)
    requires Ordered(history, latest) && latest <= now
    ensures |Recent(history, now)| == InWindow(history, now - WINDOW)
  {
    if history != [] {
      var n := |history| - 1;
      RecentIsWindow(history[..n], history[n], now);
    }
  }

  lemma {:induction false} AdmittedAreOrdered(times: seq<real>, latest: real)
    requires Ordered(times, latest)
    ensures Ordered(AdmitAll(times), latest)
  {
    if times != [] {
      var n := |times| - 1;
      var before := AdmitAll(times[..n]);
      AdmittedAreOrdered(times[..n], times[n]);
      OrderedLater(before, times[n], latest);
      assert (before + [times[n]])[..|before|] == before;
    }
  }

  lemma OrderedLater(times: seq<real>, latest: real, now: real)
    requires Ordered(times, latest) && latest <= now
    ensures Ordered(times, now)
  {
  }

  /** A request is refused only when admitting it would overfill the window that ends with it. */
  lemma RefusalIsNecessary(times: seq<real>, now: real)
    requires Ordered(times, now)
    ensures Admit(AdmitAll(times), now) == AdmitAll(times) <==>
              InWindow(AdmitAll(times) + [now], now - 60.0) > 120
  {
    var history := AdmitAll(times);
    AdmittedAreOrdered(times, now);
    RecentIsWindow(history, now, now);
    EveryWindowIsBounded(times, now - WINDOW);
    assert (history + [now])[..|history|] == history;
  }

  // --- Buckets -----------------------------------------------------------------------

  lemma {:induction false} RecentTwice(history: seq<real>, earlier: real, now: real)
    requires earlier <= now
    ensures Recent(Recent(history, earlier), now) == Recent(history, now)
  {
    if history != [] {
      var n := |history| - 1;
      var rest := Recent(history[..n], earlier);
      RecentTwice(history[..n], earlier, now);
      assert (rest + [history[n]])[..|rest|] == rest && rest + [] == rest;
    }
  }

  lemma {:induction false} RecentIsOrdered(history: seq<real>, now: real, latest: real)
    requires Ordered(history, latest)
    ensures Ordered(Recent(history, now), latest)
  {
    if history != [] {
      var n := |history| - 1;
      var rest := Recent(history[..n], now);
      RecentIsOrdered(history[..n], now, history[n]);
      OrderedLater(rest, history[n], latest);
      assert (rest + [history[n]])[..|rest|] == rest && rest + [] == rest;
    }
  }

  lemma {:induction false} DropFront(bucket: seq<real>, now: real)
    requires bucket != [] && Ordered(bucket, now)
    ensures Ordered(bucket[1..], now)
    ensures now - bucket[0] > WINDOW ==> Recent(bucket[1..], now) == Recent(bucket, now)
  {
    var n := |bucket| - 1;
    if n > 0 {
      OrderedLater(bucket[..n], bucket[n], now);
      DropFront(bucket[..n], bucket[n]);
      DropFront(bucket[..n], now);
      assert bucket[..n][1..] == bucket[1..][..n - 1];
    }
  }

  /** In an ordered bucket nothing is older than the front. */
  lemma {:induction false} FrontIsOldest(bucket: seq<real>, latest: real, now: real)
    requires bucket != [] && Ordered(bucket, latest) && now - bucket[0] <= WINDOW
    ensures Recent(bucket, now) == bucket && bucket[0] <= latest
  {
    var n := |bucket| - 1;
    if n > 0 {
      FrontIsOldest(bucket[..n], bucket[n], now);
      assert bucket == bucket[..n] + [bucket[n]];
    }
  }

  /** Drops what has left the window from the front. */
  method Prune(bucket: seq<real>, now: real) returns (pruned: seq<real>)
    requires Ordered(bucket, now)
    ensures pruned == Recent(bucket, now)
  {
    pruned := bucket;
    while pruned != [] && now - pruned[0] > WINDOW
      invariant Ordered(pruned, now) && Recent(pruned, now) == Recent(bucket, now)
      decreases |pruned|
    {
      DropFront(pruned, now);
      pruned := pruned[1..];
    }
    if pruned != [] {
      FrontIsOldest(pruned, now, now);
    }
  }

  /** A bucket holds what was recent when the last request of its key came in. */
  predicate Kept(bucket: seq<real>, times: seq<real>) {
    bucket == if times == [] then [] else Recent(AdmitAll(times), times[|times| - 1])
  }

  /** Pruning a kept bucket gives what is recent in the whole history. */
  lemma KeptPrunes(bucket: seq<real>, times: seq<real>, now: real)
    requires Kept(bucket, times) && Ordered(times, now)
    ensures Ordered(bucket, now) && Recent(bucket, now) == Recent(AdmitAll(times), now)
  {
    if times != [] {
      var last := times[|times| - 1];
      RecentTwice(AdmitAll(times), last, now);
      AdmittedAreOrdered(times, now);
      RecentIsOrdered(AdmitAll(times), last, now);
    }
  }

  lemma RecentAfterArrival(times: seq<real>, now: real)
    requires Ordered(times, now)
    ensures Ordered(times + [now], now)
    ensures
      var recent := Recent(AdmitAll(times), now);
      Recent(AdmitAll(times + [now]), now) == if |recent| < MAX_REQUESTS then recent + [now] else recent
  {
    var history := AdmitAll(times);
    assert (times + [now])[..|times|] == times && (history + [now])[..|history|] == history;
  }

  /** Prune, compare with the maximum, append. */
  method PruneAndAppend(bucket: seq<real>, now: real, ghost times: seq<real>) returns (allowed: bool, bucket': seq<real>)
    requires Kept(bucket, times) && Ordered(times, now)
    ensures allowed <==> |Recent(AdmitAll(times), now)| < MAX_REQUESTS
    ensures bucket' == Recent(AdmitAll(times + [now]), now)
    ensures Kept(bucket', times + [now]) && Ordered(times + [now], now)
  {
    KeptPrunes(bucket, times, now);
    RecentAfterArrival(times, now);
    bucket' := Prune(bucket, now);
    allowed := |bucket'| < MAX_REQUESTS;
    if allowed {
      bucket' := bucket' + [now];
    }
  }

  type Times = map<string, seq<real>>

  function BucketOf(buckets: Times, key: string): seq<real> {
    if key in buckets then buckets[key] else []
  }

  /** The bucket of `key` is right for everything that ever arrived under `key`. */
  ghost predicate KeptAt(buckets: Times, arrived: Times, latest: real, key: string) {
    Kept(BucketOf(buckets, key), BucketOf(arrived, key)) && Ordered(BucketOf(arrived, key), latest)
  }

  ghost predicate AllKept(buckets: Times, arrived: Times, latest: real) {
    forall key :: KeptAt(buckets, arrived, latest, key)
  }

  lemma AllKeptLater(buckets: Times, arrived: Times, latest: real, now: real)
    requires AllKept(buckets, arrived, latest) && latest <= now
    ensures AllKept(buckets, arrived, now)
  {
    forall key ensures KeptAt(buckets, arrived, now, key) {
      assert KeptAt(buckets, arrived, latest, key);
    }
  }

  lemma OneMoreKept(buckets: Times, arrived: Times, now: real, key: string, bucket: seq<real>, times: seq<real>)
    requires AllKept(buckets, arrived, now) && Kept(bucket, times) && Ordered(times, now)
    ensures AllKept(buckets[key := bucket], arrived[key := times], now)
  {
    var buckets', arrived' := buckets[key := bucket], arrived[key := times];
    forall k ensures KeptAt(buckets', arrived', now, k) {
      assert KeptAt(buckets, arrived, now, k);
    }
  }

  /** One request filed under `key`, on the dictionary of buckets. */
  method File(buckets: Times, key: string, now: real, ghost arrived: Times, ghost latest: real)
    returns (allowed: bool, buckets': Times)
    requires AllKept(buckets, arrived, latest) && latest <= now
    ensures allowed <==> |Recent(AdmitAll(BucketOf(arrived, key)), now)| < MAX_REQUESTS
    ensures buckets' == buckets[key := Recent(AdmitAll(BucketOf(arrived, key) + [now]), now)]
    ensures AllKept(buckets', arrived[key := BucketOf(arrived, key) + [now]], now)
  {
    AllKeptLater(buckets, arrived, latest, now);
    assert KeptAt(buckets, arrived, now, key);
    var bucket;
    allowed, bucket := PruneAndAppend(BucketOf(buckets, key), now, BucketOf(arrived, key));
    OneMoreKept(buckets, arrived, now, key, bucket, BucketOf(arrived, key) + [now]);
    buckets' := buckets[key := bucket];
  }

  class RateLimiter {
    var buckets: Times
    ghost var arrived: Times
    ghost var latest: real

    constructor (now: real)
      ensures Valid() && buckets == map[] && arrived == map[] && latest == now
    {
      buckets, arrived, latest := map[], map[], now;
    }

    ghost predicate Valid()
      reads this
    {
      AllKept(buckets, arrived, latest)
    }

    /** A request filed under `key`. */
    method Count(key: string, now: real) returns (allowed: bool)
      requires Valid() && latest <= now
      modifies this
      ensures Valid() && latest == now
      ensures allowed <==> |Recent(AdmitAll(BucketOf(old(arrived), key)), now)| < MAX_REQUESTS
      ensures arrived == old(arrived)[key := BucketOf(old(arrived), key) + [now]]
      ensures buckets == old(buckets)[key := Recent(AdmitAll(BucketOf(arrived, key)), now)]
    {
      ghost var arrived' := arrived[key := BucketOf(arrived, key) + [now]];
      allowed, buckets := File(buckets, key, now, arrived, latest);
      arrived, latest := arrived', now;
    }

    /**
     * One request at time `now`: loopback hosts pass untouched; any other is admitted exactly
     * as the full history of its key demands, and its bucket then holds exactly the accepted
     * requests of the last window.
     */
    method Guard(client: Option<string>, path: string, now: real) returns (allowed: bool)
      requires Valid() && latest <= now
      modifies this
      ensures Valid() && latest == now
      ensures client.Some? && (client.value == "127.0.0.1" || client.value == "::1" || client.value == "localhost") ==> allowed
      ensures client.None? || (client.value != "127.0.0.1" && client.value != "::1" && client.value != "localhost") ==>
                var key := (if client.None? then "local" else client.value) + ":" + path;
                && (allowed <==> InWindow(AdmitAll(BucketOf(old(arrived), key)), now - 60.0) < 120)
                && BucketOf(arrived, key) == BucketOf(old(arrived), key) + [now]
      ensures HostOf(client) in LOOPBACK ==> allowed && buckets == old(buckets) && arrived == old(arrived)
      ensures HostOf(client) !in LOOPBACK ==>
                var key := BucketKey(HostOf(client), path);
                && (allowed <==> |Recent(AdmitAll(BucketOf(old(arrived), key)), now)| < MAX_REQUESTS)
                && arrived == old(arrived)[key := BucketOf(old(arrived), key) + [now]]
                && buckets == old(buckets)[key := Recent(AdmitAll(BucketOf(arrived, key)), now)]
    {
      ghost var key := BucketKey(HostOf(client), path);
      AllKeptLater(buckets, arrived, latest, now);
      assert KeptAt(buckets, arrived, now, key);
      AdmittedAreOrdered(BucketOf(arrived, key), now);
      RecentIsWindow(AdmitAll(BucketOf(arrived, key)), now, now);
      if HostOf(client) in LOOPBACK {
        AllKeptLater(buckets, arrived, latest, now);
        latest := now;
        return true;
      }
      allowed := Count(BucketKey(HostOf(client), path), now);
    }
  }
}
