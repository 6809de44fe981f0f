/**
  The statistics of `src/agent-learning-loop.mjs`: routing buckets against their group-by specification,
  the control and candidate halves of a replay, and the latency figures.

  Ratios are exact; the built-in sort is any ordered rearrangement.
 */
module LearningLoop {
  import opened Basics

  // ----- routing buckets -----

  /** A request as the buckets see it: its routing key, whether it succeeded, and its duration. */
  datatype Request = Request(key: string, success: bool, duration: int)

  datatype Sample = Sample(rank: nat, success: bool, duration: int)

  datatype Bucket = Bucket(
    samples: nat, successes: nat, failures: nat, latencies: seq<int>, latestRank: nat, replay: seq<Sample>)

  type Buckets = map<string, Bucket>

  /** The positions of the requests with a key, in order. */
  function Matching(requests: seq<Request>, key: string): seq<nat> {
    if requests == [] then []
    else
      var n := |requests| - 1;
      Matching(requests[..n], key) + (if requests[n].key == key then [n] else [])
  }

  function CountOk(requests: seq<Request>, at: seq<nat>): nat {
    if at == [] then 0
    else
      var i := at[|at| - 1];
      CountOk(requests, at[..|at| - 1]) + (if i < |requests| && requests[i].success then 1 else 0)
  }

  /** What a bucket must hold: the requests of its key, counted, timed and ranked. */
  ghost predicate Summarises(b: Bucket, requests: seq<Request>, at: seq<nat>) {
    && at != [] && (forall k :: 0 <= k < |at| ==> at[k] < |requests|)
    && b.samples == |at| == |b.latencies| == |b.replay|
    && b.successes == CountOk(requests, at)
    && b.successes + b.failures == b.samples
    && b.latestRank == at[0]
    && (forall k :: 0 <= k < |at| ==> b.latencies[k] == requests[at[k]].duration)
    && (forall k :: 0 <= k < |at| ==> b.replay[k] == Sample(at[k], requests[at[k]].success, requests[at[k]].duration))
  }

  /** One bucket for each non-empty key that occurs, summarising exactly the requests with that key. */
  ghost predicate GroupedBy(buckets: Buckets, requests: seq<Request>) {
    && (forall key :: key in buckets <==> key != "" && Matching(requests, key) != [])
    && (forall key :: key in buckets ==> Summarises(buckets[key], requests, Matching(requests, key)))
  }

  lemma {:induction false} MatchingMeaning(requests: seq<Request>, key: string)
    ensures forall k :: 0 <= k < |Matching(requests, key)| ==>
              Matching(requests, key)[k] < |requests| && requests[Matching(requests, key)[k]].key == key
    ensures forall i :: 0 <= i < |requests| && requests[i].key == key ==> i in Matching(requests, key)
    ensures forall j, k :: 0 <= j < k < |Matching(requests, key)| ==>
              Matching(requests, key)[j] < Matching(requests, key)[k]
  {
    hide Matching;
    if requests == [] {
      NoneMatching(key);
    } else {
      var before, last := requests[..|requests| - 1], requests[|requests| - 1];
      assert requests == before + [last];
      MatchingMeaning(before, key);
      MatchingSnoc(before, last, key);
      MatchingStep(before, last, Matching(before, key), key);
    }
  }

  lemma NoneMatching(key: string)
    ensures Matching([], key) == []
  {
  }

  /** What is known of the positions of a key, one request later. */
  lemma MatchingStep(before: seq<Request>, last: Request, at: seq<nat>, key: string)
    requires forall k :: 0 <= k < |at| ==> at[k] < |before| && before[at[k]].key == key
    requires forall i :: 0 <= i < |before| && before[i].key == key ==> i in at
    requires forall j, k :: 0 <= j < k < |at| ==> at[j] < at[k]
    ensures var all, at1 := before + [last], if key == last.key then at + [|before|] else at;
            && (forall k :: 0 <= k < |at1| ==> at1[k] < |all| && all[at1[k]].key == key)
            && (forall i :: 0 <= i < |all| && all[i].key == key ==> i in at1)
            && (forall j, k :: 0 <= j < k < |at1| ==> at1[j] < at1[k])
  {
    var all, at1 := before + [last], if key == last.key then at + [|before|] else at;
    forall i | 0 <= i < |all| && all[i].key == key
      ensures i in at1
    {
      if i == |before| {
        assert at1[|at|] == i;
      } else {
        assert all[i] == before[i];
      }
    }
  }

  lemma MatchingSnoc(requests: seq<Request>, r: Request, key: string)
    ensures Matching(requests + [r], key)
         == if key == r.key then Matching(requests, key) + [|requests|] else Matching(requests, key)
  {
    assert (requests + [r])[..|requests|] == requests;
    assert Matching(requests, key) + [] == Matching(requests, key);
  }

  lemma {:induction false} CountOkLonger(requests: seq<Request>, more: seq<Request>, at: seq<nat>)
    requires requests <= more && forall k :: 0 <= k < |at| ==> at[k] < |requests|
    ensures CountOk(more, at) == CountOk(requests, at)
  {
    if at != [] {
      CountOkLonger(requests, more, at[..|at| - 1]);
    }
  }

  lemma SummarisesLonger(b: Bucket, requests: seq<Request>, more: seq<Request>, at: seq<nat>)
    requires requests <= more && Summarises(b, requests, at)
    ensures Summarises(b, more, at)
  {
    CountOkLonger(requests, more, at);
  }

  function Empty(rank: nat): Bucket {
    Bucket(0, 0, 0, [], rank, [])
  }

  function AddTo(b: Bucket, r: Request, rank: nat): Bucket {
    Bucket(b.samples + 1, b.successes + (if r.success then 1 else 0), b.failures + (if r.success then 0 else 1),
           b.latencies + [r.duration], b.latestRank, b.replay + [Sample(rank, r.success, r.duration)])
  }

  lemma AddStep(b: Bucket, requests: seq<Request>, r: Request, at: seq<nat>)
    requires if at == [] then b == Empty(|requests|) else Summarises(b, requests, at)
    ensures Summarises(AddTo(b, r, |requests|), requests + [r], at + [|requests|])
  {
    var more, at1 := requests + [r], at + [|requests|];
    assert at1[..|at|] == at;
    if at != [] {
      CountOkLonger(requests, more, at);
    }
    assert CountOk(more, at1) == CountOk(more, at) + if r.success then 1 else 0;
  }

  lemma BucketStep(buckets: Buckets, requests: seq<Request>, r: Request)
    requires GroupedBy(buckets, requests)
    ensures r.key == "" ==> GroupedBy(buckets, requests + [r])
    ensures r.key != "" ==>
              var b := if r.key in buckets then buckets[r.key] else Empty(|requests|);
              GroupedBy(buckets[r.key := AddTo(b, r, |requests|)], requests + [r])
  {
    hide Summarises;
    hide Matching;
    hide AddTo;
    hide Empty;
    var more := requests + [r];
    forall key
      ensures Matching(more, key)
           == if key == r.key then Matching(requests, key) + [|requests|] else Matching(requests, key)
    {
      MatchingSnoc(requests, r, key);
    }
    forall key | key in buckets
      ensures Summarises(buckets[key], more, Matching(requests, key))
    {
      SummarisesLonger(buckets[key], requests, more, Matching(requests, key));
    }
    if r.key != "" {
      AddStep(if r.key in buckets then buckets[r.key] else Empty(|requests|), requests, r, Matching(requests, r.key));
    }
  }

  /** The loop of `buildRoutingInsights`. */
  method BuildBuckets(requests: seq<Request>) returns (buckets: Buckets)
    ensures GroupedBy(buckets, requests)
  {
    buckets := map[];
    for index := 0 to |requests|
      invariant GroupedBy(buckets, requests[..index])
    {
      var request := requests[index];
      BucketStep(buckets, requests[..index], request);
      assert requests[..index + 1] == requests[..index] + [request];
      if request.key == "" {
        continue;
      }
      if request.key !in buckets {
        buckets := buckets[request.key := Empty(index)];
      }
      buckets := buckets[request.key := AddTo(buckets[request.key], request, index)];
    }
    assert requests[..|requests|] == requests;
  }

  /** The samples of the listed buckets. */
  function Total(buckets: Buckets, keys: seq<string>): nat
    requires forall k :: k in keys ==> k in buckets
  {
    if keys == [] then 0
    else
      assert keys[|keys| - 1] in keys;
      Total(buckets, keys[..|keys| - 1]) + buckets[keys[|keys| - 1]].samples
  }

  /** The number of requests with a key. */
  function Keyed(requests: seq<Request>): nat {
    if requests == [] then 0
    else Keyed(requests[..|requests| - 1]) + (if requests[|requests| - 1].key == "" then 0 else 1)
  }

  /** The number of requests with one of these keys. */
  function KeyedIn(requests: seq<Request>, keys: seq<string>): nat {
    if requests == [] then 0
    else KeyedIn(requests[..|requests| - 1], keys) + (if requests[|requests| - 1].key in keys then 1 else 0)
  }

  lemma {:induction false} OneMoreKey(requests: seq<Request>, keys: seq<string>, key: string)
    requires key !in keys
    ensures KeyedIn(requests, keys + [key]) == KeyedIn(requests, keys) + |Matching(requests, key)|
  {
    if requests != [] {
      OneMoreKey(requests[..|requests| - 1], keys, key);
      assert requests[|requests| - 1].key in keys + [key]
        <==> requests[|requests| - 1].key in keys || requests[|requests| - 1].key == key;
    }
  }

  lemma {:induction false} TotalIsKeyedIn(buckets: Buckets, requests: seq<Request>, keys: seq<string>)
    requires GroupedBy(buckets, requests) && (forall k :: k in keys ==> k in buckets)
    requires forall i, j :: 0 <= i < j < |keys| ==> keys[i] != keys[j]
    ensures Total(buckets, keys) == KeyedIn(requests, keys)
  {
    if keys == [] {
      NoKeys(requests);
    } else {
      var before, key := keys[..|keys| - 1], keys[|keys| - 1];
      assert keys == before + [key];
      assert forall k :: k in before ==> k in keys;
      assert key in keys;
      TotalIsKeyedIn(buckets, requests, before);
      OneMoreKey(requests, before, key);
    }
  }

  lemma {:induction false} NoKeys(requests: seq<Request>)
    ensures KeyedIn(requests, []) == 0
  {
    if requests != [] {
      NoKeys(requests[..|requests| - 1]);
    }
  }

  lemma {:induction false} AllKeys(requests: seq<Request>, keys: seq<string>)
    requires forall k :: k in keys ==> k != ""
    requires forall i :: 0 <= i < |requests| && requests[i].key != "" ==> requests[i].key in keys
    ensures KeyedIn(requests, keys) == Keyed(requests)
  {
    if requests != [] {
      AllKeys(requests[..|requests| - 1], keys);
    }
  }

  /**
    No request is counted twice or dropped: over all buckets, in any order, the samples are the requests with
    a key, and so all of them, as the source never makes an empty key.
   */
  lemma BucketsCoverRequests(buckets: Buckets, requests: seq<Request>, keys: seq<string>)
    requires GroupedBy(buckets, requests) && (forall k :: k in keys <==> k in buckets)
    requires forall i, j :: 0 <= i < j < |keys| ==> keys[i] != keys[j]
    ensures Total(buckets, keys) == Keyed(requests)
    ensures (forall i :: 0 <= i < |requests| ==> requests[i].key != "") ==> Total(buckets, keys) == |requests|
  {
    forall i | 0 <= i < |requests| && requests[i].key != ""
      ensures requests[i].key in keys
    {
      MatchingMeaning(requests, requests[i].key);
      assert i in Matching(requests, requests[i].key);
    }
    hide Matching;
    TotalIsKeyedIn(buckets, requests, keys);
    AllKeys(requests, keys);
    AllKeyed(requests);
  }

  lemma {:induction false} AllKeyed(requests: seq<Request>)
    ensures (forall i :: 0 <= i < |requests| ==> requests[i].key != "") ==> Keyed(requests) == |requests|
  {
    if requests != [] {
      AllKeyed(requests[..|requests| - 1]);
    }
  }

  // ----- replay halves -----

  ghost predicate SortedByRank(s: seq<Sample>) {
    forall i, j :: 0 <= i < j < |s| ==> s[i].rank >= s[j].rank
  }

  function Successes(s: seq<Sample>): nat {
    if s == [] then 0 else (if s[0].success then 1 else 0) + Successes(s[1..])
  }

  lemma {:induction false} SuccessesConcat(a: seq<Sample>, b: seq<Sample>)
    ensures Successes(a + b) == Successes(a) + Successes(b)
    ensures |a| == 1 ==> Successes(a) == if a[0].success then 1 else 0
  {
    if a == [] {
      assert a + b == b;
    } else {
      SuccessesConcat(a[1..], b);
      assert (a + b)[1..] == a[1..] + b;
    }
  }

  /** The first element of `a` stands somewhere in its rearrangement `b`; without it, the rest is rearranged. */
  lemma RemoveFirst<T>(a: seq<T>, b: seq<T>) returns (j: nat)
    requires a != [] && multiset(a) == multiset(b)
    ensures j < |b| && b[j] == a[0] && multiset(a[1..]) == multiset(b[..j] + b[j + 1..])
    ensures b == b[..j] + ([a[0]] + b[j + 1..])
  {
    assert a == [a[0]] + a[1..];
    assert a[0] in multiset(b);
    j :| 0 <= j < |b| && b[j] == a[0];
    assert b == b[..j] + ([b[j]] + b[j + 1..]);
    assert multiset(b) == multiset(b[..j]) + multiset{a[0]} + multiset(b[j + 1..]);
    assert multiset(a) == multiset{a[0]} + multiset(a[1..]);
    assert multiset(a[1..]) == multiset(a) - multiset{a[0]};
    assert multiset(b[..j] + b[j + 1..]) == multiset(b) - multiset{a[0]};
  }

  lemma {:induction false} SuccessesPermuted(a: seq<Sample>, b: seq<Sample>)
    requires multiset(a) == multiset(b)
    ensures Successes(a) == Successes(b)
  {
    if a == [] {
      assert |multiset(b)| == |b|;
    } else {
      var j := RemoveFirst(a, b);
      SuccessesPermuted(a[1..], b[..j] + b[j + 1..]);
      SuccessesConcat(b[..j], [a[0]] + b[j + 1..]);
      SuccessesConcat(b[..j], b[j + 1..]);
      assert ([a[0]] + b[j + 1..])[1..] == b[j + 1..];
    }
  }

  /** `buildABReplayEvidence`: the older half and the newer half of the sorted samples, when both exist. */
  function Split(sorted: seq<Sample>): (seq<Sample>, seq<Sample>) {
    (sorted[..|sorted| / 2], sorted[|sorted| / 2..])
  }

  /** The halves partition the samples evenly, the control half is no newer, and their successes add up. */
  lemma ReplayHalves(samples: seq<Sample>, sorted: seq<Sample>)
    requires multiset(sorted) == multiset(samples) && SortedByRank(sorted)
    ensures var (control, candidate) := Split(sorted);
            && multiset(control) + multiset(candidate) == multiset(samples)
            && |control| <= |candidate| <= |control| + 1
            && (forall i, j :: 0 <= i < |control| && 0 <= j < |candidate| ==> control[i].rank >= candidate[j].rank)
            && Successes(control) + Successes(candidate) == Successes(samples)
            && (|samples| >= 2 <==> control != [] && |sorted| >= 2)
  {
    var (control, candidate) := Split(sorted);
    assert sorted == control + candidate;
    HalvesOrdered(sorted, control, candidate);
    hide SortedByRank, Successes;
    SuccessesConcat(control, candidate);
    SuccessesPermuted(sorted, samples);
    assert |multiset(sorted)| == |sorted| && |multiset(samples)| == |samples|;
  }

  lemma HalvesOrdered(sorted: seq<Sample>, control: seq<Sample>, candidate: seq<Sample>)
    requires SortedByRank(sorted) && sorted == control + candidate
    ensures forall i, j :: 0 <= i < |control| && 0 <= j < |candidate| ==> control[i].rank >= candidate[j].rank
  {
    assert forall i :: 0 <= i < |control| ==> control[i] == sorted[i];
    assert forall j :: 0 <= j < |candidate| ==> candidate[j] == sorted[|control| + j];
  }

  // ----- latencies -----

  ghost predicate Ascending(s: seq<int>) {
    forall i, j :: 0 <= i < j < |s| ==> s[i] <= s[j]
  }

  function CountAtMost(s: seq<int>, v: int): nat {
    if s == [] then 0 else (if s[0] <= v then 1 else 0) + CountAtMost(s[1..], v)
  }

  function CountBelow(s: seq<int>, v: int): nat {
    CountAtMost(s, v - 1)
  }

  function Sum(s: seq<int>): int {
    if s == [] then 0 else s[0] + Sum(s[1..])
  }

  /** `Math.max(0, Math.ceil(n * 0.95) - 1)`. */
  function P95Index(n: nat): nat {
    Max(0, (n * 95 + 99) / 100 - 1)
  }

  function P95(sorted: seq<int>): int
    requires sorted != []
  {
    sorted[P95Index(|sorted|)]
  }

  /** `Math.round(sum / n)`, halves up. */
  function RoundedAverage(s: seq<int>): int
    requires s != []
  {
    (2 * Sum(s) + |s|) / (2 * |s|)
  }

  lemma {:induction false} CountConcat(a: seq<int>, b: seq<int>, v: int)
    ensures CountAtMost(a + b, v) == CountAtMost(a, v) + CountAtMost(b, v)
  {
    if a == [] {
      assert a + b == b;
    } else {
      CountConcat(a[1..], b, v);
      assert (a + b)[1..] == a[1..] + b;
    }
  }

  lemma {:induction false} CountAll(s: seq<int>, v: int)
    ensures CountAtMost(s, v) <= |s|
    ensures (forall i :: 0 <= i < |s| ==> s[i] <= v) ==> CountAtMost(s, v) == |s|
    ensures (forall i :: 0 <= i < |s| ==> s[i] > v) ==> CountAtMost(s, v) == 0
  {
    if s != [] {
      CountAll(s[1..], v);
    }
  }

  lemma {:induction false} CountPermuted(a: seq<int>, b: seq<int>, v: int)
    requires multiset(a) == multiset(b)
    ensures CountAtMost(a, v) == CountAtMost(b, v)
  {
    if a == [] {
      assert |multiset(b)| == |b|;
    } else {
      var j := RemoveFirst(a, b);
      CountPermuted(a[1..], b[..j] + b[j + 1..], v);
      CountConcat(b[..j], [a[0]] + b[j + 1..], v);
      CountConcat(b[..j], b[j + 1..], v);
      assert ([a[0]] + b[j + 1..])[1..] == b[j + 1..];
    }
  }

  lemma SortedCounts(sorted: seq<int>, k: nat)
    requires Ascending(sorted) && k < |sorted|
    ensures CountAtMost(sorted, sorted[k]) >= k + 1 && CountBelow(sorted, sorted[k]) <= k
  {
    SplitCounts(sorted, k + 1, sorted[k]);
    SplitCounts(sorted, k, sorted[k] - 1);
  }

  /** Counting, split at a position: all before it when they are small enough, none after when they are greater. */
  lemma SplitCounts(s: seq<int>, n: nat, v: int)
    requires n <= |s|
    ensures (forall i :: 0 <= i < n ==> s[i] <= v) ==> CountAtMost(s, v) >= n
    ensures (forall i :: n <= i < |s| ==> s[i] > v) ==> CountAtMost(s, v) <= n
  {
    hide CountAtMost;
    assert s == s[..n] + s[n..];
    CountConcat(s[..n], s[n..], v);
    CountAll(s[..n], v);
    CountAll(s[n..], v);
  }

  /** At least 95% of the latencies are at most the p95 figure, and fewer than 95% are below it. */
  lemma P95Meaning(latencies: seq<int>, sorted: seq<int>)
    requires multiset(sorted) == multiset(latencies) && Ascending(sorted) && latencies != []
    ensures sorted != [] && P95(sorted) in latencies
    ensures CountAtMost(latencies, P95(sorted)) * 100 >= 95 * |latencies|
    ensures CountBelow(latencies, P95(sorted)) * 100 < 95 * |latencies|
  {
    assert |multiset(sorted)| == |sorted| && |multiset(latencies)| == |latencies|;
    hide CountAtMost;
    var k := P95Index(|sorted|);
    var v := sorted[k];
    assert v in multiset(sorted);
    CountPermuted(sorted, latencies, v);
    CountPermuted(sorted, latencies, v - 1);
    SortedCounts(sorted, k);
  }

  lemma {:induction false} SumBounds(s: seq<int>, lo: int, hi: int)
    requires forall i :: 0 <= i < |s| ==> lo <= s[i] <= hi
    ensures |s| * lo <= Sum(s) <= |s| * hi
  {
    if s != [] {
      SumBounds(s[1..], lo, hi);
      assert |s| * lo == lo + |s[1..]| * lo && |s| * hi == hi + |s[1..]| * hi;
    }
  }

  /** The rounded average is the integer next to the mean, halves up, and between the least and the greatest latency. */
  lemma AverageBounds(s: seq<int>, lo: int, hi: int)
    requires s != [] && forall i :: 0 <= i < |s| ==> lo <= s[i] <= hi
    ensures lo <= RoundedAverage(s) <= hi
    ensures 2 * |s| * RoundedAverage(s) <= 2 * Sum(s) + |s| < 2 * |s| * (RoundedAverage(s) + 1)
  {
    SumBounds(s, lo, hi);
    RoundBounds(Sum(s), |s|, lo, hi);
    Quotient(2 * Sum(s) + |s|, 2 * |s|);
  }

  lemma Quotient(x: int, d: int)
    requires d > 0
    ensures d * (x / d) <= x < d * (x / d + 1)
  {
    assert x == d * (x / d) + x % d;
    assert d * (x / d + 1) == d * (x / d) + d;
  }

  /** Sums add up, whatever the order and grouping. */
  lemma {:induction false} SumConcat(a: seq<int>, b: seq<int>)
    ensures Sum(a + b) == Sum(a) + Sum(b) && (|a| == 1 ==> Sum(a) == a[0])
  {
    if a == [] {
      assert a + b == b;
    } else {
      SumConcat(a[1..], b);
      assert (a + b)[1..] == a[1..] + b;
    }
  }

  lemma RoundBounds(sum: int, n: int, lo: int, hi: int)
    requires n > 0 && n * lo <= sum <= n * hi
    ensures lo <= (2 * sum + n) / (2 * n) <= hi
  {
    var d := 2 * n;
    assert lo * d == 2 * (n * lo) && hi * d == 2 * (n * hi);
    DivAtLeast(2 * sum + n, d, lo);
    DivBelow(2 * sum + n, d, hi + 1);
    assert (hi + 1) * d == hi * d + d;
  }

  lemma DivAtLeast(x: int, d: int, lo: int)
    requires d > 0 && x >= lo * d
    ensures x / d >= lo
  {
    if x / d < lo {
      MulMonotone(x / d + 1, lo, d);
    }
  }

  lemma DivBelow(x: int, d: int, hi: int)
    requires d > 0
    ensures x < hi * d ==> x / d < hi
  {
    if x / d >= hi {
      MulMonotone(hi, x / d, d);
    }
  }

  lemma MulMonotone(a: int, b: int, d: int)
    requires a <= b && d > 0
    ensures a * d <= b * d
  {
  }
}
