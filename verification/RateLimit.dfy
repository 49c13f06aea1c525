/** The Worker's request limiter (panel/worker/src/lib/auth.ts, enforceRateLimit): fixed
    windows per key in one insertion-ordered map, and the sliding-window bound they
    give. Times are milliseconds. */
module RateLimit {
  import opened Text

  const WINDOW_MS := 1000
  const MAX_RPS := 10
  const MAX_BUCKETS := 500

  datatype Bucket = Bucket(key: string, count: nat, start: int)

  /** The map in insertion order; setting a present key keeps its place. */
  type Buckets = seq<Bucket>

  ghost predicate DistinctKeys(b: Buckets) {
    forall i, j :: 0 <= i < j < |b| ==> b[i].key != b[j].key
  }

  function Get(b: Buckets, key: string): Option<Bucket> {
    if b == [] then None else if b[0].key == key then Some(b[0]) else Get(b[1..], key)
  }

  function Set(b: Buckets, u: Bucket): Buckets {
    if b == [] then [u] else if b[0].key == u.key then [u] + b[1..] else [b[0]] + Set(b[1..], u)
  }

  function Delete(b: Buckets, key: string): Buckets {
    if b == [] then [] else if b[0].key == key then Delete(b[1..], key) else [b[0]] + Delete(b[1..], key)
  }

  predicate Stale(u: Bucket, now: int) {
    now - u.start >= WINDOW_MS
  }

  function DropStale(b: Buckets, now: int): Buckets {
    if b == [] then [] else (if Stale(b[0], now) then [] else [b[0]]) + DropStale(b[1..], now)
  }

  /** The first bucket with the smallest window start. */
  function Oldest(b: Buckets): Option<Bucket> {
    if b == [] then None
    else
      var before, last := Oldest(b[..|b| - 1]), b[|b| - 1];
      if before.None? || last.start < before.value.start then Some(last) else before
  }

  /** The key the size fallback deletes; an empty key is never deleted. */
  function Forced(b: Buckets): Option<string> {
    if |b| > MAX_BUCKETS && Oldest(b).Some? && Oldest(b).value.key != "" then Some(Oldest(b).value.key) else None
  }

  function Evicted(b: Buckets, now: int): Buckets {
    if |b| <= MAX_BUCKETS then b
    else
      var live := DropStale(b, now);
      match Forced(live)
      case None => live
      case Some(key) => Delete(live, key)
  }

  predicate OpensWindow(b: Buckets, key: string, now: int) {
    var u := Get(b, key);
    u.None? || Stale(u.value, now)
  }

  function Admits(b: Buckets, key: string, now: int): bool {
    OpensWindow(b, key, now) || Get(b, key).value.count < MAX_RPS
  }

  function After(b: Buckets, key: string, now: int): Buckets {
    if OpensWindow(b, key, now) then Evicted(Set(b, Bucket(key, 1, now)), now)
    else
      var u := Get(b, key).value;
      if u.count >= MAX_RPS then b else Set(b, u.(count := u.count + 1))
  }

  // ---- Map facts -----------------------------------------------------------

  lemma {:induction false} SetGet(b: Buckets, u: Bucket, key: string)
    ensures Get(Set(b, u), key) == if key == u.key then Some(u) else Get(b, key)
    ensures |Set(b, u)| == |b| + if Get(b, u.key).None? then 1 else 0
  {
    if b == [] {
    } else {
      SetGet(b[1..], u, key);
    }
  }

  lemma {:induction false} DeleteGet(b: Buckets, gone: string, key: string)
    ensures Get(Delete(b, gone), key) == if key == gone then None else Get(b, key)
    ensures |Delete(b, gone)| <= |b| && (Get(b, gone).Some? ==> |Delete(b, gone)| < |b|)
  {
    if b == [] {
    } else {
      DeleteGet(b[1..], gone, key);
    }
  }

  lemma {:induction false} AbsentGet(b: Buckets, key: string)
    requires forall i :: 0 <= i < |b| ==> b[i].key != key
    ensures Get(b, key) == None
  {
    if b == [] {
    } else {
      AbsentGet(b[1..], key);
    }
  }

  lemma {:induction false} DropStaleGet(b: Buckets, now: int, key: string)
    requires DistinctKeys(b)
    ensures var u := Get(b, key);
            Get(DropStale(b, now), key) == if u.Some? && Stale(u.value, now) then None else u
    ensures |DropStale(b, now)| <= |b|
  {
    if b == [] {
    } else {
      DropStaleGet(b[1..], now, key);
      var rest := DropStale(b[1..], now);
      assert DropStale(b, now) == if Stale(b[0], now) then rest else [b[0]] + rest;
      if b[0].key == key {
        AbsentGet(b[1..], key);
      }
    }
  }

  lemma {:induction false} GetIn(b: Buckets, key: string)
    ensures Get(b, key).Some? ==> Get(b, key).value in b && Get(b, key).value.key == key
    ensures (exists u :: u in b && u.key == key) ==> Get(b, key).Some?
  {
    if b == [] {
    } else {
      GetIn(b[1..], key);
      assert b == [b[0]] + b[1..];
    }
  }

  lemma {:induction false} OldestIn(b: Buckets)
    requires b != []
    ensures Oldest(b).Some? && Oldest(b).value in b
  {
    if |b| <= 1 {
    } else {
      OldestIn(b[..|b| - 1]);
    }
  }

  /** No entry's window started earlier, and no one before it in the list as early. */
  ghost predicate FirstOldest(b: Buckets, i: int) {
    && 0 <= i < |b| && (forall j :: 0 <= j < |b| ==> b[i].start <= b[j].start)
    && forall j :: 0 <= j < i ==> b[i].start < b[j].start
  }

  lemma {:induction false} OldestLeast(b: Buckets) returns (i: int)
    requires b != []
    ensures FirstOldest(b, i) && Oldest(b) == Some(b[i])
  {
    if |b| == 1 {
      i := 0;
    } else {
      i := OldestLeast(b[..|b| - 1]);
      if b[|b| - 1].start < b[i].start {
        i := |b| - 1;
      }
    }
  }

  lemma {:induction false} SetKeys(b: Buckets, u: Bucket)
    ensures forall v :: v in Set(b, u) ==> v == u || v in b
  {
    if b == [] {
    } else {
      SetKeys(b[1..], u);
      assert b == [b[0]] + b[1..];
    }
  }

  lemma {:induction false} SetDistinct(b: Buckets, u: Bucket)
    requires DistinctKeys(b)
    ensures DistinctKeys(Set(b, u))
  {
    if b == [] || b[0].key == u.key {
    } else {
      SetDistinct(b[1..], u);
      SetKeys(b[1..], u);
      var r := Set(b[1..], u);
      forall j | 0 <= j < |r| ensures r[j].key != b[0].key {
        assert r[j] in r;
      }
    }
  }

  lemma {:induction false} DeleteKeys(b: Buckets, key: string)
    ensures forall v :: v in Delete(b, key) ==> v in b
    ensures DistinctKeys(b) ==> DistinctKeys(Delete(b, key))
  {
    if b == [] {
    } else {
      DeleteKeys(b[1..], key);
      assert b == [b[0]] + b[1..];
      var r := Delete(b[1..], key);
      if DistinctKeys(b) {
        forall j | 0 <= j < |r| ensures r[j].key != b[0].key {
          assert r[j] in b[1..];
        }
      }
    }
  }

  lemma {:induction false} DropStaleKeys(b: Buckets, now: int)
    ensures forall v :: v in DropStale(b, now) <==> v in b && !Stale(v, now)
    ensures DistinctKeys(b) ==> DistinctKeys(DropStale(b, now))
  {
    if b == [] {
    } else {
      DropStaleKeys(b[1..], now);
      assert b == [b[0]] + b[1..];
      var r := DropStale(b[1..], now);
      if DistinctKeys(b) {
        forall j | 0 <= j < |r| ensures r[j].key != b[0].key {
          assert r[j] in b[1..];
        }
      }
    }
  }

  lemma AfterDistinct(b: Buckets, key: string, now: int)
    requires DistinctKeys(b)
    ensures DistinctKeys(After(b, key, now))
  {
    SetDistinct(b, Bucket(key, 1, now));
    var grown := Set(b, Bucket(key, 1, now));
    DropStaleKeys(grown, now);
    match Forced(DropStale(grown, now)) {
      case None =>
      case Some(gone) => DeleteKeys(DropStale(grown, now), gone);
    }
    if Get(b, key).Some? {
      GetIn(b, key);
      SetDistinct(b, Get(b, key).value.(count := Get(b, key).value.count + 1));
    }
  }

  // ---- The program ---------------------------------------------------------

  lemma {:induction false} DropStaleLast(b: Buckets, now: int)
    requires b != []
    ensures var u := b[|b| - 1]; DropStale(b, now) == DropStale(b[..|b| - 1], now) + if Stale(u, now) then [] else [u]
  {
    if |b| <= 1 {
    } else {
      DropStaleLast(b[1..], now);
      var head, most := if Stale(b[0], now) then [] else [b[0]], b[..|b| - 1];
      assert b[1..][..|b| - 2] == most[1..];
      assert DropStale(most, now) == head + DropStale(most[1..], now);
      Regroup(head, DropStale(most[1..], now), if Stale(b[|b| - 1], now) then [] else [b[|b| - 1]]);
    }
  }

  class Limiter {
    var buckets: Buckets

    constructor ()
      ensures buckets == []
    {
      buckets := [];
    }

    method DeleteStale(now: int)
      modifies this
      ensures buckets == DropStale(old(buckets), now)
    {
      var kept, all := [], buckets;
      for i := 0 to |all|
        invariant kept == DropStale(all[..i], now)
      {
        DropStaleLast(all[..i + 1], now);
        assert all[..i + 1][..i] == all[..i];
        if now - all[i].start < WINDOW_MS {
          kept := kept + [all[i]];
        }
      }
      assert all[..|all|] == all;
      buckets := kept;
    }

    /** The scan for the oldest entry. */
    method FindOldest() returns (oldest: Option<Bucket>)
      ensures oldest == Oldest(buckets) && (oldest.None? <==> buckets == [])
      ensures oldest.Some? ==> exists i :: FirstOldest(buckets, i) && oldest.value == buckets[i]
    {
      oldest := None;
      for i := 0 to |buckets|
        invariant oldest == Oldest(buckets[..i])
      {
        assert buckets[..i + 1][..i] == buckets[..i];
        if oldest.None? || buckets[i].start < oldest.value.start {
          oldest := Some(buckets[i]);
        }
      }
      assert buckets[..|buckets|] == buckets;
      if buckets != [] {
        ghost var i := OldestLeast(buckets);
      }
    }

    method EvictStaleBuckets(now: int)
      modifies this
      ensures buckets == Evicted(old(buckets), now)
    {
      if |buckets| <= MAX_BUCKETS {
        return;
      }
      DeleteStale(now);
      if |buckets| > MAX_BUCKETS {
        var oldest := FindOldest();
        if oldest.Some? && oldest.value.key != "" {
          buckets := Delete(buckets, oldest.value.key);
        }
      }
    }

    method EnforceRateLimit(key: string, now: int) returns (admitted: bool)
      modifies this
      ensures admitted == Admits(old(buckets), key, now)
      ensures buckets == After(old(buckets), key, now)
    {
      var current := Get(buckets, key);
      if current.None? || now - current.value.start >= WINDOW_MS {
        buckets := Set(buckets, Bucket(key, 1, now));
        EvictStaleBuckets(now);
        return true;
      }
      if current.value.count >= MAX_RPS {
        return false;
      }
      buckets := Set(buckets, current.value.(count := current.value.count + 1));
      return true;
    }
  }

  // ---- Runs ----------------------------------------------------------------

  datatype Request = Request(key: string, now: int)

  function Run(requests: seq<Request>): Buckets {
    if requests == [] then []
    else
      var last := requests[|requests| - 1];
      After(Run(requests[..|requests| - 1]), last.key, last.now)
  }

  ghost predicate Monotone(requests: seq<Request>) {
    forall i, j :: 0 <= i < j < |requests| ==> requests[i].now <= requests[j].now
  }

  /** The size fallback did not delete this key. */
  predicate Spared(b: Buckets, r: Request, key: string) {
    OpensWindow(b, r.key, r.now) && |Set(b, Bucket(r.key, 1, r.now))| > MAX_BUCKETS
    ==> Forced(DropStale(Set(b, Bucket(r.key, 1, r.now)), r.now)) != Some(key)
  }

  ghost predicate NeverForced(requests: seq<Request>, key: string) {
    if requests == [] then true
    else
      var before := requests[..|requests| - 1];
      NeverForced(before, key) && Spared(Run(before), requests[|requests| - 1], key)
  }

  /** One admitted request: its time, its window's start, its place in the window. */
  datatype Admit = Admit(now: int, start: int, place: nat)

  /** The log of a key after one more request. */
  function Extend(b: Buckets, log: seq<Admit>, r: Request, key: string): seq<Admit> {
    if r.key != key || !Admits(b, key, r.now) then log
    else if OpensWindow(b, key, r.now) then log + [Admit(r.now, r.now, 1)]
    else log + [Admit(r.now, Get(b, key).value.start, Get(b, key).value.count + 1)]
  }

  /** The admitted requests of a key. */
  function Admitted(requests: seq<Request>, key: string): seq<Admit> {
    if requests == [] then []
    else
      var before, last := requests[..|requests| - 1], requests[|requests| - 1];
      Extend(Run(before), Admitted(before, key), last, key)
  }

  /** Windows of at most MAX_RPS admits, each WINDOW_MS after the one before. */
  ghost predicate Chain(log: seq<Admit>) {
    && (log != [] ==> log[0].place == 1)
    && (forall i :: 0 <= i < |log| ==>
          log[i].start <= log[i].now < log[i].start + WINDOW_MS && 1 <= log[i].place <= MAX_RPS)
    && (forall i :: 0 <= i < |log| - 1 ==> log[i].now <= log[i + 1].now && Follows(log[i], log[i + 1]))
  }

  ghost predicate Follows(a: Admit, b: Admit) {
    || (b.start == a.start && b.place == a.place + 1)
    || (b.start >= a.start + WINDOW_MS && b.place == 1)
  }

  /** The bucket of a key is its last admit, until the window is over. */
  ghost predicate Tracks(b: Buckets, log: seq<Admit>, key: string, now: int) {
    if log == [] then Get(b, key).None?
    else
      var last := log[|log| - 1];
      && last.now <= now
      && match Get(b, key)
         case None => now >= last.start + WINDOW_MS
         case Some(u) => u == Bucket(key, last.place, last.start)
  }

  lemma EvictedGet(b: Buckets, now: int, key: string)
    requires DistinctKeys(b)
    requires |b| > MAX_BUCKETS ==> Forced(DropStale(b, now)) != Some(key)
    ensures var u := Get(b, key);
            Get(Evicted(b, now), key) == u || (u.Some? && Stale(u.value, now) && Get(Evicted(b, now), key) == None)
  {
    if |b| > MAX_BUCKETS {
      DropStaleGet(b, now, key);
      match Forced(DropStale(b, now))
      case None =>
      case Some(gone) => DeleteGet(DropStale(b, now), gone, key);
    }
  }

  lemma AfterGet(b: Buckets, r: Request, key: string)
    requires DistinctKeys(b) && Spared(b, r, key)
    ensures var u := Get(After(b, r.key, r.now), key);
            if r.key == key && OpensWindow(b, key, r.now) then u == Some(Bucket(key, 1, r.now))
            else if r.key == key && Admits(b, key, r.now)
            then u == Some(Get(b, key).value.(count := Get(b, key).value.count + 1))
            else u == Get(b, key) || (Get(b, key).Some? && Stale(Get(b, key).value, r.now) && u == None)
  {
    var grown := Bucket(r.key, 1, r.now);
    if OpensWindow(b, r.key, r.now) {
      SetDistinct(b, grown);
      SetGet(b, grown, key);
      EvictedGet(Set(b, grown), r.now, key);
    } else if Admits(b, r.key, r.now) {
      var u := Get(b, r.key).value;
      GetIn(b, r.key);
      SetGet(b, u.(count := u.count + 1), key);
    }
  }

  lemma {:induction false} RunDistinct(requests: seq<Request>)
    ensures DistinctKeys(Run(requests))
  {
    if requests == [] {
    } else {
      RunDistinct(requests[..|requests| - 1]);
      var last := requests[|requests| - 1];
      AfterDistinct(Run(requests[..|requests| - 1]), last.key, last.now);
    }
  }

  lemma ExtendChain(b: Buckets, log: seq<Admit>, r: Request, key: string)
    requires Chain(log) && Tracks(b, log, key, r.now)
    ensures Chain(Extend(b, log, r, key))
  {
  }

  lemma ExtendTracks(b: Buckets, log: seq<Admit>, r: Request, key: string)
    requires Tracks(b, log, key, r.now)
    requires DistinctKeys(b) && Spared(b, r, key)
    ensures Tracks(After(b, r.key, r.now), Extend(b, log, r, key), key, r.now)
  {
    AfterGet(b, r, key);
    GetIn(b, key);
  }

  lemma TracksLater(b: Buckets, log: seq<Admit>, key: string, now: int, later: int)
    requires Tracks(b, log, key, now) && now <= later
    ensures Tracks(b, log, key, later)
  {
  }

  lemma {:induction false} RunTracks(requests: seq<Request>, key: string)
    requires requests != [] && Monotone(requests) && NeverForced(requests, key)
    ensures Chain(Admitted(requests, key))
    ensures Tracks(Run(requests), Admitted(requests, key), key, requests[|requests| - 1].now)
  {
    var before, last := requests[..|requests| - 1], requests[|requests| - 1];
    if before == [] {
    } else {
      RunTracks(before, key);
      TracksLater(Run(before), Admitted(before, key), key, before[|before| - 1].now, last.now);
    }
    RunDistinct(before);
    ExtendChain(Run(before), Admitted(before, key), last, key);
    ExtendTracks(Run(before), Admitted(before, key), last, key);
  }

  // ---- The bounds ----------------------------------------------------------

  lemma {:induction false} LaterWindow(log: seq<Admit>, i: nat, k: nat)
    requires Chain(log) && i + k < |log|
    ensures var a, b := log[i], log[i + k];
            || (b.start == a.start && b.place == a.place + k)
            || b.start >= a.start + WINDOW_MS
  {
    if k == 0 {
    } else {
      LaterWindow(log, i, k - 1);
      assert Follows(log[i + k - 1], log[i + k]);
    }
  }

  /** Any 2 * MAX_RPS + 1 admitted requests in a row take more than a window's time. */
  lemma Spread(log: seq<Admit>, i: nat)
    requires Chain(log) && i + 2 * MAX_RPS < |log|
    ensures log[i + 2 * MAX_RPS].now - log[i].now > WINDOW_MS
  {
    LaterWindow(log, i, MAX_RPS);
    LaterWindow(log, i + MAX_RPS, MAX_RPS);
  }

  /** Admits with from <= time < from + WINDOW_MS. */
  function CountIn(log: seq<Admit>, from: int): (n: nat)
    ensures n <= |log|
  {
    if log == [] then 0
    else CountIn(log[..|log| - 1], from) + if from <= log[|log| - 1].now < from + WINDOW_MS then 1 else 0
  }

  lemma {:induction false} CountAfter(log: seq<Admit>, lo: nat, from: int)
    requires lo <= |log| && forall i :: 0 <= i < lo ==> log[i].now < from
    ensures CountIn(log, from) <= |log| - lo
  {
    if lo < |log| {
      CountAfter(log[..|log| - 1], lo, from);
    } else if log != [] {
      CountAfter(log[..|log| - 1], lo - 1, from);
    }
  }

  lemma {:induction false} Ordered(log: seq<Admit>, i: nat, j: nat)
    requires Chain(log) && i <= j < |log|
    ensures log[i].now <= log[j].now
  {
    if i >= j {
    } else {
      Ordered(log, i, j - 1);
    }
  }

  lemma {:induction false} CountBound(log: seq<Admit>, from: int)
    requires Chain(log)
    ensures CountIn(log, from) <= 2 * MAX_RPS
  {
    if log == [] {
    } else {
      var before, last := log[..|log| - 1], log[|log| - 1];
      CountBound(before, from);
      if |log| > 2 * MAX_RPS && from <= last.now < from + WINDOW_MS {
        var lo := |log| - 2 * MAX_RPS;
        Spread(log, lo - 1);
        forall i | 0 <= i < lo ensures log[i].now < from {
          Ordered(log, i, lo - 1);
        }
        CountAfter(log, lo, from);
      }
    }
  }

  /** Over every run of requests for any keys under a monotone clock, any half-open
      interval of a window's length admits at most 2 * MAX_RPS requests of a key the
      size fallback never deleted. */
  lemma SlidingWindow(requests: seq<Request>, key: string, from: int)
    requires Monotone(requests) && NeverForced(requests, key)
    ensures CountIn(Admitted(requests, key), from) <= 2 * MAX_RPS
  {
    if requests != [] {
      RunTracks(requests, key);
    }
    CountBound(Admitted(requests, key), from);
  }

  /** No false refusal: a refused key has MAX_RPS admitted requests less than a window
      old. */
  lemma RefusedIsBusy(requests: seq<Request>, key: string, now: int)
    requires Monotone(requests + [Request(key, now)]) && NeverForced(requests, key)
    requires !Admits(Run(requests), key, now)
    ensures var log := Admitted(requests, key);
            |log| >= MAX_RPS && now - log[|log| - MAX_RPS].now < WINDOW_MS
  {
    var all := requests + [Request(key, now)];
    assert forall i :: 0 <= i < |requests| ==> all[i] == requests[i];
    assert all[|requests|].now == now;
    if requests != [] {
      RunTracks(requests, key);
      TracksLater(Run(requests), Admitted(requests, key), key, requests[|requests| - 1].now, now);
    }
    FullWindow(Run(requests), Admitted(requests, key), key, now);
  }

  /** A key that is refused stands at the limit of its present window. */
  lemma FullWindow(b: Buckets, log: seq<Admit>, key: string, now: int)
    requires Chain(log) && Tracks(b, log, key, now) && !Admits(b, key, now)
    ensures |log| >= MAX_RPS && now - log[|log| - MAX_RPS].now < WINDOW_MS
  {
    SamePlaces(log, |log| - 1, MAX_RPS - 1);
  }

  /** The admits of one window stand next to each other. */
  lemma {:induction false} SamePlaces(log: seq<Admit>, i: nat, k: nat)
    requires Chain(log) && i < |log| && k < log[i].place
    ensures k <= i && log[i - k].start == log[i].start && log[i - k].place == log[i].place - k
  {
    if k == 0 {
    } else {
      SamePlaces(log, i, k - 1);
      assert i - (k - 1) > 0;
      assert Follows(log[i - k], log[i - k + 1]);
    }
  }

  // ---- The size ------------------------------------------------------------

  /** One request leaves the map over the limit exactly when it was already over, or a
      new key arrived at a full map with nothing stale and the empty key oldest. */
  lemma SizeAfter(b: Buckets, key: string, now: int)
    requires |b| <= MAX_BUCKETS && DistinctKeys(b)
    ensures var grown := Set(b, Bucket(key, 1, now));
            (|After(b, key, now)| > MAX_BUCKETS
             <==> Get(b, key).None? && |DropStale(grown, now)| > MAX_BUCKETS && Oldest(grown).value.key == "")
  {
    var grown := Set(b, Bucket(key, 1, now));
    SetGet(b, Bucket(key, 1, now), key);
    if OpensWindow(b, key, now) {
      SetDistinct(b, Bucket(key, 1, now));
      DropStaleGet(grown, now, key);
      DropStaleAll(grown, now);
      var live := DropStale(grown, now);
      if live != [] {
        OldestIn(live);
        GetIn(live, Oldest(live).value.key);
        DeleteGet(live, Oldest(live).value.key, key);
      }
    } else {
      var u := Get(b, key).value;
      GetIn(b, key);
      SetGet(b, u.(count := u.count + 1), key);
      DropStaleShort(grown, now);
    }
  }

  lemma {:induction false} DropStaleShort(b: Buckets, now: int)
    ensures |DropStale(b, now)| <= |b|
  {
    if b == [] {
    } else {
      DropStaleShort(b[1..], now);
    }
  }

  lemma {:induction false} DropStaleAll(b: Buckets, now: int)
    ensures |DropStale(b, now)| <= |b|
    ensures |DropStale(b, now)| == |b| ==> DropStale(b, now) == b
  {
    if b == [] {
    } else {
      DropStaleAll(b[1..], now);
    }
  }

  /** With non-empty keys, which are all the keys the Worker passes, the map never holds
      more than MAX_BUCKETS entries. */
  lemma {:induction false} SizeBound(requests: seq<Request>)
    requires forall i :: 0 <= i < |requests| ==> requests[i].key != ""
    ensures |Run(requests)| <= MAX_BUCKETS
    ensures forall u :: u in Run(requests) ==> u.key != ""
  {
    if requests == [] {
    } else {
      var before, last := requests[..|requests| - 1], requests[|requests| - 1];
      SizeBound(before);
      RunDistinct(before);
      AfterKeys(Run(before), last);
      SizeAfter(Run(before), last.key, last.now);
      var grown := Set(Run(before), Bucket(last.key, 1, last.now));
      SetKeys(Run(before), Bucket(last.key, 1, last.now));
      if grown != [] {
        OldestIn(grown);
      }
    }
  }

  lemma AfterKeys(b: Buckets, r: Request)
    ensures forall u :: u in After(b, r.key, r.now) ==> u.key == r.key || u in b
  {
    var grown := Set(b, Bucket(r.key, 1, r.now));
    SetKeys(b, Bucket(r.key, 1, r.now));
    DropStaleKeys(grown, r.now);
    match Forced(DropStale(grown, r.now)) {
      case None =>
      case Some(gone) => DeleteKeys(DropStale(grown, r.now), gone);
    }
    if Get(b, r.key).Some? {
      GetIn(b, r.key);
      SetKeys(b, Get(b, r.key).value.(count := Get(b, r.key).value.count + 1));
    }
  }
}
