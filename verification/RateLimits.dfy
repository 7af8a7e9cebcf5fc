/** The fixed-window rate limiter, and why its pruning never shows. */
module RateLimits {
  import opened Seqs

  const MAX_TRACKED_KEYS := 10_000

  datatype Entry = Entry(count: nat, start: int)
  type Table = map<string, Entry>

  /** `max` hits, or failures, per `window`. */
  datatype Limit = Limit(max: nat, window: nat)

  predicate Expired(e: Entry, window: nat, now: int) {
    now - e.start >= window
  }

  function Prune(t: Table, window: nat, now: int): Table {
    if |t| >= MAX_TRACKED_KEYS then map k | k in t && !Expired(t[k], window, now) :: t[k] else t
  }

  /** The key's entry with one more event in its window, or in a new window from now on. */
  function Bumped(t: Table, window: nat, key: string, now: int): Entry {
    if key in t && !Expired(t[key], window, now) then Entry(t[key].count + 1, t[key].start) else Entry(1, now)
  }

  class RateLimiter {
    const limit: Limit
    var hits: Table

    constructor (limit: Limit)
      ensures this.limit == limit && hits == map[]
    {
      this.limit, hits := limit, map[];
    }

    method Allow(key: string, now: int) returns (ok: bool)
      modifies this
      ensures hits == AfterHit(true, limit, old(hits), Hit(key, now))
      ensures ok == Allows(true, limit, old(hits), Hit(key, now))
      ensures var running := key in old(hits) && now - old(hits)[key].start < limit.window;
              && key in hits
              && hits[key] == (if running then Entry(old(hits)[key].count + 1, old(hits)[key].start) else Entry(1, now))
              && (ok <==> hits[key].count <= limit.max)
      ensures forall other :: other in hits && other != key ==> other in old(hits) && hits[other] == old(hits)[other]
      ensures forall other :: other in old(hits) && other !in hits ==>
                now - old(hits)[other].start >= limit.window && |old(hits)| >= 10_000
    {
      hits := Prune(hits, limit.window, now);
      var entry := if key in hits then hits[key] else Entry(0, now);
      if now - entry.start >= limit.window {
        entry := Entry(0, now);
      }
      entry := Entry(entry.count + 1, entry.start);
      hits := hits[key := entry];
      ok := entry.count <= limit.max;
    }
  }

  // ---- Runs of the rate limiter, pruned or not ----

  datatype Hit = Hit(key: string, now: int)

  function AfterHit(pruning: bool, limit: Limit, t: Table, hit: Hit): Table {
    var t1 := if pruning then Prune(t, limit.window, hit.now) else t;
    t1[hit.key := Bumped(t1, limit.window, hit.key, hit.now)]
  }

  function Allows(pruning: bool, limit: Limit, t: Table, hit: Hit): bool {
    AfterHit(pruning, limit, t, hit)[hit.key].count <= limit.max
  }

  function TableAfter(pruning: bool, limit: Limit, hits: seq<Hit>): Table {
    if hits == [] then map[]
    else AfterHit(pruning, limit, TableAfter(pruning, limit, hits[..|hits| - 1]), hits[|hits| - 1])
  }

  /** The answer to the i-th call. */
  function Answer(pruning: bool, limit: Limit, hits: seq<Hit>, i: nat): bool
    requires i < |hits|
  {
    Allows(pruning, limit, TableAfter(pruning, limit, hits[..i]), hits[i])
  }

  ghost predicate InOrder(hits: seq<Hit>) {
    forall i, j :: 0 <= i < j < |hits| ==> hits[i].now <= hits[j].now
  }

  function LastTime(hits: seq<Hit>): int {
    if hits == [] then 0 else hits[|hits| - 1].now
  }

  /** An entry counts only while its window lasts. */
  function Live(t: Table, key: string, window: nat, now: int): Option<Entry> {
    if key in t && !Expired(t[key], window, now) then Some(t[key]) else None
  }

  lemma PruneKeepsLive(t: Table, key: string, window: nat, now: int, later: int)
    requires now <= later
    ensures Live(Prune(t, window, now), key, window, later) == Live(t, key, window, later)
  {
  }

  ghost predicate SameLive(a: Table, b: Table, window: nat, now: int) {
    forall key, later :: now <= later ==> Live(a, key, window, later) == Live(b, key, window, later)
  }

  lemma HitKeepsSameLive(limit: Limit, a: Table, b: Table, hit: Hit)
    requires SameLive(a, b, limit.window, hit.now)
    ensures SameLive(AfterHit(true, limit, a, hit), AfterHit(false, limit, b, hit), limit.window, hit.now)
    ensures Allows(true, limit, a, hit) == Allows(false, limit, b, hit)
  {
    var w, pruned := limit.window, Prune(a, limit.window, hit.now);
    var a', b' := AfterHit(true, limit, a, hit), AfterHit(false, limit, b, hit);
    PruneKeepsLive(a, hit.key, w, hit.now, hit.now);
    assert Live(a, hit.key, w, hit.now) == Live(b, hit.key, w, hit.now);
    assert a'[hit.key] == b'[hit.key];
    forall key, later | hit.now <= later ensures Live(a', key, w, later) == Live(b', key, w, later) {
      hide Prune;
      PruneKeepsLive(a, key, w, hit.now, later);
      assert Live(a, key, w, later) == Live(b, key, w, later);
    }
  }

  lemma {:induction false} PruningKeepsLive(limit: Limit, hits: seq<Hit>)
    requires InOrder(hits)
    ensures SameLive(TableAfter(true, limit, hits), TableAfter(false, limit, hits), limit.window, LastTime(hits))
  {
    hide AfterHit;
    if hits == [] {
    } else {
      var n := |hits| - 1;
      PruningKeepsLive(limit, hits[..n]);
      var a, b := TableAfter(true, limit, hits[..n]), TableAfter(false, limit, hits[..n]);
      if n == 0 {
        assert SameLive(a, b, limit.window, hits[n].now);
      } else {
        assert LastTime(hits[..n]) == hits[n - 1].now <= hits[n].now;
        assert SameLive(a, b, limit.window, hits[n].now);
      }
      HitKeepsSameLive(limit, a, b, hits[n]);
    }
  }

  /** With a nondecreasing clock, the pruning limiter answers like one that never prunes. */
  lemma PruningIsInvisible(limit: Limit, hits: seq<Hit>, i: nat)
    requires InOrder(hits) && i < |hits|
    ensures Answer(true, limit, hits, i) == Answer(false, limit, hits, i)
  {
    var a, b := TableAfter(true, limit, hits[..i]), TableAfter(false, limit, hits[..i]);
    PruningKeepsLive(limit, hits[..i]);
    if i > 0 {
      assert LastTime(hits[..i]) == hits[i - 1].now <= hits[i].now;
    }
    assert SameLive(a, b, limit.window, hits[i].now);
    HitKeepsSameLive(limit, a, b, hits[i]);
  }

  // ---- How large the table can grow ----

  ghost function LiveKeys(t: Table, window: nat, now: int): set<string> {
    set key | key in t && !Expired(t[key], window, now)
  }

  lemma PrunedTableIsLive(limit: Limit, t: Table, hit: Hit)
    requires |t| >= MAX_TRACKED_KEYS && limit.window > 0
    ensures var t' := AfterHit(true, limit, t, hit);
            LiveKeys(t', limit.window, hit.now) == t'.Keys
  {
  }

  lemma TableSizeAfterHit(limit: Limit, t: Table, hit: Hit)
    requires limit.window > 0
    ensures var t' := AfterHit(true, limit, t, hit);
            |t'| > MAX_TRACKED_KEYS <==> |LiveKeys(t', limit.window, hit.now)| > MAX_TRACKED_KEYS
  {
    var t' := AfterHit(true, limit, t, hit);
    SubsetSize(LiveKeys(t', limit.window, hit.now), t'.Keys);
    if |t| >= MAX_TRACKED_KEYS {
      PrunedTableIsLive(limit, t, hit);
    } else {
      assert t'.Keys == t.Keys + {hit.key};
    }
  }

  lemma {:induction false} SubsetSize<T>(a: set<T>, b: set<T>)
    requires a <= b
    ensures |a| <= |b|
  {
    assert b == a + (b - a);
    assert |b| == |a| + |b - a|;
  }

  /**
   * The table is kept at the cap exactly as long as no more keys than that are within a window:
   * `hits` as one that never prunes would count them.
   */
  lemma TableIsOverCapExactlyWhen(limit: Limit, hits: seq<Hit>)
    requires InOrder(hits) && limit.window > 0
    ensures |TableAfter(true, limit, hits)| > 10_000
       <==> |LiveKeys(TableAfter(false, limit, hits), limit.window, LastTime(hits))| > 10_000
  {
    var a, b, now := TableAfter(true, limit, hits), TableAfter(false, limit, hits), LastTime(hits);
    if hits != [] {
      TableSizeAfterHit(limit, TableAfter(true, limit, hits[..|hits| - 1]), hits[|hits| - 1]);
    }
    PruningKeepsLive(limit, hits);
    forall key ensures key in LiveKeys(a, limit.window, now) <==> key in LiveKeys(b, limit.window, now) {
      assert Live(a, key, limit.window, now) == Live(b, key, limit.window, now);
    }
    assert LiveKeys(a, limit.window, now) == LiveKeys(b, limit.window, now);
  }

  /** Keys told apart by their length. */
  function KeyName(i: nat): string {
    seq(i, _ => 'k')
  }

  function OneHitEach(n: nat): seq<Hit> {
    seq(n, i requires 0 <= i < n => Hit(KeyName(i), 0))
  }

  lemma TableSnoc(pruning: bool, limit: Limit, hits: seq<Hit>, hit: Hit)
    ensures TableAfter(pruning, limit, hits + [hit]) == AfterHit(pruning, limit, TableAfter(pruning, limit, hits), hit)
  {
    hide AfterHit;
    assert (hits + [hit])[..|hits|] == hits;
  }

  lemma NewKeyIsAdded(limit: Limit, t: Table, key: string)
    requires limit.window > 0 && key !in t && forall k :: k in t ==> t[k] == Entry(1, 0)
    ensures AfterHit(true, limit, t, Hit(key, 0)) == t[key := Entry(1, 0)]
  {
    assert Prune(t, limit.window, 0) == t;
  }

  /** So there is no cap: for every size there is a run that fills the table to it. */
  lemma {:induction false} TableGrowsToAnySize(limit: Limit, n: nat)
    requires limit.window > 0
    ensures InOrder(OneHitEach(n)) && |TableAfter(true, limit, OneHitEach(n))| == n
    ensures forall key :: key in TableAfter(true, limit, OneHitEach(n)) ==>
              |key| < n && TableAfter(true, limit, OneHitEach(n))[key] == Entry(1, 0)
  {
    if n > 0 {
      hide TableAfter, AfterHit;
      TableGrowsToAnySize(limit, n - 1);
      assert OneHitEach(n) == OneHitEach(n - 1) + [Hit(KeyName(n - 1), 0)];
      var t := TableAfter(true, limit, OneHitEach(n - 1));
      assert |KeyName(n - 1)| == n - 1 && KeyName(n - 1) !in t;
      NewKeyIsAdded(limit, t, KeyName(n - 1));
      TableSnoc(true, limit, OneHitEach(n - 1), Hit(KeyName(n - 1), 0));
    }
  }
}
