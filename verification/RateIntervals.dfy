/** How many hits of a key the rate limiter lets through in a window, and in an interval as long. */
module RateIntervals {
  import opened RateLimits
  import opened Seqs

  /** Times of the key's allowed hits. */
  function AllowedTimes(pruning: bool, limit: Limit, hits: seq<Hit>, key: string): seq<int> {
    if hits == [] then []
    else
      var n := |hits| - 1;
      AllowedTimes(pruning, limit, hits[..n], key)
      + if hits[n].key == key && Answer(pruning, limit, hits, n) then [hits[n].now] else []
  }

  /** How many of `times` lie in [from, to). */
  function CountIn(times: seq<int>, from: int, to: int): nat {
    if times == [] then 0
    else CountIn(times[..|times| - 1], from, to) + if from <= times[|times| - 1] < to then 1 else 0
  }

  function CountSince(times: seq<int>, from: int): nat {
    if times == [] then 0
    else CountSince(times[..|times| - 1], from) + if from <= times[|times| - 1] then 1 else 0
  }

  ghost predicate AllBefore(times: seq<int>, end: int) {
    forall i :: 0 <= i < |times| ==> times[i] < end
  }

  lemma CountSnoc(times: seq<int>, t: int, from: int, to: int)
    ensures CountIn(times + [t], from, to) == CountIn(times, from, to) + if from <= t < to then 1 else 0
    ensures CountSince(times + [t], from) == CountSince(times, from) + if from <= t then 1 else 0
  {
    assert (times + [t])[..|times|] == times;
  }

  lemma {:induction false} CountInAtMostSince(times: seq<int>, from: int, to: int)
    ensures CountIn(times, from, to) <= CountSince(times, from)
  {
    if times == [] {
    } else {
      CountInAtMostSince(times[..|times| - 1], from, to);
    }
  }

  lemma {:induction false} NoneSince(times: seq<int>, from: int)
    requires AllBefore(times, from)
    ensures CountSince(times, from) == 0
  {
    if times == [] {
    } else {
      NoneSince(times[..|times| - 1], from);
    }
  }

  function Least(a: nat, b: nat): nat {
    if a <= b then a else b
  }

  function OneLess(n: nat): nat {
    if n == 0 then 0 else n - 1
  }

  /**
   * The most that an interval as long as the window can hold: reaching into a second window, it
   * misses the hit that opened the first.
   */
  function MostInInterval(limit: Limit): nat {
    if limit.window == 0 then 0
    else if limit.window == 1 then limit.max
    else OneLess(limit.max) + limit.max
  }

  /**
   * What the key's entry says of its allowed hits since `from`: in the current window at most its
   * count, one less behind the hit that opened it, and with the window-length before it at most
   * `max - 1` more.
   */
  ghost predicate BoundsAt(times: seq<int>, limit: Limit, e: Entry, from: int) {
    && (from >= e.start ==> CountSince(times, from) <= Least(e.count, limit.max))
    && (from > e.start ==> CountSince(times, from) <= OneLess(Least(e.count, limit.max)))
    && (from > e.start - limit.window ==> CountSince(times, from) <= OneLess(limit.max) + Least(e.count, limit.max))
    && CountIn(times, from, from + limit.window) <= MostInInterval(limit)
  }

  ghost predicate EntryBounds(times: seq<int>, limit: Limit, e: Entry) {
    e.count > 0 && AllBefore(times, e.start + limit.window) && forall from :: BoundsAt(times, limit, e, from)
  }

  lemma BoundsAfterHit(times: seq<int>, limit: Limit, e: Entry, now: int, from: int)
    requires limit.window > 0 && EntryBounds(times, limit, e) && e.start <= now && AllBefore(times, now + 1)
    ensures var e' := if Expired(e, limit.window, now) then Entry(1, now) else Entry(e.count + 1, e.start);
            BoundsAt(if e'.count <= limit.max then times + [now] else times, limit, e', from)
  {
    hide CountIn, CountSince;
    assert BoundsAt(times, limit, e, from);
    CountSnoc(times, now, from, from + limit.window);
    CountInAtMostSince(times + [now], from, from + limit.window);
    CountInAtMostSince(times, from, from + limit.window);
    if Expired(e, limit.window, now) && from >= now {
      NoneSince(times, from);
    }
  }

  lemma FirstHitBounds(limit: Limit, now: int, from: int)
    requires limit.window > 0
    ensures BoundsAt(if 1 <= limit.max then [now] else [], limit, Entry(1, now), from)
  {
    CountSnoc([], now, from, from + limit.window);
    assert [] + [now] == [now];
  }

  /** The unpruned table's entry for the key bounds the key's allowed hits. */
  ghost predicate KeyBounds(limit: Limit, hits: seq<Hit>, key: string) {
    var t, times := TableAfter(false, limit, hits), AllowedTimes(false, limit, hits, key);
    && AllBefore(times, LastTime(hits) + 1)
    && if key in t then EntryBounds(times, limit, t[key]) && t[key].start <= LastTime(hits) else times == []
  }

  lemma EntryAfterHit(times: seq<int>, limit: Limit, e: Entry, now: int)
    requires limit.window > 0 && EntryBounds(times, limit, e) && e.start <= now && AllBefore(times, now + 1)
    ensures var e' := if Expired(e, limit.window, now) then Entry(1, now) else Entry(e.count + 1, e.start);
            EntryBounds(if e'.count <= limit.max then times + [now] else times, limit, e')
  {
    var e' := if Expired(e, limit.window, now) then Entry(1, now) else Entry(e.count + 1, e.start);
    var times' := if e'.count <= limit.max then times + [now] else times;
    forall from ensures BoundsAt(times', limit, e', from) {
      BoundsAfterHit(times, limit, e, now, from);
    }
  }

  lemma {:induction false} KeyBoundsHold(limit: Limit, hits: seq<Hit>, key: string)
    requires InOrder(hits) && limit.window > 0
    ensures KeyBounds(limit, hits, key)
  {
    if hits == [] {
    } else {
      var n := |hits| - 1;
      var front, hit := hits[..n], hits[n];
      KeyBoundsHold(limit, front, key);
      assert n > 0 ==> LastTime(front) == hits[n - 1].now <= hit.now;
      var t, times := TableAfter(false, limit, front), AllowedTimes(false, limit, front, key);
      var e := Bumped(t, limit.window, key, hit.now);
      if hit.key == key {
        assert AllowedTimes(false, limit, hits, key) == if e.count <= limit.max then times + [hit.now] else times;
        if key in t {
          EntryAfterHit(times, limit, t[key], hit.now);
        } else {
          assert times + [hit.now] == [hit.now];
          var times' := if e.count <= limit.max then times + [hit.now] else times;
          forall from ensures BoundsAt(times', limit, e, from) {
            FirstHitBounds(limit, hit.now, from);
          }
        }
      } else {
        assert AllowedTimes(false, limit, hits, key) == times;
      }
    }
  }

  lemma {:induction false} EmptyInterval(times: seq<int>, from: int)
    ensures CountIn(times, from, from) == 0
  {
    if times == [] {
    } else {
      EmptyInterval(times[..|times| - 1], from);
    }
  }

  lemma {:induction false} PruningKeepsTimes(limit: Limit, hits: seq<Hit>, key: string)
    requires InOrder(hits)
    ensures AllowedTimes(true, limit, hits, key) == AllowedTimes(false, limit, hits, key)
  {
    if hits == [] {
    } else {
      hide Answer;
      PruningKeepsTimes(limit, hits[..|hits| - 1], key);
      PruningIsInvisible(limit, hits, |hits| - 1);
    }
  }

  /** How many allowed hits of the key fall in the interval from `from` on that is as long as the window. */
  function HitsFrom(limit: Limit, hits: seq<Hit>, key: string, from: int): nat {
    CountIn(AllowedTimes(true, limit, hits, key), from, from + limit.window)
  }

  /** No half-open interval as long as the window holds more than 2 `max` - 1 allowed hits of a key, when `max` is positive. */
  lemma NoIntervalOverfills(limit: Limit, hits: seq<Hit>, key: string, from: int)
    requires InOrder(hits)
    ensures HitsFrom(limit, hits, key, from) <= MostInInterval(limit)
  {
    PruningKeepsTimes(limit, hits, key);
    var t, times := TableAfter(false, limit, hits), AllowedTimes(false, limit, hits, key);
    if limit.window == 0 {
      EmptyInterval(times, from);
    } else {
      KeyBoundsHold(limit, hits, key);
      if key in t {
        assert BoundsAt(times, limit, t[key], from);
      }
    }
  }

  // ---- The bound is reached ----

  function Burst(key: string, now: int, n: nat): seq<Hit> {
    seq(n, _ => Hit(key, now))
  }

  /** The key's entry as a hit at `now` finds it. */
  function Found(limit: Limit, t: Table, key: string, now: int): Entry {
    if key in t && !Expired(t[key], limit.window, now) then t[key] else Entry(0, now)
  }

  function Room(limit: Limit, e: Entry): nat {
    if e.count <= limit.max then limit.max - e.count else 0
  }

  /** A burst fills the window it falls in; what is over `max` is refused. */
  lemma {:induction false} AfterBurst(limit: Limit, hits: seq<Hit>, key: string, now: int, n: nat, from: int, to: int)
    requires limit.window > 0 && n > 0
    ensures var t, t' := TableAfter(false, limit, hits), TableAfter(false, limit, hits + Burst(key, now, n));
            var e := Found(limit, t, key, now);
            && key in t' && t'[key] == Entry(e.count + n, e.start)
            && CountIn(AllowedTimes(false, limit, hits + Burst(key, now, n), key), from, to)
               == CountIn(AllowedTimes(false, limit, hits, key), from, to)
                  + (if from <= now < to then Least(n, Room(limit, e)) else 0)
  {
    var all := hits + Burst(key, now, n);
    var front := hits + Burst(key, now, n - 1);
    assert all == front + [Hit(key, now)] && all[..|all| - 1] == front;
    if n == 1 {
      assert front == hits;
    } else {
      AfterBurst(limit, hits, key, now, n - 1, from, to);
    }
    CountOneMore(limit, front, key, now, from, to);
    hide AllowedTimes, CountIn, Burst;
  }

  lemma CountOneMore(limit: Limit, hits: seq<Hit>, key: string, now: int, from: int, to: int)
    ensures CountIn(AllowedTimes(false, limit, hits + [Hit(key, now)], key), from, to)
         == CountIn(AllowedTimes(false, limit, hits, key), from, to)
            + (if from <= now < to && Bumped(TableAfter(false, limit, hits), limit.window, key, now).count <= limit.max
               then 1 else 0)
  {
    var all, times := hits + [Hit(key, now)], AllowedTimes(false, limit, hits, key);
    assert all[..|hits|] == hits && all[|hits|] == Hit(key, now);
    CountSnoc(times, now, from, to);
    assert times + [] == times;
  }

  /** One hit, the rest of its window at its end, and a full window after it. */
  function TightRun(limit: Limit, key: string): seq<Hit>
    requires limit.max > 0 && limit.window > 0
  {
    Burst(key, 0, 1) + Burst(key, limit.window - 1, limit.max - 1) + Burst(key, limit.window, limit.max)
  }

  lemma TightRunIsInOrder(limit: Limit, key: string)
    requires limit.max > 0 && limit.window > 0
    ensures InOrder(TightRun(limit, key))
  {
  }

  /** For every positive `max` and window the bound is reached. */
  lemma TightRunReachesBound(limit: Limit, key: string)
    requires limit.max > 0 && limit.window > 0
    ensures InOrder(TightRun(limit, key)) && HitsFrom(limit, TightRun(limit, key), key, 1) == MostInInterval(limit)
  {
    hide TableAfter, AllowedTimes, CountIn, Burst, InOrder;
    var w := limit.window;
    var first := Burst(key, 0, 1);
    var filled := first + Burst(key, w - 1, limit.max - 1);
    assert [] + first == first;
    NoTimes(limit, key, 1, 1 + w);
    AfterBurst(limit, [], key, 0, 1, 1, 1 + w);
    if limit.max > 1 {
      AfterBurst(limit, first, key, w - 1, limit.max - 1, 1, 1 + w);
    } else {
      EmptyBurst(key, w - 1);
      assert filled == first;
    }
    AfterBurst(limit, filled, key, w, limit.max, 1, 1 + w);
    TightRunIsInOrder(limit, key);
    PruningKeepsTimes(limit, TightRun(limit, key), key);
  }

  lemma NoTimes(limit: Limit, key: string, from: int, to: int)
    ensures TableAfter(false, limit, []) == map[] && CountIn(AllowedTimes(false, limit, [], key), from, to) == 0
  {
  }

  lemma EmptyBurst(key: string, now: int)
    ensures Burst(key, now, 0) == []
  {
  }

  ghost predicate IntervalsHold(limit: Limit, most: nat) {
    forall hits, key, from :: InOrder(hits) ==> HitsFrom(limit, hits, key, from) <= most
  }

  /** The bound cannot be lowered. */
  lemma IntervalBoundIsExact(limit: Limit, most: nat)
    ensures IntervalsHold(limit, most) <==> MostInInterval(limit) <= most
  {
    if MostInInterval(limit) <= most {
      forall hits, key, from | InOrder(hits) ensures HitsFrom(limit, hits, key, from) <= most {
        NoIntervalOverfills(limit, hits, key, from);
      }
    } else {
      TightRunReachesBound(limit, "");
      assert HitsFrom(limit, TightRun(limit, ""), "", 1) > most;
    }
  }

  /** Read for every interval as long as the window, "at most `max`" holds for just these limits. */
  lemma MaxHoldsInEveryIntervalExactlyWhen(limit: Limit)
    ensures IntervalsHold(limit, limit.max) <==> limit.max <= 1 || limit.window <= 1
  {
    IntervalBoundIsExact(limit, limit.max);
  }

  // ---- Read for the limiter's own windows, the bound is `max` ----

  /** The start of the window that each allowed hit of the key was counted in. */
  function WindowsOfAllowed(pruning: bool, limit: Limit, hits: seq<Hit>, key: string): seq<int> {
    if hits == [] then []
    else
      var n := |hits| - 1;
      WindowsOfAllowed(pruning, limit, hits[..n], key)
      + if hits[n].key == key && Answer(pruning, limit, hits, n)
        then [TableAfter(pruning, limit, hits)[key].start] else []
  }

  /** The entry counts its window's allowed hits; all other windows were over when it opened. */
  ghost predicate CountsWindow(limit: Limit, windows: seq<int>, e: Entry) {
    && (forall w :: multiset(windows)[w] <= limit.max)
    && multiset(windows)[e.start] <= e.count
    && forall w :: w in windows ==> w == e.start || w + limit.window <= e.start
  }

  ghost predicate WindowsMatch(limit: Limit, hits: seq<Hit>, key: string) {
    var t, windows := TableAfter(false, limit, hits), WindowsOfAllowed(false, limit, hits, key);
    if key in t then t[key].start <= LastTime(hits) && CountsWindow(limit, windows, t[key]) else windows == []
  }

  lemma CountsNextHit(limit: Limit, windows: seq<int>, e: Entry, now: int)
    requires limit.window > 0 && e.start <= now && CountsWindow(limit, windows, e)
    ensures var e' := if Expired(e, limit.window, now) then Entry(1, now) else Entry(e.count + 1, e.start);
            CountsWindow(limit, if e'.count <= limit.max then windows + [e'.start] else windows, e') && e'.start <= now
  {
    var e' := if Expired(e, limit.window, now) then Entry(1, now) else Entry(e.count + 1, e.start);
    assert forall w :: multiset(windows + [e'.start])[w] == multiset(windows)[w] + if w == e'.start then 1 else 0;
    if Expired(e, limit.window, now) {
      assert now !in windows;
      assert now !in multiset(windows);
    }
  }

  lemma CountsFirstHit(limit: Limit, now: int)
    ensures CountsWindow(limit, if 1 <= limit.max then [] + [now] else [], Entry(1, now))
  {
    assert multiset([] + [now]) == multiset{now};
  }

  lemma {:induction false} WindowsAreMatched(limit: Limit, hits: seq<Hit>, key: string)
    requires InOrder(hits) && limit.window > 0
    ensures WindowsMatch(limit, hits, key)
  {
    hide CountsWindow, WindowsOfAllowed;
    if hits == [] {
      NoWindows(limit, key);
    } else {
      var n := |hits| - 1;
      var hit := hits[n];
      WindowsAreMatched(limit, hits[..n], key);
      assert n > 0 ==> LastTime(hits[..n]) == hits[n - 1].now <= hit.now;
      var t := TableAfter(false, limit, hits[..n]);
      OneMoreWindow(limit, hits, key);
      if hit.key == key && key in t {
        CountsNextHit(limit, WindowsOfAllowed(false, limit, hits[..n], key), t[key], hit.now);
      } else if hit.key == key {
        CountsFirstHit(limit, hit.now);
      }
    }
  }

  lemma NoWindows(limit: Limit, key: string)
    ensures WindowsOfAllowed(false, limit, [], key) == []
  {
  }

  lemma OneMoreWindow(limit: Limit, hits: seq<Hit>, key: string)
    requires hits != []
    ensures var n := |hits| - 1;
            var t, windows := TableAfter(false, limit, hits[..n]), WindowsOfAllowed(false, limit, hits[..n], key);
            var e := Bumped(t, limit.window, key, hits[n].now);
            WindowsOfAllowed(false, limit, hits, key)
            == if hits[n].key == key && e.count <= limit.max then windows + [e.start] else windows
  {
    var windows := WindowsOfAllowed(false, limit, hits[..|hits| - 1], key);
    assert windows + [] == windows;
  }

  lemma {:induction false} PruningKeepsWindows(limit: Limit, hits: seq<Hit>, key: string)
    requires InOrder(hits) && limit.window > 0
    ensures WindowsOfAllowed(true, limit, hits, key) == WindowsOfAllowed(false, limit, hits, key)
  {
    if hits == [] {
    } else {
      var n := |hits| - 1;
      PruningKeepsWindows(limit, hits[..n], key);
      PruningIsInvisible(limit, hits, n);
      PruningKeepsLive(limit, hits);
      var a, b := TableAfter(true, limit, hits), TableAfter(false, limit, hits);
      if hits[n].key == key {
        HitIsLive(true, limit, hits);
        HitIsLive(false, limit, hits);
        assert Live(a, key, limit.window, hits[n].now) == Live(b, key, limit.window, hits[n].now);
      }
    }
  }

  lemma HitIsLive(pruning: bool, limit: Limit, hits: seq<Hit>)
    requires hits != [] && limit.window > 0
    ensures var hit, t := hits[|hits| - 1], TableAfter(pruning, limit, hits);
            hit.key in t && Live(t, hit.key, limit.window, hit.now) == Some(t[hit.key])
  {
  }

  /** No window of the limiter lets more than `max` hits of a key through. */
  lemma NoWindowOverfills(limit: Limit, hits: seq<Hit>, key: string, w: int)
    requires InOrder(hits) && limit.window > 0
    ensures multiset(WindowsOfAllowed(true, limit, hits, key))[w] <= limit.max
  {
    PruningKeepsWindows(limit, hits, key);
    WindowsAreMatched(limit, hits, key);
  }
}
