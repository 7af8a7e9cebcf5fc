/** The failure limiter, and what it leaves of passphrase guessing. */
module UnlockLimits {
  import opened RateLimits
  import opened RateIntervals

  class FailureLimiter {
    const limit: Limit
    var failures: Table

    constructor (limit: Limit)
      ensures this.limit == limit && failures == map[]
    {
      this.limit, failures := limit, map[];
    }

    method Blocked(key: string, now: int) returns (blocked: bool)
      modifies this
      ensures failures == AfterCheck(limit, old(failures), key, now)
      ensures blocked == IsBlocked(limit, old(failures), key, now)
    {
      if key !in failures {
        return false;
      }
      if now - failures[key].start < limit.window {
        return failures[key].count >= limit.max;
      }
      failures := failures - {key};
      blocked := false;
    }

    method RecordFailure(key: string, now: int)
      modifies this
      ensures failures == AfterFailure(limit, old(failures), key, now)
    {
      failures := Prune(failures, limit.window, now);
      var entry := if key in failures then failures[key] else Entry(0, now);
      if now - entry.start >= limit.window {
        entry := Entry(0, now);
      }
      failures := failures[key := Entry(entry.count + 1, entry.start)];
    }

    method Clear(key: string)
      modifies this
      ensures failures == old(failures) - {key}
    {
      failures := failures - {key};
    }
  }

  function IsBlocked(limit: Limit, t: Table, key: string, now: int): bool {
    key in t && !Expired(t[key], limit.window, now) && t[key].count >= limit.max
  }

  function AfterCheck(limit: Limit, t: Table, key: string, now: int): Table {
    if key in t && Expired(t[key], limit.window, now) then t - {key} else t
  }

  function AfterFailure(limit: Limit, t: Table, key: string, now: int): Table {
    var t1 := Prune(t, limit.window, now);
    t1[key := Bumped(t1, limit.window, key, now)]
  }

  /** One unlock request: when it was checked, when the passphrase had been tried, and whether it opened the key. */
  datatype Attempt = Attempt(key: string, checked: int, tried: int, opens: bool)

  datatype Outcome = TooMany | Unlocked | WrongPassphrase

  method PrivacyUnlock(limiter: FailureLimiter, a: Attempt) returns (outcome: Outcome)
    modifies limiter
    ensures limiter.failures == AfterAttempt(limiter.limit, old(limiter.failures), a)
    ensures outcome == OutcomeOf(limiter.limit, old(limiter.failures), a)
    ensures var (t, t', limit) := (old(limiter.failures), limiter.failures, limiter.limit);
            var running := a.key in t && a.checked - t[a.key].start < limit.window;
            match outcome
            case TooMany => running && t[a.key].count >= limit.max && t' == t
            case Unlocked => (!running || t[a.key].count < limit.max) && a.opens && t' == t - {a.key}
            case WrongPassphrase =>
              && (!running || t[a.key].count < limit.max) && !a.opens && a.key in t'
              && t'[a.key] == (if running && a.tried - t[a.key].start < limit.window
                               then Entry(t[a.key].count + 1, t[a.key].start) else Entry(1, a.tried))
              && (forall key :: key in t' && key != a.key ==> key in t && t'[key] == t[key])
              && (forall key :: key in t && key !in t' ==> a.tried - t[key].start >= limit.window)
  {
    var blocked := limiter.Blocked(a.key, a.checked);
    if blocked {
      return TooMany;
    }
    if !a.opens {
      limiter.RecordFailure(a.key, a.tried);
      return WrongPassphrase;
    }
    limiter.Clear(a.key);
    outcome := Unlocked;
  }

  function OutcomeOf(limit: Limit, t: Table, a: Attempt): Outcome {
    if IsBlocked(limit, t, a.key, a.checked) then TooMany
    else if a.opens then Unlocked
    else WrongPassphrase
  }

  function AfterAttempt(limit: Limit, t: Table, a: Attempt): Table {
    var t1 := AfterCheck(limit, t, a.key, a.checked);
    match OutcomeOf(limit, t, a)
    case TooMany => t1
    case WrongPassphrase => AfterFailure(limit, t1, a.key, a.tried)
    case Unlocked => t1 - {a.key}
  }

  function FailuresAfter(limit: Limit, attempts: seq<Attempt>): Table {
    if attempts == [] then map[]
    else AfterAttempt(limit, FailuresAfter(limit, attempts[..|attempts| - 1]), attempts[|attempts| - 1])
  }

  /** The start of the failure window that a wrong attempt is counted in. */
  function WindowOf(limit: Limit, t: Table, a: Attempt): int {
    var t1 := AfterAttempt(limit, t, a);
    if a.key in t1 then t1[a.key].start else 0
  }

  /** For each wrong passphrase of the key since its last success, the start of the window it was counted in. */
  function WrongSince(limit: Limit, attempts: seq<Attempt>, key: string): seq<int> {
    if attempts == [] then []
    else
      var front, a := attempts[..|attempts| - 1], attempts[|attempts| - 1];
      var t, earlier := FailuresAfter(limit, front), WrongSince(limit, front, key);
      if a.key != key then earlier
      else
        match OutcomeOf(limit, t, a)
        case TooMany => earlier
        case WrongPassphrase => earlier + [WindowOf(limit, t, a)]
        case Unlocked => []
  }

  /** Attempts are made one after the other. */
  ghost predicate Sequential(attempts: seq<Attempt>) {
    && (forall i :: 0 <= i < |attempts| ==> attempts[i].checked <= attempts[i].tried)
    && forall i, j :: 0 <= i < j < |attempts| ==> attempts[i].tried <= attempts[j].checked
  }

  function EndOf(attempts: seq<Attempt>): int {
    if attempts == [] then 0 else attempts[|attempts| - 1].tried
  }

  /** One failure is always let through; after that `max` bounds a window. */
  function MostWrong(limit: Limit): nat {
    if limit.max == 0 then 1 else limit.max
  }

  /**
   * The table's entry for the key is the latest window of its log, with that window's number of
   * failures; every other window of the log ended before this one started, or before now, and no
   * window holds more than `most`.
   */
  ghost predicate LogMatches(limit: Limit, most: nat, t: Table, key: string, log: seq<int>, now: int) {
    && (forall w :: multiset(log)[w] <= most)
    && (forall w :: w in log ==> w <= now)
    && if key in t then
         && t[key].start in log && multiset(log)[t[key].start] == t[key].count
         && forall w :: w in log && w != t[key].start ==> w + limit.window <= t[key].start
       else forall w :: w in log ==> w + limit.window <= now
  }

  /** A failure window of the log still lasts at `now` and is full. */
  ghost predicate FullWindow(limit: Limit, log: seq<int>, w: int, now: int) {
    w in log && multiset(log)[w] >= limit.max && now < w + limit.window
  }

  lemma CheckKeepsLog(limit: Limit, most: nat, t: Table, key: string, log: seq<int>, before: int, now: int)
    requires limit.window > 0 && LogMatches(limit, most, t, key, log, before) && (log != [] ==> before <= now)
    ensures LogMatches(limit, most, AfterCheck(limit, t, key, now), key, log, now)
    ensures IsBlocked(limit, t, key, now) <==> exists w :: FullWindow(limit, log, w, now)
  {
    if IsBlocked(limit, t, key, now) {
      assert FullWindow(limit, log, t[key].start, now);
    }
  }

  lemma PruneKeepsLog(limit: Limit, most: nat, t: Table, key: string, log: seq<int>, now: int)
    requires LogMatches(limit, most, t, key, log, now)
    ensures LogMatches(limit, most, Prune(t, limit.window, now), key, log, now)
  {
  }

  lemma TimeKeepsLog(limit: Limit, most: nat, t: Table, key: string, log: seq<int>, now: int, later: int)
    requires LogMatches(limit, most, t, key, log, now) && (log != [] ==> now <= later)
    ensures LogMatches(limit, most, t, key, log, later)
  {
  }

  lemma FailureKeepsLog(limit: Limit, most: nat, t: Table, key: string, log: seq<int>, now: int)
    requires limit.window > 0 && LogMatches(limit, most, t, key, log, now)
    requires most > 0 && (key in t ==> t[key].count < most)
    ensures var t' := AfterFailure(limit, t, key, now);
            && LogMatches(limit, most, t', key, log + [t'[key].start], now)
            && t'[key].start <= now < t'[key].start + limit.window
            && (t'[key].start in log || t'[key].start == now)
  {
    PruneKeepsLog(limit, most, t, key, log, now);
    BumpKeepsLog(limit, most, Prune(t, limit.window, now), key, log, now);
  }

  lemma BumpKeepsLog(limit: Limit, most: nat, t: Table, key: string, log: seq<int>, now: int)
    requires limit.window > 0 && LogMatches(limit, most, t, key, log, now)
    requires most > 0 && (key in t ==> t[key].count < most)
    ensures var e := Bumped(t, limit.window, key, now);
            && LogMatches(limit, most, t[key := e], key, log + [e.start], now)
            && e.start <= now < e.start + limit.window && (e.start in log || e.start == now)
  {
    var e := Bumped(t, limit.window, key, now);
    assert forall w :: multiset(log + [e.start])[w] == multiset(log)[w] + if w == e.start then 1 else 0;
    if key !in t || Expired(t[key], limit.window, now) {
      assert now !in log;
      assert now !in multiset(log);
    }
  }

  lemma OthersKeepLog(limit: Limit, most: nat, t: Table, t': Table, key: string, log: seq<int>, now: int)
    requires LogMatches(limit, most, t, key, log, now)
    requires key in t' ==> key in t && t'[key] == t[key]
    requires key in t && key !in t' ==> Expired(t[key], limit.window, now)
    ensures LogMatches(limit, most, t', key, log, now)
  {
  }

  lemma AttemptKeepsLog(limit: Limit, t: Table, a: Attempt, key: string, log: seq<int>, before: int)
    requires limit.window > 0 && LogMatches(limit, MostWrong(limit), t, key, log, before)
    requires (log != [] ==> before <= a.checked) && a.checked <= a.tried
    ensures var log' := if a.key != key || OutcomeOf(limit, t, a).TooMany? then log
                        else if a.opens then []
                        else log + [WindowOf(limit, t, a)];
            LogMatches(limit, MostWrong(limit), AfterAttempt(limit, t, a), key, log', a.tried)
    ensures a.key == key && OutcomeOf(limit, t, a).WrongPassphrase? ==>
              var w := WindowOf(limit, t, a);
              w <= a.tried < w + limit.window && (w in log || w == a.tried)
  {
    hide LogMatches;
    TimeKeepsLog(limit, MostWrong(limit), t, key, log, before, a.tried);
    if a.key != key {
      OthersKeepLog(limit, MostWrong(limit), t, AfterAttempt(limit, t, a), key, log, a.tried);
    } else {
      CheckKeepsLog(limit, MostWrong(limit), t, key, log, before, a.checked);
      var t1 := AfterCheck(limit, t, key, a.checked);
      TimeKeepsLog(limit, MostWrong(limit), t1, key, log, a.checked, a.tried);
      if OutcomeOf(limit, t, a).WrongPassphrase? {
        FailureKeepsLog(limit, MostWrong(limit), t1, key, log, a.tried);
      } else if a.opens {
        EmptyLogMatches(limit, MostWrong(limit), t1 - {key}, key, a.tried);
      }
    }
  }

  lemma EmptyLogMatches(limit: Limit, most: nat, t: Table, key: string, now: int)
    requires key !in t
    ensures LogMatches(limit, most, t, key, [], now)
  {
  }

  lemma AttemptsBefore(attempts: seq<Attempt>)
    requires Sequential(attempts) && attempts != []
    ensures var front, last := attempts[..|attempts| - 1], attempts[|attempts| - 1];
            && Sequential(front) && (front != [] ==> EndOf(front) <= last.checked) && last.checked <= last.tried
            && EndOf(attempts) == last.tried
  {
  }

  lemma {:induction false} LogsMatch(limit: Limit, attempts: seq<Attempt>, key: string)
    requires limit.window > 0 && Sequential(attempts)
    ensures LogMatches(limit, MostWrong(limit), FailuresAfter(limit, attempts), key,
                       WrongSince(limit, attempts, key), EndOf(attempts))
  {
    if attempts == [] {
      EmptyLogMatches(limit, MostWrong(limit), map[], key, 0);
    } else {
      hide LogMatches, AfterAttempt, WindowOf, OutcomeOf, Sequential, EndOf;
      var n := |attempts| - 1;
      AttemptsBefore(attempts);
      LogsMatch(limit, attempts[..n], key);
      var log := WrongSince(limit, attempts[..n], key);
      AttemptKeepsLog(limit, FailuresAfter(limit, attempts[..n]), attempts[n], key, log, EndOf(attempts[..n]));
    }
  }

  /** Since the key's last success, no failure window has let more than `max` wrong passphrases through. */
  lemma GuessesPerWindowAreBounded(limit: Limit, attempts: seq<Attempt>, key: string, w: int)
    requires limit.window > 0 && Sequential(attempts)
    ensures multiset(WrongSince(limit, attempts, key))[w] <= MostWrong(limit)
  {
    LogsMatch(limit, attempts, key);
  }

  /** A failure window starts at its first failure, and every failure counted in it falls within it. */
  lemma WindowsStartAtFirstFailure(limit: Limit, attempts: seq<Attempt>, a: Attempt)
    requires limit.window > 0 && Sequential(attempts + [a])
    requires OutcomeOf(limit, FailuresAfter(limit, attempts), a) == WrongPassphrase
    ensures var w := WindowOf(limit, FailuresAfter(limit, attempts), a);
            w <= a.tried < w + limit.window && (w in WrongSince(limit, attempts, a.key) || w == a.tried)
  {
    assert forall i :: 0 <= i < |attempts| ==> attempts[i] == (attempts + [a])[i];
    assert (attempts + [a])[|attempts|] == a;
    LogsMatch(limit, attempts, a.key);
    AttemptKeepsLog(limit, FailuresAfter(limit, attempts), a, a.key, WrongSince(limit, attempts, a.key), EndOf(attempts));
  }

  /** An attempt is turned away exactly when a failure window that still lasts is full. */
  lemma BlockedExactlyWhenFull(limit: Limit, attempts: seq<Attempt>, a: Attempt)
    requires limit.window > 0 && Sequential(attempts + [a])
    ensures OutcomeOf(limit, FailuresAfter(limit, attempts), a) == TooMany
       <==> exists w :: FullWindow(limit, WrongSince(limit, attempts, a.key), w, a.checked)
  {
    assert forall i :: 0 <= i < |attempts| ==> attempts[i] == (attempts + [a])[i];
    assert (attempts + [a])[|attempts|] == a;
    LogsMatch(limit, attempts, a.key);
    CheckKeepsLog(limit, MostWrong(limit), FailuresAfter(limit, attempts), a.key, WrongSince(limit, attempts, a.key),
                  EndOf(attempts), a.checked);
  }

  // ---- Guesses in any interval ----

  /** When the wrong passphrases of the key since its last success were tried. */
  function WrongTimes(limit: Limit, attempts: seq<Attempt>, key: string): seq<int> {
    if attempts == [] then []
    else
      var front, a := attempts[..|attempts| - 1], attempts[|attempts| - 1];
      var earlier := WrongTimes(limit, front, key);
      if a.key != key then earlier
      else
        match OutcomeOf(limit, FailuresAfter(limit, front), a)
        case TooMany => earlier
        case WrongPassphrase => earlier + [a.tried]
        case Unlocked => []
  }

  /** Failures are let through as a rate limiter of at least one hit lets hits through. */
  function GuessLimit(limit: Limit): Limit {
    Limit(MostWrong(limit), limit.window)
  }

  ghost predicate LastWindow(limit: Limit, times: seq<int>, e: Entry, now: int) {
    EntryBounds(times, GuessLimit(limit), e) && e.start <= now
  }

  /** The entry, or the one that was there before it ran out, bounds the guesses. */
  ghost predicate GuessBounds(limit: Limit, t: Table, key: string, times: seq<int>, now: int) {
    && AllBefore(times, now + 1)
    && if key in t then LastWindow(limit, times, t[key], now)
       else times == [] || exists e :: LastWindow(limit, times, e, now) && Expired(e, limit.window, now)
  }

  lemma LaterGuessBounds(limit: Limit, t: Table, t': Table, key: string, times: seq<int>, now: int, later: int)
    requires GuessBounds(limit, t, key, times, now) && (times != [] || key in t ==> now <= later)
    requires key in t' ==> key in t && t'[key] == t[key]
    requires key in t && key !in t' ==> Expired(t[key], limit.window, later)
    ensures GuessBounds(limit, t', key, times, later)
  {
    hide EntryBounds;
    if key in t && key !in t' {
      assert LastWindow(limit, times, t[key], later);
    } else if key !in t && times != [] {
      var e :| LastWindow(limit, times, e, now) && Expired(e, limit.window, now);
      assert LastWindow(limit, times, e, later) && Expired(e, limit.window, later);
    }
  }

  lemma NextGuess(limit: Limit, times: seq<int>, e: Entry, now: int)
    requires limit.window > 0 && LastWindow(limit, times, e, now) && AllBefore(times, now + 1)
    requires !Expired(e, limit.window, now) ==> e.count < limit.max
    ensures LastWindow(limit, times + [now],
                       if Expired(e, limit.window, now) then Entry(1, now) else Entry(e.count + 1, e.start), now)
  {
    hide EntryBounds;
    EntryAfterHit(times, GuessLimit(limit), e, now);
  }

  lemma FirstGuess(limit: Limit, now: int)
    requires limit.window > 0
    ensures LastWindow(limit, [now], Entry(1, now), now)
  {
    hide BoundsAt;
    forall from ensures BoundsAt([now], GuessLimit(limit), Entry(1, now), from) {
      FirstHitBounds(GuessLimit(limit), now, from);
    }
  }

  lemma FailureKeepsBounds(limit: Limit, t: Table, key: string, times: seq<int>, now: int)
    requires limit.window > 0 && GuessBounds(limit, t, key, times, now)
    requires key in t && !Expired(t[key], limit.window, now) ==> t[key].count < limit.max
    ensures GuessBounds(limit, t[key := Bumped(t, limit.window, key, now)], key, times + [now], now)
  {
    hide LastWindow;
    if key in t {
      NextGuess(limit, times, t[key], now);
    } else if times == [] {
      assert times + [now] == [now];
      FirstGuess(limit, now);
    } else {
      var e :| LastWindow(limit, times, e, now) && Expired(e, limit.window, now);
      NextGuess(limit, times, e, now);
    }
  }

  lemma AttemptKeepsBounds(limit: Limit, t: Table, a: Attempt, key: string, times: seq<int>, before: int)
    requires limit.window > 0 && GuessBounds(limit, t, key, times, before)
    requires (times != [] || key in t ==> before <= a.checked) && a.checked <= a.tried
    ensures var times' := if a.key != key || OutcomeOf(limit, t, a).TooMany? then times
                          else if a.opens then []
                          else times + [a.tried];
            GuessBounds(limit, AfterAttempt(limit, t, a), key, times', a.tried)
  {
    hide LastWindow, GuessBounds;
    if a.key != key {
      LaterGuessBounds(limit, t, AfterAttempt(limit, t, a), key, times, before, a.tried);
    } else if OutcomeOf(limit, t, a).WrongPassphrase? {
      var t1 := Prune(AfterCheck(limit, t, key, a.checked), limit.window, a.tried);
      LaterGuessBounds(limit, t, t1, key, times, before, a.tried);
      FailureKeepsBounds(limit, t1, key, times, a.tried);
    } else if a.opens && OutcomeOf(limit, t, a).Unlocked? {
      NoGuesses(limit, AfterAttempt(limit, t, a), key, a.tried);
    } else {
      LaterGuessBounds(limit, t, AfterAttempt(limit, t, a), key, times, before, a.tried);
    }
  }

  lemma NoGuesses(limit: Limit, t: Table, key: string, now: int)
    requires key !in t
    ensures GuessBounds(limit, t, key, [], now)
  {
  }

  lemma {:induction false} GuessBoundsHold(limit: Limit, attempts: seq<Attempt>, key: string)
    requires limit.window > 0 && Sequential(attempts)
    ensures GuessBounds(limit, FailuresAfter(limit, attempts), key, WrongTimes(limit, attempts, key), EndOf(attempts))
  {
    hide GuessBounds, AfterAttempt, Sequential, EndOf, IsBlocked;
    if attempts == [] {
      NoGuesses(limit, map[], key, EndOf([]));
    } else {
      var n := |attempts| - 1;
      AttemptsBefore(attempts);
      GuessBoundsHold(limit, attempts[..n], key);
      AttemptKeepsBounds(limit, FailuresAfter(limit, attempts[..n]), attempts[n], key,
                         WrongTimes(limit, attempts[..n], key), EndOf(attempts[..n]));
    }
  }

  /**
   * Since the key's last success, no interval as long as the window holds more than 2 `max` - 1
   * wrong passphrases.
   */
  lemma GuessesPerIntervalAreBounded(limit: Limit, attempts: seq<Attempt>, key: string, from: int)
    requires limit.window > 0 && Sequential(attempts)
    ensures CountIn(WrongTimes(limit, attempts, key), from, from + limit.window) <= MostInInterval(GuessLimit(limit))
  {
    var t, times := FailuresAfter(limit, attempts), WrongTimes(limit, attempts, key);
    GuessBoundsHold(limit, attempts, key);
    if times != [] {
      hide FailuresAfter, WrongTimes, BoundsAt, AllBefore, Sequential;
      var e: Entry :| LastWindow(limit, times, e, EndOf(attempts));
      LastWindowBounds(limit, times, e, EndOf(attempts), from);
    }
  }

  lemma LastWindowBounds(limit: Limit, times: seq<int>, e: Entry, now: int, from: int)
    requires LastWindow(limit, times, e, now)
    ensures CountIn(times, from, from + limit.window) <= MostInInterval(GuessLimit(limit))
  {
    assert BoundsAt(times, GuessLimit(limit), e, from);
  }

  // ---- How large the table can grow ----

  lemma FailureIsHit(limit: Limit, t: Table, key: string, now: int)
    ensures AfterFailure(limit, t, key, now) == AfterHit(true, limit, t, Hit(key, now))
  {
  }

  /** A recorded failure leaves the table over the cap exactly if more windows than that still last. */
  lemma FailuresAreOverCapExactlyWhen(limit: Limit, t: Table, key: string, now: int)
    requires limit.window > 0
    ensures var t' := AfterFailure(limit, t, key, now);
            |t'| > 10_000 <==> |LiveKeys(t', limit.window, now)| > 10_000
  {
    FailureIsHit(limit, t, key, now);
    TableSizeAfterHit(limit, t, Hit(key, now));
  }

  function OneWrongEach(n: nat): seq<Attempt> {
    seq(n, i requires 0 <= i < n => Attempt(KeyName(i), 0, 0, false))
  }

  lemma FailuresSnoc(limit: Limit, attempts: seq<Attempt>, a: Attempt)
    ensures FailuresAfter(limit, attempts + [a]) == AfterAttempt(limit, FailuresAfter(limit, attempts), a)
  {
    hide AfterAttempt;
    assert (attempts + [a])[..|attempts|] == attempts;
  }

  lemma NewKeyFails(limit: Limit, t: Table, key: string)
    requires key !in t
    ensures AfterAttempt(limit, t, Attempt(key, 0, 0, false)) == AfterHit(true, limit, t, Hit(key, 0))
  {
    hide AfterHit, AfterFailure;
    FailureIsHit(limit, t, key, 0);
  }

  lemma OneWrongEachIsSequential(n: nat)
    ensures Sequential(OneWrongEach(n))
    ensures OneWrongEach(n + 1) == OneWrongEach(n) + [Attempt(KeyName(n), 0, 0, false)]
    ensures OneHitEach(n + 1) == OneHitEach(n) + [Hit(KeyName(n), 0)]
    ensures |KeyName(n)| == n
  {
  }

  /** So this table has no cap either. */
  lemma {:induction false} FailuresGrowToAnySize(limit: Limit, n: nat)
    requires limit.window > 0
    ensures Sequential(OneWrongEach(n)) && |FailuresAfter(limit, OneWrongEach(n))| == n
    ensures FailuresAfter(limit, OneWrongEach(n)) == TableAfter(true, limit, OneHitEach(n))
  {
    hide TableAfter, FailuresAfter, AfterHit, AfterAttempt, Sequential, OneWrongEach, OneHitEach, KeyName;
    TableGrowsToAnySize(limit, n);
    OneWrongEachIsSequential(n);
    if n > 0 {
      FailuresGrowToAnySize(limit, n - 1);
      TableGrowsToAnySize(limit, n - 1);
      OneWrongEachIsSequential(n - 1);
      var t, key := TableAfter(true, limit, OneHitEach(n - 1)), KeyName(n - 1);
      assert key !in t;
      TableSnoc(true, limit, OneHitEach(n - 1), Hit(key, 0));
      FailuresSnoc(limit, OneWrongEach(n - 1), Attempt(key, 0, 0, false));
      NewKeyFails(limit, t, key);
    } else {
      EmptyRuns(limit);
    }
  }

  lemma EmptyRuns(limit: Limit)
    ensures FailuresAfter(limit, OneWrongEach(0)) == map[] && TableAfter(true, limit, OneHitEach(0)) == map[]
  {
  }
}
