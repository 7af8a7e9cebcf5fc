/** Unlock attempts that overlap: each is checked first and recorded later. */
module UnlockRaces {
  import opened RateLimits
  import opened UnlockLimits

  /** The limiter's table, and the keys of the attempts that were let in and are not recorded yet. */
  datatype Gate = Gate(failures: Table, waiting: map<nat, string>)

  const CLOSED := Gate(map[], map[])

  /** An attempt is checked; its passphrase opens the key or not; or it ends in another error. */
  datatype Step =
    | Check(req: nat, key: string, now: int)
    | Record(req: nat, now: int, opens: bool)
    | GiveUp(req: nat, now: int)

  function AfterStep(limit: Limit, s: Gate, e: Step): Gate {
    match e
    case Check(req, key, now) =>
      if req in s.waiting then s
      else
        var t := AfterCheck(limit, s.failures, key, now);
        Gate(t, if IsBlocked(limit, s.failures, key, now) then s.waiting else s.waiting[req := key])
    case Record(req, now, opens) =>
      if req !in s.waiting then s
      else
        var key := s.waiting[req];
        Gate(if opens then s.failures - {key} else AfterFailure(limit, s.failures, key, now), s.waiting - {req})
    case GiveUp(req, _) => Gate(s.failures, s.waiting - {req})
  }

  function GateAfter(limit: Limit, steps: seq<Step>): Gate {
    if steps == [] then CLOSED
    else AfterStep(limit, GateAfter(limit, steps[..|steps| - 1]), steps[|steps| - 1])
  }

  ghost predicate Ascending(steps: seq<Step>) {
    forall i, j :: 0 <= i < j < |steps| ==> steps[i].now <= steps[j].now
  }

  function LastNow(steps: seq<Step>): int {
    if steps == [] then 0 else steps[|steps| - 1].now
  }

  function WaitingFor(s: Gate, key: string): set<nat> {
    set req | req in s.waiting && s.waiting[req] == key
  }

  /** Never more than `k` attempts on the key at once. */
  ghost predicate AtMostAtOnce(limit: Limit, steps: seq<Step>, key: string, k: nat) {
    forall i :: 0 <= i <= |steps| ==> |WaitingFor(GateAfter(limit, steps[..i]), key)| <= k
  }

  /** A step that records a wrong passphrase for the key. */
  predicate RecordsWrong(s: Gate, e: Step, key: string) {
    e.Record? && e.req in s.waiting && s.waiting[e.req] == key && !e.opens
  }

  predicate RecordsRight(s: Gate, e: Step, key: string) {
    e.Record? && e.req in s.waiting && s.waiting[e.req] == key && e.opens
  }

  /** The log of the key's wrong passphrases, kept by one more step: the windows they are counted in. */
  function LogAfter(limit: Limit, s: Gate, e: Step, key: string, log: seq<int>): seq<int> {
    if RecordsRight(s, e, key) then []
    else if RecordsWrong(s, e, key) then log + [AfterFailure(limit, s.failures, key, e.now)[key].start]
    else log
  }

  /** For each wrong passphrase of the key since its last success, the start of the window it was counted in. */
  function WrongIn(limit: Limit, steps: seq<Step>, key: string): seq<int> {
    if steps == [] then []
    else
      var front := steps[..|steps| - 1];
      LogAfter(limit, GateAfter(limit, front), steps[|steps| - 1], key, WrongIn(limit, front, key))
  }

  // ---- One attempt alone ----

  /** An attempt that nothing overlaps is a check and a record. */
  lemma AttemptIsCheckAndRecord(limit: Limit, s: Gate, a: Attempt, req: nat)
    requires req !in s.waiting
    ensures var s1 := AfterStep(limit, s, Check(req, a.key, a.checked));
            AfterStep(limit, s1, Record(req, a.tried, a.opens)) == Gate(AfterAttempt(limit, s.failures, a), s.waiting)
  {
    hide AfterCheck, AfterFailure, IsBlocked;
    InAndOut(s.waiting, req, a.key);
    if !IsBlocked(limit, s.failures, a.key, a.checked) {
      assert AfterStep(limit, s, Check(req, a.key, a.checked)).waiting[req] == a.key;
    }
  }

  lemma InAndOut(waiting: map<nat, string>, req: nat, key: string)
    requires req !in waiting
    ensures waiting[req := key] - {req} == waiting
    ensures waiting - {req} == waiting
  {
  }

  // ---- What overlapping attempts can get through ----

  /** With `k` attempts at once, `k - 1` can have been let in before the last failure was recorded. */
  function MostAtOnce(limit: Limit, k: nat): nat {
    MostWrong(limit) + if k == 0 then 0 else k - 1
  }

  /** Even if every waiting attempt fails into the key's window, it holds no more than `most`. */
  ghost predicate HasRoom(s: Gate, key: string, most: nat) {
    key in s.failures ==> s.failures[key].count + |WaitingFor(s, key)| <= most
  }

  ghost predicate InBounds(limit: Limit, s: Gate, key: string, k: nat, log: seq<int>, now: int) {
    HasRoom(s, key, MostAtOnce(limit, k)) && LogMatches(limit, MostAtOnce(limit, k), s.failures, key, log, now)
  }

  lemma WaitingAfterLetIn(s: Gate, t: Table, req: nat, key: string, other: string)
    requires req !in s.waiting
    ensures var s' := Gate(t, s.waiting[req := other]);
            |WaitingFor(s', key)| == |WaitingFor(s, key)| + if other == key then 1 else 0
  {
    var s' := Gate(t, s.waiting[req := other]);
    assert WaitingFor(s', key) == WaitingFor(s, key) + if other == key then {req} else {};
  }

  lemma WaitingAfterLeaving(s: Gate, t: Table, req: nat, key: string)
    ensures var s' := Gate(t, s.waiting - {req});
            |WaitingFor(s', key)| == |WaitingFor(s, key)| - if req in s.waiting && s.waiting[req] == key then 1 else 0
  {
    var s' := Gate(t, s.waiting - {req});
    assert WaitingFor(s', key) == WaitingFor(s, key) - {req};
  }

  lemma WaitingUnmoved(s: Gate, t: Table, key: string)
    ensures WaitingFor(Gate(t, s.waiting), key) == WaitingFor(s, key)
  {
  }

  /** The key's entry is gone, or what it was. */
  ghost predicate EntryStays(limit: Limit, t: Table, t': Table, key: string, now: int) {
    && (key in t' ==> key in t && t'[key] == t[key])
    && (key in t && key !in t' ==> Expired(t[key], limit.window, now))
  }

  lemma OthersStayInBounds(limit: Limit, s: Gate, s': Gate, key: string, k: nat, log: seq<int>, before: int, now: int)
    requires InBounds(limit, s, key, k, log, before) && (log != [] ==> before <= now)
    requires EntryStays(limit, s.failures, s'.failures, key, now)
    requires |WaitingFor(s', key)| <= |WaitingFor(s, key)|
    ensures InBounds(limit, s', key, k, log, now)
  {
    hide LogMatches, WaitingFor;
    TimeKeepsLog(limit, MostAtOnce(limit, k), s.failures, key, log, before, now);
    OthersKeepLog(limit, MostAtOnce(limit, k), s.failures, s'.failures, key, log, now);
  }

  lemma OtherEntriesStay(limit: Limit, t: Table, key: string, other: string, now: int)
    ensures EntryStays(limit, t, t, key, now) && EntryStays(limit, t, AfterCheck(limit, t, other, now), key, now)
    ensures key != other ==>
              && EntryStays(limit, t, t - {other}, key, now)
              && EntryStays(limit, t, AfterFailure(limit, t, other, now), key, now)
  {
  }

  lemma CheckStaysInBounds(limit: Limit, s: Gate, e: Step, key: string, k: nat, log: seq<int>, before: int)
    requires limit.window > 0 && InBounds(limit, s, key, k, log, before) && (log != [] ==> before <= e.now)
    requires e.Check? && |WaitingFor(AfterStep(limit, s, e), key)| <= k
    ensures InBounds(limit, AfterStep(limit, s, e), key, k, log, e.now)
  {
    hide InBounds, EntryStays, AfterCheck, WaitingFor;
    var s' := AfterStep(limit, s, e);
    OtherEntriesStay(limit, s.failures, key, e.key, e.now);
    var t := AfterCheck(limit, s.failures, e.key, e.now);
    WaitingUnmoved(s, t, key);
    if e.req !in s.waiting {
      WaitingAfterLetIn(s, t, e.req, key, e.key);
    }
    if e.req in s.waiting || e.key != key || IsBlocked(limit, s.failures, key, e.now) {
      OthersStayInBounds(limit, s, s', key, k, log, before, e.now);
    } else {
      LetInStaysInBounds(limit, s, e.req, key, k, log, before, e.now);
    }
  }

  lemma LetInStaysInBounds(limit: Limit, s: Gate, req: nat, key: string, k: nat, log: seq<int>, before: int, now: int)
    requires limit.window > 0 && InBounds(limit, s, key, k, log, before) && (log != [] ==> before <= now)
    requires req !in s.waiting && !IsBlocked(limit, s.failures, key, now)
    requires |WaitingFor(s, key)| < k
    ensures InBounds(limit, Gate(AfterCheck(limit, s.failures, key, now), s.waiting[req := key]), key, k, log, now)
  {
    hide LogMatches, WaitingFor;
    CheckKeepsLog(limit, MostAtOnce(limit, k), s.failures, key, log, before, now);
    WaitingAfterLetIn(s, AfterCheck(limit, s.failures, key, now), req, key, key);
  }

  lemma FailureStaysInBounds(limit: Limit, s: Gate, req: nat, key: string, k: nat, log: seq<int>, before: int, now: int)
    requires limit.window > 0 && InBounds(limit, s, key, k, log, before) && (log != [] ==> before <= now)
    requires req in s.waiting && s.waiting[req] == key && |WaitingFor(s, key)| <= k
    ensures var t := AfterFailure(limit, s.failures, key, now);
            InBounds(limit, Gate(t, s.waiting - {req}), key, k, log + [t[key].start], now)
  {
    var most, t := MostAtOnce(limit, k), AfterFailure(limit, s.failures, key, now);
    WaitingAfterLeaving(s, t, req, key);
    hide LogMatches, WaitingFor;
    TimeKeepsLog(limit, most, s.failures, key, log, before, now);
    FailureKeepsLog(limit, most, s.failures, key, log, now);
  }

  lemma RecordStaysInBounds(limit: Limit, s: Gate, e: Step, key: string, k: nat, log: seq<int>, before: int)
    requires limit.window > 0 && InBounds(limit, s, key, k, log, before) && (log != [] ==> before <= e.now)
    requires e.Record? && |WaitingFor(s, key)| <= k
    ensures InBounds(limit, AfterStep(limit, s, e), key, k, LogAfter(limit, s, e, key, log), e.now)
  {
    hide InBounds, EntryStays, AfterFailure, WaitingFor;
    var s' := AfterStep(limit, s, e);
    if e.req !in s.waiting {
      OtherEntriesStay(limit, s.failures, key, key, e.now);
      OthersStayInBounds(limit, s, s', key, k, log, before, e.now);
    } else {
      var other := s.waiting[e.req];
      OtherEntriesStay(limit, s.failures, key, other, e.now);
      WaitingAfterLeaving(s, s'.failures, e.req, key);
      if other != key {
        OthersStayInBounds(limit, s, s', key, k, log, before, e.now);
      } else if e.opens {
        NothingLogged(limit, s', key, k, e.now);
      } else {
        FailureStaysInBounds(limit, s, e.req, key, k, log, before, e.now);
      }
    }
  }

  lemma NothingLogged(limit: Limit, s: Gate, key: string, k: nat, now: int)
    requires key !in s.failures
    ensures InBounds(limit, s, key, k, [], now)
  {
    EmptyLogMatches(limit, MostAtOnce(limit, k), s.failures, key, now);
  }

  lemma GiveUpStaysInBounds(limit: Limit, s: Gate, e: Step, key: string, k: nat, log: seq<int>, before: int)
    requires limit.window > 0 && InBounds(limit, s, key, k, log, before) && (log != [] ==> before <= e.now)
    requires e.GiveUp?
    ensures InBounds(limit, AfterStep(limit, s, e), key, k, log, e.now)
  {
    hide InBounds, WaitingFor;
    WaitingAfterLeaving(s, s.failures, e.req, key);
    OthersStayInBounds(limit, s, AfterStep(limit, s, e), key, k, log, before, e.now);
  }

  lemma {:induction false} RunsStayInBounds(limit: Limit, steps: seq<Step>, key: string, k: nat)
    requires limit.window > 0 && Ascending(steps) && AtMostAtOnce(limit, steps, key, k)
    ensures InBounds(limit, GateAfter(limit, steps), key, k, WrongIn(limit, steps, key), LastNow(steps))
  {
    hide InBounds, AfterStep, WaitingFor;
    if steps == [] {
      NothingLogged(limit, CLOSED, key, k, 0);
    } else {
      var n := |steps| - 1;
      var front, e := steps[..n], steps[n];
      assert steps[..|steps|] == steps;
      assert forall i :: 0 <= i <= n ==> front[..i] == steps[..i];
      RunsStayInBounds(limit, front, key, k);
      assert front != [] ==> LastNow(front) == steps[n - 1].now <= e.now;
      var s, log := GateAfter(limit, front), WrongIn(limit, front, key);
      assert |WaitingFor(s, key)| <= k && |WaitingFor(AfterStep(limit, s, e), key)| <= k;
      match e
      case Check(_, _, _) => CheckStaysInBounds(limit, s, e, key, k, log, LastNow(front));
      case Record(_, _, _) => RecordStaysInBounds(limit, s, e, key, k, log, LastNow(front));
      case GiveUp(_, _) => GiveUpStaysInBounds(limit, s, e, key, k, log, LastNow(front));
    }
  }

  /**
   * However the checks and records of at most `k` attempts at once interleave, no failure window
   * has let more than `max` + `k` - 1 wrong passphrases through since the key's last success.
   */
  lemma OverlappingGuessesAreBounded(limit: Limit, steps: seq<Step>, key: string, k: nat, w: int)
    requires limit.window > 0 && Ascending(steps) && AtMostAtOnce(limit, steps, key, k)
    ensures multiset(WrongIn(limit, steps, key))[w] <= MostAtOnce(limit, k)
  {
    hide WrongIn, GateAfter, AtMostAtOnce;
    RunsStayInBounds(limit, steps, key, k);
  }

  // ---- A run that gets that many through ----

  /** `m` failures one by one, then `j` attempts let in together, of which `r` have failed; all at time 0. */
  function Burst(m: nat, j: nat, r: nat): seq<Step>
    decreases m, j, r
  {
    if r > 0 then Burst(m, j, r - 1) + [Record(r - 1, 0, false)]
    else if j > 0 then Burst(m, j - 1, 0) + [Check(j - 1, "", 0)]
    else if m > 0 then Burst(m - 1, 1, 1)
    else []
  }

  function FailedTimes(n: nat): Table {
    if n == 0 then map[] else map["" := Entry(n, 0)]
  }

  ghost predicate Waits(waiting: map<nat, string>, r: nat, j: nat) {
    forall req :: (req in waiting <==> r <= req < j) && (req in waiting ==> waiting[req] == "")
  }

  /** `n` failures have been recorded, all in the window that starts at 0, and r, ..., j - 1 wait. */
  ghost predicate LeadsTo(limit: Limit, steps: seq<Step>, n: nat, j: nat, r: nat, k: nat)
    requires r <= j
  {
    var s := GateAfter(limit, steps);
    && AtMostAtOnce(limit, steps, "", k)
    && (forall i :: 0 <= i < |steps| ==> steps[i].now == 0)
    && s.failures == FailedTimes(n)
    && Waits(s.waiting, r, j)
    && |WaitingFor(s, "")| == j - r
    && multiset(WrongIn(limit, steps, ""))[0] == n
  }

  lemma OneMoreStep(limit: Limit, steps: seq<Step>, e: Step, key: string, k: nat)
    requires AtMostAtOnce(limit, steps, key, k)
    requires |WaitingFor(AfterStep(limit, GateAfter(limit, steps), e), key)| <= k
    ensures var more := steps + [e];
            && GateAfter(limit, more) == AfterStep(limit, GateAfter(limit, steps), e)
            && WrongIn(limit, more, key) == LogAfter(limit, GateAfter(limit, steps), e, key, WrongIn(limit, steps, key))
            && AtMostAtOnce(limit, more, key, k)
  {
    var more := steps + [e];
    assert more[..|steps|] == steps && more[..|more|] == more;
    hide AfterStep, WaitingFor, LogAfter;
    forall i | 0 <= i <= |more| ensures |WaitingFor(GateAfter(limit, more[..i]), key)| <= k {
      if i <= |steps| {
        assert more[..i] == steps[..i];
      }
    }
  }

  lemma FailureCounts(limit: Limit, n: nat)
    requires limit.window > 0
    ensures AfterFailure(limit, FailedTimes(n), "", 0) == FailedTimes(n + 1)
  {
  }

  lemma NextFails(limit: Limit, steps: seq<Step>, n: nat, j: nat, r: nat, k: nat)
    requires limit.window > 0 && r < j <= k && LeadsTo(limit, steps, n, j, r, k)
    ensures LeadsTo(limit, steps + [Record(r, 0, false)], n + 1, j, r + 1, k)
  {
    hide WaitingFor, GateAfter, WrongIn, AtMostAtOnce, AfterFailure;
    var s, log := GateAfter(limit, steps), WrongIn(limit, steps, "");
    assert r in s.waiting;
    FailureCounts(limit, n);
    WaitingAfterLeaving(s, FailedTimes(n + 1), r, "");
    assert multiset(log + [0])[0] == multiset(log)[0] + 1;
    OneMoreStep(limit, steps, Record(r, 0, false), "", k);
  }

  lemma NextIsLetIn(limit: Limit, steps: seq<Step>, n: nat, j: nat, k: nat)
    requires limit.window > 0 && n < MostWrong(limit) && j < k && LeadsTo(limit, steps, n, j, 0, k)
    ensures LeadsTo(limit, steps + [Check(j, "", 0)], n, j + 1, 0, k)
  {
    hide WaitingFor, GateAfter, WrongIn, AtMostAtOnce;
    var s := GateAfter(limit, steps);
    WaitingAfterLetIn(s, s.failures, j, "", "");
    OneMoreStep(limit, steps, Check(j, "", 0), "", k);
  }

  lemma NobodyWaits(limit: Limit, steps: seq<Step>, n: nat, j: nat, k: nat)
    requires LeadsTo(limit, steps, n, j, j, k)
    ensures LeadsTo(limit, steps, n, 0, 0, k)
  {
    hide WaitingFor, GateAfter, WrongIn, AtMostAtOnce, FailedTimes;
  }

  lemma NothingYet(limit: Limit, k: nat)
    ensures LeadsTo(limit, [], 0, 0, 0, k)
  {
    assert WaitingFor(CLOSED, "") == {};
  }

  lemma {:induction false} BurstRuns(limit: Limit, m: nat, j: nat, r: nat, k: nat)
    requires limit.window > 0 && m < MostWrong(limit) && r <= j <= k && 0 < k
    ensures LeadsTo(limit, Burst(m, j, r), m + r, j, r, k)
    decreases m, j, r
  {
    hide LeadsTo;
    if r > 0 {
      BurstRuns(limit, m, j, r - 1, k);
      NextFails(limit, Burst(m, j, r - 1), m + r - 1, j, r - 1, k);
    } else if j > 0 {
      BurstRuns(limit, m, j - 1, 0, k);
      NextIsLetIn(limit, Burst(m, j - 1, 0), m, j - 1, k);
    } else if m > 0 {
      BurstRuns(limit, m - 1, 1, 1, k);
      NobodyWaits(limit, Burst(m, 0, 0), m, 1, k);
    } else {
      NothingYet(limit, k);
    }
  }

  ghost predicate NeverMoreThan(limit: Limit, k: nat, most: nat, steps: seq<Step>, key: string) {
    Ascending(steps) && AtMostAtOnce(limit, steps, key, k) ==>
      forall w :: multiset(WrongIn(limit, steps, key))[w] <= most
  }

  /** `max` + `k` - 1 is the least bound that holds of every interleaving. */
  lemma OverlapBoundIsExact(limit: Limit, k: nat, most: nat)
    requires limit.window > 0 && k > 0
    ensures (forall steps, key :: NeverMoreThan(limit, k, most, steps, key)) <==> MostAtOnce(limit, k) <= most
  {
    hide WrongIn, GateAfter, AtMostAtOnce;
    forall steps, key, w | Ascending(steps) && AtMostAtOnce(limit, steps, key, k)
      ensures multiset(WrongIn(limit, steps, key))[w] <= MostAtOnce(limit, k)
    {
      OverlappingGuessesAreBounded(limit, steps, key, k, w);
    }
    BurstRuns(limit, MostWrong(limit) - 1, k, k, k);
    assert NeverMoreThan(limit, k, most, Burst(MostWrong(limit) - 1, k, k), "") ==> MostAtOnce(limit, k) <= most;
  }
}
