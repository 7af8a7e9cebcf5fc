/** Why one live token is promised only for requests that run one at a time and do not fail. */
module OAuthRaces {
  import opened Seqs
  import opened OAuthSystem
  import OAuthInterleavings
  import opened OAuthSerial

  /** The unrevoked refresh tokens that stem from one code exchange. */
  ghost function LiveOf(s: System, codeId: string): set<string> {
    set id | id in s.refresh && id in s.origin && s.origin[id] == codeId && !s.refresh[id].revoked
  }

  /** A live token presented while no request is half done is the only live one of its exchange. */
  lemma OnlyLiveToken(s: System, id: string)
    requires Serial(s) && id in s.refresh && !s.refresh[id].revoked
    ensures id in s.origin && LiveOf(s, s.origin[id]) == {id}
  {
    hide OAuthInterleavings.Safe;
    RefreshRowsAreTraced(s, id);
    forall other | other in LiveOf(s, s.origin[id]) ensures other == id {
      assert OneLivePair(s, other, id);
    }
  }

  // ---- The three writes of a refresh ----

  lemma InsertAddsLive(s: System, newId: string, secret: string, grant: Grant, codeId: string)
    requires newId !in s.refresh
    ensures LiveOf(Insert(s, newId, secret, grant, codeId), codeId) == LiveOf(s, codeId) + {newId}
  {
    hide LookupOf;
  }

  lemma RotateDropsLive(s: System, id: string, newId: string, codeId: string)
    ensures LiveOf(s.(refresh := Rotate(s.refresh, id, newId)), codeId) == LiveOf(s, codeId) - {id}
  {
  }

  lemma RevokeDropsLive(s: System, userId: string, clientId: string, codeId: string)
    requires forall id :: id in LiveOf(s, codeId) ==>
               s.refresh[id].grant.userId == userId && s.refresh[id].grant.clientId == clientId
    ensures LiveOf(s.(refresh := RevokeAll(s.refresh, userId, clientId)), codeId) == {}
  {
  }

  // ---- Two requests that present the same live token ----

  datatype Racer = Racer(req: nat, form: RefreshForm, newId: string, secret: string)

  /** The request's database calls; those its branch does not reach have no effect. */
  function Calls(r: Racer, id: string): seq<Event> {
    [FindRefresh(r.req, r.form, Some(id)), RevokeGrant(r.req, Succeeds),
     InsertRefresh(r.req, r.newId, r.secret, Succeeds), RotateRefresh(r.req, Succeeds)]
  }

  /** `events` runs through `a` and `b`, each in its order. */
  ghost predicate IsMerge(events: seq<Event>, a: seq<Event>, b: seq<Event>)
    decreases |events|
  {
    if events == [] then a == [] && b == []
    else
      var n := |events| - 1;
      || (a != [] && events[n] == a[|a| - 1] && IsMerge(events[..n], a[..|a| - 1], b))
      || (b != [] && events[n] == b[|b| - 1] && IsMerge(events[..n], a, b[..|b| - 1]))
  }

  ghost predicate LookupsFirst(events: seq<Event>) {
    forall m, n :: 0 <= m < |events| && 0 <= n < |events| && events[m].FindRefresh? && events[n].RotateRefresh? ==> m < n
  }

  ghost predicate HasRotated(events: seq<Event>) {
    exists n :: 0 <= n < |events| && events[n].RotateRefresh?
  }

  /** How many calls a request has made, and whether its lookup found the token unrevoked. */
  datatype Progress = Progress(made: nat, sawLive: bool) {
    predicate Inserted() {
      sawLive && made >= 3
    }

    predicate Rotated() {
      sawLive && made >= 4
    }

    predicate HasRevoked() {
      !sawLive && made >= 2
    }
  }

  /** What the request waits to do. */
  function Waiting(r: Racer, p: Progress, id: string, grant: Grant): Option<Request> {
    if p.made == 0 || p.made >= 4 || p.HasRevoked() then None
    else if !p.sawLive then Some(ToRevoke(grant.userId, grant.clientId))
    else if p.made == 3 then Some(ToRotate(id, r.newId))
    else Some(ToIssueForRefresh(id))
  }

  function InFlight(s: System, req: nat): Option<Request> {
    if req in s.inFlight then Some(s.inFlight[req]) else None
  }

  /** Where the request stands. */
  ghost predicate StandsAt(s: System, id: string, r: Racer, p: Progress)
    requires id in s.refresh && id in s.origin
  {
    var grant := s.refresh[id].grant;
    && p.made <= 4 && (p.made == 0 ==> p.sawLive)
    && InFlight(s, r.req) == Waiting(r, p, id, grant)
    && (p.Inserted() ==> r.newId in s.refresh && r.newId != id && s.refresh[r.newId].grant == grant)
    && (!p.Inserted() ==> CanInsert(s, r.newId, r.secret))
  }

  ghost function ExpectedLive(id: string, a: Racer, p: Progress, b: Racer, q: Progress): set<string> {
    if p.HasRevoked() || q.HasRevoked() then {}
    else (if p.Rotated() || q.Rotated() then {} else {id})
         + (if p.Inserted() then {a.newId} else {}) + (if q.Inserted() then {b.newId} else {})
  }

  ghost predicate Presented(s: System, id: string, a: Racer, b: Racer) {
    && a.req != b.req && a.newId != b.newId && a.secret != b.secret
    && RefreshAccepted(s, a.form, id) && RefreshAccepted(s, b.form, id)
    && id in s.origin && s.refresh[id].expiresAt >= s.now
  }

  /** Two requests under way: a lookup finds the token revoked only behind the other's rotation. */
  ghost predicate Racing(s: System, id: string, codeId: string, a: Racer, p: Progress, b: Racer, q: Progress) {
    && Presented(s, id, a, b) && s.origin[id] == codeId
    && StandsAt(s, id, a, p) && StandsAt(s, id, b, q)
    && (!p.sawLive ==> q.Rotated()) && (!q.sawLive ==> p.Rotated())
    && (s.refresh[id].revoked <==> p.Rotated() || q.Rotated())
    && LiveOf(s, codeId) == ExpectedLive(id, a, p, b, q)
  }

  lemma RacingIsSymmetric(s: System, id: string, codeId: string, a: Racer, p: Progress, b: Racer, q: Progress)
    requires Racing(s, id, codeId, a, p, b, q)
    ensures Racing(s, id, codeId, b, q, a, p)
  {
    hide StandsAt, RefreshAccepted, LiveOf;
  }

  function After(s: System, id: string, p: Progress): Progress
    requires id in s.refresh
  {
    Progress(p.made + 1, if p.made == 0 then !s.refresh[id].revoked else p.sawLive)
  }

  lemma RacerLooksUp(s: System, id: string, codeId: string, a: Racer, p: Progress, b: Racer, q: Progress)
    requires Racing(s, id, codeId, a, p, b, q) && p.made == 0
    ensures Racing(Apply(s, Calls(a, id)[0]), id, codeId, a, After(s, id, p), b, q)
  {
    hide LookupOf, IsMinted;
    var s' := Apply(s, Calls(a, id)[0]);
    assert s' == s.(inFlight := s'.inFlight);
    assert LiveOf(s', codeId) == LiveOf(s, codeId);
  }

  lemma RacerRevokes(s: System, id: string, codeId: string, a: Racer, p: Progress, b: Racer, q: Progress)
    requires Racing(s, id, codeId, a, p, b, q) && p.made == 1
    ensures Racing(Apply(s, Calls(a, id)[1]), id, codeId, a, After(s, id, p), b, q)
  {
    hide LookupOf, IsMinted;
    var grant := s.refresh[id].grant;
    if !p.sawLive {
      RevokeDropsLive(s, grant.userId, grant.clientId, codeId);
      var s' := Apply(s, Calls(a, id)[1]);
      assert s' == s.(refresh := RevokeAll(s.refresh, grant.userId, grant.clientId), inFlight := s.inFlight - {a.req});
      assert LiveOf(s', codeId) == {};
    }
  }

  /** The store with the racer's new token in it. */
  function Stored(s: System, id: string, codeId: string, a: Racer): System
    requires id in s.refresh
  {
    Insert(s, a.newId, a.secret, s.refresh[id].grant, codeId)
    .(inFlight := s.inFlight[a.req := ToRotate(id, a.newId)])
  }

  lemma StoredLive(s: System, id: string, codeId: string, a: Racer)
    requires id in s.refresh && a.newId !in s.refresh
    ensures LiveOf(Stored(s, id, codeId, a), codeId) == LiveOf(s, codeId) + {a.newId}
  {
    var s1 := Insert(s, a.newId, a.secret, s.refresh[id].grant, codeId);
    InsertAddsLive(s, a.newId, a.secret, s.refresh[id].grant, codeId);
    assert LiveOf(Stored(s, id, codeId, a), codeId) == LiveOf(s1, codeId);
  }

  lemma OtherStandsAfterInsert(s: System, id: string, codeId: string, a: Racer, b: Racer, q: Progress)
    requires Presented(s, id, a, b) && StandsAt(s, id, b, q) && CanInsert(s, a.newId, a.secret)
    ensures Presented(Stored(s, id, codeId, a), id, a, b) && StandsAt(Stored(s, id, codeId, a), id, b, q)
  {
    hide LookupOf, IsMinted;
  }

  lemma SelfStandsAfterInsert(s: System, id: string, codeId: string, a: Racer, b: Racer, p: Progress)
    requires Presented(s, id, a, b) && s.origin[id] == codeId && StandsAt(s, id, a, p) && p.sawLive && p.made == 2
    ensures Apply(s, Calls(a, id)[2]) == Stored(s, id, codeId, a)
    ensures StandsAt(Stored(s, id, codeId, a), id, a, After(s, id, p))
    ensures Stored(s, id, codeId, a).origin[id] == codeId
    ensures Stored(s, id, codeId, a).refresh[id].revoked == s.refresh[id].revoked
    ensures a.newId !in s.refresh && CanInsert(s, a.newId, a.secret)
  {
    hide LookupOf, IsMinted;
  }

  /** Having revoked the grant, the request has nothing left to do. */
  lemma RacerIsDone(s: System, id: string, codeId: string, a: Racer, p: Progress, b: Racer, q: Progress)
    requires Racing(s, id, codeId, a, p, b, q) && 2 <= p.made < 4 && !p.sawLive
    ensures Racing(s, id, codeId, a, After(s, id, p), b, q)
    ensures Apply(s, Calls(a, id)[p.made]) == s
  {
    hide CanInsert, RefreshAccepted, LiveOf, LookupOf;
  }

  lemma ExpectedAfterInsert(id: string, a: Racer, p: Progress, p': Progress, b: Racer, q: Progress)
    requires p.sawLive && p'.sawLive && p.made == 2 && p'.made == 3 && q.sawLive
    ensures ExpectedLive(id, a, p', b, q) == ExpectedLive(id, a, p, b, q) + {a.newId}
  {
  }

  lemma PresentedIsStored(s: System, id: string, a: Racer, b: Racer)
    requires Presented(s, id, a, b)
    ensures id in s.refresh && id in s.origin
  {
  }

  lemma RacerInserts(s: System, id: string, codeId: string, a: Racer, p: Progress, b: Racer, q: Progress)
    requires Racing(s, id, codeId, a, p, b, q) && p.made == 2
    ensures Racing(Apply(s, Calls(a, id)[2]), id, codeId, a, After(s, id, p), b, q)
  {
    hide StandsAt, Presented, LiveOf, Stored, Apply, CanInsert, ExpectedLive, Calls;
    PresentedIsStored(s, id, a, b);
    if p.sawLive {
      SelfStandsAfterInsert(s, id, codeId, a, b, p);
      OtherStandsAfterInsert(s, id, codeId, a, b, q);
      StoredLive(s, id, codeId, a);
      ExpectedAfterInsert(id, a, p, After(s, id, p), b, q);
    } else {
      RacerIsDone(s, id, codeId, a, p, b, q);
    }
  }

  lemma RacerRotates(s: System, id: string, codeId: string, a: Racer, p: Progress, b: Racer, q: Progress)
    requires Racing(s, id, codeId, a, p, b, q) && p.made == 3
    ensures Racing(Apply(s, Calls(a, id)[3]), id, codeId, a, After(s, id, p), b, q)
  {
    hide LookupOf, IsMinted;
    if p.sawLive {
      RotateDropsLive(s, id, a.newId, codeId);
      var s1 := s.(refresh := Rotate(s.refresh, id, a.newId));
      var s' := Apply(s, Calls(a, id)[3]);
      assert s' == s1.(inFlight := s.inFlight - {a.req});
      assert LiveOf(s', codeId) == LiveOf(s1, codeId);
    } else {
      RacerIsDone(s, id, codeId, a, p, b, q);
    }
  }

  lemma RacerCalls(s: System, id: string, codeId: string, a: Racer, p: Progress, b: Racer, q: Progress)
    requires Racing(s, id, codeId, a, p, b, q) && p.made < 4
    ensures Racing(Apply(s, Calls(a, id)[p.made]), id, codeId, a, After(s, id, p), b, q)
  {
    if p.made == 0 {
      RacerLooksUp(s, id, codeId, a, p, b, q);
    } else if p.made == 1 {
      RacerRevokes(s, id, codeId, a, p, b, q);
    } else if p.made == 2 {
      RacerInserts(s, id, codeId, a, p, b, q);
    } else {
      RacerRotates(s, id, codeId, a, p, b, q);
    }
  }

  /** What the order of the calls so far says: a lookup came behind a rotation exactly if it found the token revoked. */
  ghost predicate OrderTells(events: seq<Event>, p: Progress, q: Progress) {
    && (HasRotated(events) <==> p.made == 4 || q.made == 4)
    && (LookupsFirst(events) <==> p.sawLive && q.sawLive)
  }

  lemma OrderTellsNext(front: seq<Event>, e: Event, p: Progress, q: Progress, p': Progress)
    requires OrderTells(front, p, q) && p'.made == p.made + 1 <= 4
    requires e.FindRefresh? <==> p.made == 0
    requires e.RotateRefresh? <==> p.made == 3
    requires p.made == 0 ==> p.sawLive && (p'.sawLive <==> q.made != 4)
    requires p.made > 0 ==> p'.sawLive == p.sawLive
    ensures OrderTells(front + [e], p', q)
  {
    var events := front + [e];
    assert forall n :: 0 <= n < |front| ==> events[n] == front[n];
    assert events[|front|] == e;
    if n :| 0 <= n < |front| && front[n].RotateRefresh? {
      assert events[n].RotateRefresh?;
    }
    if LookupsFirst(events) {
      assert LookupsFirst(front);
    }
  }

  /** Wherever an interleaving of the two requests stands. */
  lemma {:induction false} RaceStandsSomewhere(s: System, id: string, a: Racer, b: Racer, events: seq<Event>, i: nat, j: nat)
    returns (p: Progress, q: Progress)
    requires i <= 4 && j <= 4 && IsMerge(events, Calls(a, id)[..i], Calls(b, id)[..j])
    requires id in s.origin
    requires Racing(s, id, s.origin[id], a, Progress(0, true), b, Progress(0, true))
    ensures p.made == i && q.made == j && OrderTells(events, p, q)
    ensures Racing(Exec(s, events), id, s.origin[id], a, p, b, q)
    decreases |events|
  {
    hide Racing, Apply;
    if events == [] {
      p, q := Progress(0, true), Progress(0, true);
    } else {
      var n := |events| - 1;
      var front := events[..n];
      assert events == front + [events[n]];
      if i > 0 && events[n] == Calls(a, id)[i - 1] && IsMerge(front, Calls(a, id)[..i][..i - 1], Calls(b, id)[..j]) {
        assert Calls(a, id)[..i][..i - 1] == Calls(a, id)[..i - 1];
        p, q := RaceStandsSomewhere(s, id, a, b, front, i - 1, j);
        p := NextStand(Exec(s, front), id, s.origin[id], a, p, b, q, front);
      } else {
        assert Calls(b, id)[..j][..j - 1] == Calls(b, id)[..j - 1];
        p, q := RaceStandsSomewhere(s, id, a, b, front, i, j - 1);
        RacingIsSymmetric(Exec(s, front), id, s.origin[id], a, p, b, q);
        q := NextStand(Exec(s, front), id, s.origin[id], b, q, a, p, front);
        RacingIsSymmetric(Exec(s, events), id, s.origin[id], b, q, a, p);
      }
    }
  }

  lemma NextStand(s: System, id: string, codeId: string, a: Racer, p: Progress, b: Racer, q: Progress, front: seq<Event>)
    returns (p': Progress)
    requires Racing(s, id, codeId, a, p, b, q) && p.made < 4
    requires OrderTells(front, p, q) || OrderTells(front, q, p)
    ensures p'.made == p.made + 1
    ensures Racing(Apply(s, Calls(a, id)[p.made]), id, codeId, a, p', b, q)
    ensures OrderTells(front + [Calls(a, id)[p.made]], p', q) && OrderTells(front + [Calls(a, id)[p.made]], q, p')
  {
    p' := After(s, id, p);
    RacerCalls(s, id, codeId, a, p, b, q);
    assert p.made == 0 ==> (s.refresh[id].revoked <==> q.made == 4);
    hide Racing, Apply, LookupsFirst, HasRotated;
    OrderTellsNext(front, Calls(a, id)[p.made], p, q, p');
  }

  /**
   * Two requests present the same live token and every call succeeds. In every interleaving, both
   * new tokens are live at the end if both lookups precede the first rotation, and no token of the
   * exchange is otherwise.
   */
  lemma OverlappingRefreshesLeaveTwoLiveTokensExactlyWhen(s: System, id: string, a: Racer, b: Racer, events: seq<Event>)
    requires Serial(s) && Presented(s, id, a, b) && !s.refresh[id].revoked
    requires CanInsert(s, a.newId, a.secret) && CanInsert(s, b.newId, b.secret)
    requires IsMerge(events, Calls(a, id), Calls(b, id))
    ensures LiveOf(Exec(s, events), s.origin[id]) == if LookupsFirst(events) then {a.newId, b.newId} else {}
    ensures |LiveOf(Exec(s, events), s.origin[id])| == 2 <==> LookupsFirst(events)
  {
    OnlyLiveToken(s, id);
    assert Racing(s, id, s.origin[id], a, Progress(0, true), b, Progress(0, true));
    assert Calls(a, id)[..4] == Calls(a, id) && Calls(b, id)[..4] == Calls(b, id);
    hide Serial, Exec;
    var p, q := RaceStandsSomewhere(s, id, a, b, events, 4, 4);
    hide IsMerge, StandsAt, LookupsFirst, HasRotated, LiveOf, Presented;
  }

  // ---- One request whose calls fail ----

  lemma ExecOfThree(s: System, a: Event, b: Event, c: Event)
    ensures Exec(s, [a, b, c]) == Apply(Apply(Apply(s, a), b), c)
  {
    hide Apply;
    assert [] + [a] == [a] && [a] + [b] == [a, b] && [a, b] + [c] == [a, b, c];
    ExecSnoc(s, [], a);
    ExecSnoc(s, [a], b);
    ExecSnoc(s, [a, b], c);
    Unstarted(s);
    hide Exec;
  }

  lemma SameTablesSameLive(s: System, s': System, codeId: string)
    requires s'.refresh == s.refresh && s'.origin == s.origin
    ensures LiveOf(s', codeId) == LiveOf(s, codeId)
  {
  }

  /** The tables after the request's insert and rotation, each with its outcome. */
  lemma TablesAfterCalls(s: System, id: string, r: Racer, insert: Outcome, rotate: Outcome)
    requires s.inFlight == map[r.req := ToIssueForRefresh(id)] && id in s.refresh && id in s.origin
    requires CanInsert(s, r.newId, r.secret)
    ensures var stored := Insert(s, r.newId, r.secret, s.refresh[id].grant, s.origin[id]);
            var s' := DoRotate(DoInsert(s, InsertRefresh(r.req, r.newId, r.secret, insert)), RotateRefresh(r.req, rotate));
            if insert.FailsUndone? then s'.refresh == s.refresh && s'.origin == s.origin
            else if insert.Succeeds? && !rotate.FailsUndone? then
              s'.refresh == Rotate(stored.refresh, id, r.newId) && s'.origin == stored.origin
            else s'.refresh == stored.refresh && s'.origin == stored.origin
  {
    hide Rotate, IsMinted, LookupOf;
  }

  /** A request alone leaves two live tokens exactly if the new one was stored and the old one not rotated. */
  lemma FailedCallsLeaveTwoLiveTokens(s: System, id: string, r: Racer, insert: Outcome, rotate: Outcome)
    requires Serial(s) && RefreshAccepted(s, r.form, id) && !s.refresh[id].revoked && s.refresh[id].expiresAt >= s.now
    requires CanInsert(s, r.newId, r.secret)
    ensures var events := [FindRefresh(r.req, r.form, Some(id)), InsertRefresh(r.req, r.newId, r.secret, insert),
                           RotateRefresh(r.req, rotate)];
            id in s.origin
            && LiveOf(Exec(s, events), s.origin[id])
               == if insert.FailsUndone? then {id}
                  else if insert.Succeeds? && !rotate.FailsUndone? then {r.newId}
                  else {id, r.newId}
  {
    hide Serial, LookupOf, LiveOf, DoRotate, DoInsert, DoFindRefresh, Insert, Rotate;
    OnlyLiveToken(s, id);
    var codeId, find, store, retire := s.origin[id], FindRefresh(r.req, r.form, Some(id)),
      InsertRefresh(r.req, r.newId, r.secret, insert), RotateRefresh(r.req, rotate);
    var s1 := s.(inFlight := map[r.req := ToIssueForRefresh(id)]);
    FindsLiveToken(s, id, r);
    ExecOfThree(s, find, store, retire);
    TablesAfterCalls(s1, id, r, insert, rotate);
    var stored, done := Insert(s1, r.newId, r.secret, s.refresh[id].grant, codeId), DoRotate(DoInsert(s1, store), retire);
    InsertAddsLive(s1, r.newId, r.secret, s.refresh[id].grant, codeId);
    RotateDropsLive(stored, id, r.newId, codeId);
    SameTablesSameLive(s, s1, codeId);
    hide Exec, CanInsert, IsMinted, RefreshAccepted;
    if insert.FailsUndone? {
      SameTablesSameLive(s1, done, codeId);
    } else if insert.Succeeds? && !rotate.FailsUndone? {
      SameTablesSameLive(stored.(refresh := Rotate(stored.refresh, id, r.newId)), done, codeId);
    } else {
      SameTablesSameLive(stored, done, codeId);
    }
  }

  lemma FindsLiveToken(s: System, id: string, r: Racer)
    requires Serial(s) && RefreshAccepted(s, r.form, id) && !s.refresh[id].revoked && s.refresh[id].expiresAt >= s.now
    requires CanInsert(s, r.newId, r.secret)
    ensures var s1 := s.(inFlight := map[r.req := ToIssueForRefresh(id)]);
            && Apply(s, FindRefresh(r.req, r.form, Some(id))) == s1
            && CanInsert(s1, r.newId, r.secret) && r.newId != id
  {
    hide OAuthInterleavings.Safe, OneLivePair;
  }
}
