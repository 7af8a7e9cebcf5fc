/**
 * Token requests that run one at a time, with database calls that succeed: one live refresh
 * token per code exchange, and a reused token ends the whole grant.
 */
module OAuthSerial {
  import opened Seqs
  import opened OAuthSystem
  import opened OAuthInterleavings

  /** A whole request. `hit` is the row its lookup yields; ids and secrets are freshly generated. */
  datatype Call =
    | Authorize(codeId: string, codeSecret: string, grant: Grant, redirectUri: string, challenge: string)
    | Exchange(codeForm: CodeForm, hit: Option<string>, newId: string, secret: string)
    | Refresh(refreshForm: RefreshForm, hit: Option<string>, newId: string, secret: string)
    | Revoke(userId: string, clientId: string)
    | Wait(seconds: nat)

  /** The request's database calls, in order; those its branch does not reach have no effect. */
  function EventsOf(call: Call): seq<Event> {
    match call
    case Authorize(codeId, secret, grant, uri, challenge) => [AuthorizeDecision(codeId, secret, grant, uri, challenge)]
    case Exchange(form, hit, newId, secret) =>
      [FindCode(0, form, hit), ConsumeCode(0, Succeeds), InsertRefresh(0, newId, secret, Succeeds)]
    case Refresh(form, hit, newId, secret) =>
      [FindRefresh(0, form, hit), RevokeGrant(0, Succeeds), InsertRefresh(0, newId, secret, Succeeds),
       RotateRefresh(0, Succeeds)]
    case Revoke(userId, clientId) => [Disconnect(userId, clientId)]
    case Wait(seconds) => [Tick(seconds)]
  }

  predicate Mints(s: System, call: Call) {
    (call.Exchange? || call.Refresh?) ==> CanInsert(s, call.newId, call.secret)
  }

  function ServeExchange(s: System, call: Call): System
    requires call.Exchange?
  {
    var s1 := DoFindCode(s, FindCode(0, call.codeForm, call.hit));
    var s2 := DoConsume(s1, ConsumeCode(0, Succeeds));
    DoInsert(s2, InsertRefresh(0, call.newId, call.secret, Succeeds))
  }

  function ServeRefresh(s: System, call: Call): System
    requires call.Refresh?
  {
    var s1 := DoFindRefresh(s, FindRefresh(0, call.refreshForm, call.hit));
    var s2 := DoRevoke(s1, RevokeGrant(0, Succeeds));
    var s3 := DoInsert(s2, InsertRefresh(0, call.newId, call.secret, Succeeds));
    DoRotate(s3, RotateRefresh(0, Succeeds))
  }

  function Serve(s: System, call: Call): System {
    if !Mints(s, call) then s
    else
      match call
      case Authorize(codeId, secret, grant, uri, challenge) =>
        DoAuthorize(s, AuthorizeDecision(codeId, secret, grant, uri, challenge))
      case Exchange(_, _, _, _) => ServeExchange(s, call)
      case Refresh(_, _, _, _) => ServeRefresh(s, call)
      case Revoke(userId, clientId) => s.(refresh := RevokeAll(s.refresh, userId, clientId))
      case Wait(seconds) => s.(now := s.now + seconds)
  }

  function ServeAll(s: System, calls: seq<Call>): System
    decreases calls
  {
    if calls == [] then s else ServeAll(Serve(s, calls[0]), calls[1..])
  }

  lemma ExecSnoc(s: System, events: seq<Event>, e: Event)
    ensures Exec(s, events + [e]) == Apply(Exec(s, events), e)
  {
    hide Apply;
    assert (events + [e])[..|events|] == events;
  }

  /** Serving a request is the interleaving in which it runs alone. */
  lemma ServeIsAnInterleaving(s: System, call: Call)
    ensures Serve(s, call) == if Mints(s, call) then Exec(s, EventsOf(call)) else s
  {
    hide DoAuthorize, DoFindCode, DoConsume, DoInsert, DoFindRefresh, DoRevoke, DoRotate, RevokeAll, Exec, Mints;
    var e := EventsOf(call);
    Unstarted(s);
    assert e[..0] == [] && [] + [e[0]] == e[..1];
    ExecSnoc(s, [], e[0]);
    if |e| >= 3 {
      assert e[..1] + [e[1]] == e[..2] && e[..2] + [e[2]] == e[..3];
      ExecSnoc(s, e[..1], e[1]);
      ExecSnoc(s, e[..2], e[2]);
    }
    if |e| == 4 {
      assert e[..3] + [e[3]] == e;
      ExecSnoc(s, e[..3], e[3]);
    }
    assert e[..|e|] == e;
  }

  lemma Unstarted(s: System)
    ensures Exec(s, []) == s
  {
  }

  // ---- What one call does ----

  predicate Accepted(s: System, call: Call) {
    && (call.Exchange? ==> call.hit.Some? && CodeAccepted(s, call.codeForm, call.hit.value))
    && (call.Refresh? ==> call.hit.Some? && RefreshAccepted(s, call.refreshForm, call.hit.value))
  }

  function ConsumedBy(s: System, id: string): System
    requires id in s.codes
  {
    s.(codes := s.codes[id := s.codes[id].(consumed := true)], claim := s.claim[id := 0])
  }

  lemma ExchangeConsumes(s: System, form: CodeForm, id: string)
    requires s.inFlight == map[] && CodeAccepted(s, form, id)
    ensures DoConsume(DoFindCode(s, FindCode(0, form, Some(id))), ConsumeCode(0, Succeeds))
         == ConsumedBy(s, id).(inFlight := map[0 := ToIssueForCode(id)])
  {
    assert DoFindCode(s, FindCode(0, form, Some(id))) == s.(inFlight := map[0 := ToConsume(id)]);
    assert map[0 := ToConsume(id)][0 := ToIssueForCode(id)] == map[0 := ToIssueForCode(id)];
  }

  lemma IssueForCode(s: System, id: string, newId: string, secret: string)
    requires s.inFlight == map[0 := ToIssueForCode(id)] && id in s.codes && CanInsert(s, newId, secret)
    ensures DoInsert(s, InsertRefresh(0, newId, secret, Succeeds))
         == Insert(s, newId, secret, s.codes[id].grant, id).(exchanges := s.exchanges + [id], inFlight := map[])
  {
    assert s.inFlight - {0} == map[];
  }

  /** A served exchange consumes the code and stores one token for it; a rejected one changes nothing. */
  lemma ExchangeResult(s: System, call: Call)
    requires s.inFlight == map[] && call.Exchange? && Mints(s, call)
    ensures Accepted(s, call) ==>
              var id := call.hit.value;
              id in s.codes
              && Serve(s, call) == Insert(ConsumedBy(s, id), call.newId, call.secret, s.codes[id].grant, id)
                                   .(exchanges := s.exchanges + [id])
    ensures !Accepted(s, call) ==> Serve(s, call) == s
  {
    if Accepted(s, call) {
      var id := call.hit.value;
      ExchangeConsumes(s, call.codeForm, id);
      var s2 := ConsumedBy(s, id).(inFlight := map[0 := ToIssueForCode(id)]);
      assert CanInsert(s2, call.newId, call.secret);
      hide DoInsert, DoConsume, DoFindCode, CanInsert, NewRefresh;
      IssueForCode(s2, id, call.newId, call.secret);
    }
  }

  lemma RefreshRevokes(s: System, call: Call)
    requires s.inFlight == map[] && call.Refresh? && Mints(s, call) && Accepted(s, call)
    requires s.refresh[call.hit.value].revoked
    ensures var grant := s.refresh[call.hit.value].grant;
            Serve(s, call) == s.(refresh := RevokeAll(s.refresh, grant.userId, grant.clientId))
  {
    hide RevokeAll, CanInsert;
    var grant := s.refresh[call.hit.value].grant;
    var s1 := s.(inFlight := map[0 := ToRevoke(grant.userId, grant.clientId)]);
    assert DoFindRefresh(s, FindRefresh(0, call.refreshForm, call.hit)) == s1;
    assert s1.inFlight - {0} == map[];
    assert DoRevoke(s1, RevokeGrant(0, Succeeds)) == s.(refresh := RevokeAll(s.refresh, grant.userId, grant.clientId));
  }

  /** The new token is stored for the old one's grant, and the old one is revoked and points at it. */
  function Rotated(s: System, oldId: string, newId: string, secret: string): System
    requires oldId in s.refresh && oldId in s.origin
  {
    var s1 := Insert(s, newId, secret, s.refresh[oldId].grant, s.origin[oldId]);
    s1.(refresh := Rotate(s1.refresh, oldId, newId))
  }

  lemma IssueForRefresh(s: System, id: string, newId: string, secret: string)
    requires s.inFlight == map[0 := ToIssueForRefresh(id)] && id in s.refresh && id in s.origin
    requires CanInsert(s, newId, secret)
    ensures DoInsert(s, InsertRefresh(0, newId, secret, Succeeds))
         == Insert(s, newId, secret, s.refresh[id].grant, s.origin[id]).(inFlight := map[0 := ToRotate(id, newId)])
  {
    assert s.inFlight[0 := ToRotate(id, newId)] == map[0 := ToRotate(id, newId)];
  }

  lemma RefreshWaits(s: System, call: Call)
    requires s.inFlight == map[] && call.Refresh? && Accepted(s, call)
    requires var row := s.refresh[call.hit.value]; !row.revoked && row.expiresAt >= s.now
    ensures var s1 := s.(inFlight := map[0 := ToIssueForRefresh(call.hit.value)]);
            && DoFindRefresh(s, FindRefresh(0, call.refreshForm, call.hit)) == s1
            && DoRevoke(s1, RevokeGrant(0, Succeeds)) == s1
  {
  }

  lemma RotateLast(s: System, id: string, newId: string)
    requires s.inFlight == map[0 := ToRotate(id, newId)]
    ensures DoRotate(s, RotateRefresh(0, Succeeds)) == s.(refresh := Rotate(s.refresh, id, newId), inFlight := map[])
  {
    hide Rotate;
    assert s.inFlight - {0} == map[];
  }

  lemma RefreshRotates(s: System, call: Call)
    requires s.inFlight == map[] && call.Refresh? && Mints(s, call) && Accepted(s, call)
    requires var row := s.refresh[call.hit.value]; !row.revoked && row.expiresAt >= s.now
    requires call.hit.value in s.origin
    ensures Serve(s, call) == Rotated(s, call.hit.value, call.newId, call.secret)
  {
    hide DoFindRefresh, DoRevoke, DoInsert, DoRotate, Rotate, IsMinted, LookupOf;
    var id := call.hit.value;
    RefreshWaits(s, call);
    var s1 := s.(inFlight := map[0 := ToIssueForRefresh(id)]);
    assert id in s.refresh && CanInsert(s1, call.newId, call.secret);
    hide RefreshAccepted, CanInsert;
    IssueForRefresh(s1, id, call.newId, call.secret);
    var s3 := Insert(s, call.newId, call.secret, s.refresh[id].grant, s.origin[id])
              .(inFlight := map[0 := ToRotate(id, call.newId)]);
    RotateLast(s3, id, call.newId);
  }

  lemma RefreshRejected(s: System, call: Call)
    requires s.inFlight == map[] && call.Refresh?
    requires !Accepted(s, call)
             || (!s.refresh[call.hit.value].revoked && s.refresh[call.hit.value].expiresAt < s.now)
    ensures Serve(s, call) == s
  {
    assert DoFindRefresh(s, FindRefresh(0, call.refreshForm, call.hit)) == s;
  }

  // ---- What every call keeps ----

  ghost predicate OneLivePair(s: System, a: string, b: string) {
    a in s.refresh && b in s.refresh && !s.refresh[a].revoked && !s.refresh[b].revoked
    && a in s.origin && b in s.origin && s.origin[a] == s.origin[b]
    ==> a == b
  }

  /** At most one refresh token of each code exchange is unrevoked, and no request is half done. */
  ghost predicate Serial(s: System) {
    && Safe(s) && s.inFlight == map[]
    && forall a, b :: OneLivePair(s, a, b)
  }

  lemma OneLiveAfterExchange(s: System, id: string, newId: string, secret: string, a: string, b: string)
    requires Serial(s) && CanInsert(s, newId, secret) && id in s.codes && !s.codes[id].consumed
    ensures var s' := Insert(ConsumedBy(s, id), newId, secret, s.codes[id].grant, id);
            OneLivePair(s'.(exchanges := s.exchanges + [id]), a, b)
  {
    hide IsMinted, LookupOf;
    assert OneLivePair(s, a, b);
    assert ExchangeOk(s, id);
    assert RefreshOk(s, a) && RefreshOk(s, b);
  }

  lemma OneLiveAfterRotation(s: System, oldId: string, newId: string, secret: string, a: string, b: string)
    requires Serial(s) && CanInsert(s, newId, secret)
    requires oldId in s.refresh && oldId in s.origin && !s.refresh[oldId].revoked
    ensures OneLivePair(Rotated(s, oldId, newId, secret), a, b)
  {
    hide IsMinted, LookupOf, Safe;
    assert OneLivePair(s, a, b);
    assert OneLivePair(s, a, oldId) && OneLivePair(s, oldId, b);
  }

  lemma ServeIsSafe(s: System, call: Call)
    requires Serial(s)
    ensures GoodStep(s, Serve(s, call)) && Serve(s, call).inFlight == map[]
  {
    ServeIsAnInterleaving(s, call);
    ExecIsGood(s, EventsOf(call));
    StayingIsGood(s);
    ServeFinishes(s, call);
  }

  lemma ServeFinishes(s: System, call: Call)
    requires Serial(s)
    ensures Serve(s, call).inFlight == map[]
  {
    hide IsMinted, LookupOf, RevokeAll, Rotate, NewRefresh, CanInsert;
    if Mints(s, call) {
      if call.Exchange? {
        ExchangeResult(s, call);
      } else if call.Refresh? {
        if Accepted(s, call) {
          assert RefreshOk(s, call.hit.value);
          if s.refresh[call.hit.value].revoked {
            RefreshRevokes(s, call);
          } else if s.refresh[call.hit.value].expiresAt >= s.now {
            RefreshRotates(s, call);
          } else {
            RefreshRejected(s, call);
          }
        } else {
          RefreshRejected(s, call);
        }
      }
    }
  }

  lemma ServeKeepsOneLive(s: System, call: Call, a: string, b: string)
    requires Serial(s) && Mints(s, call)
    ensures OneLivePair(Serve(s, call), a, b)
  {
    hide IsMinted, LookupOf, Rotate, NewRefresh, CanInsert, Safe;
    assert OneLivePair(s, a, b);
    match call
    case Exchange(_, _, _, _) =>
      ExchangeResult(s, call);
      if Accepted(s, call) {
        OneLiveAfterExchange(s, call.hit.value, call.newId, call.secret, a, b);
      }
    case Refresh(_, _, _, _) =>
      if Accepted(s, call) {
        RefreshRowsAreTraced(s, call.hit.value);
        if s.refresh[call.hit.value].revoked {
          RefreshRevokes(s, call);
        } else if s.refresh[call.hit.value].expiresAt >= s.now {
          RefreshRotates(s, call);
          OneLiveAfterRotation(s, call.hit.value, call.newId, call.secret, a, b);
        } else {
          RefreshRejected(s, call);
        }
      } else {
        RefreshRejected(s, call);
      }
    case _ =>
  }

  lemma RefreshRowsAreTraced(s: System, id: string)
    requires Safe(s) && id in s.refresh
    ensures id in s.origin
  {
    assert RefreshOk(s, id);
  }

  lemma ServeKeepsSerial(s: System, call: Call)
    requires Serial(s)
    ensures Serial(Serve(s, call))
  {
    ServeIsSafe(s, call);
    forall a, b ensures OneLivePair(Serve(s, call), a, b) {
      assert OneLivePair(s, a, b);
      if Mints(s, call) {
        ServeKeepsOneLive(s, call, a, b);
      }
    }
  }

  lemma {:induction false} ServeAllKeepsSerial(s: System, calls: seq<Call>)
    requires Serial(s)
    ensures Serial(ServeAll(s, calls))
    decreases calls
  {
    hide Serial, Serve;
    if calls == [] {
    } else {
      ServeKeepsSerial(s, calls[0]);
      ServeAllKeepsSerial(Serve(s, calls[0]), calls[1..]);
    }
  }

  /** Requests served one at a time leave each code exchange at most one unrevoked refresh token. */
  lemma OneLiveTokenPerExchange(calls: seq<Call>, a: string, b: string)
    requires var s := ServeAll(INITIAL, calls);
             && a in s.refresh && b in s.refresh && a in s.origin && b in s.origin && s.origin[a] == s.origin[b]
             && !s.refresh[a].revoked && !s.refresh[b].revoked
    ensures a == b
  {
    InitialIsSafe();
    ServeAllKeepsSerial(INITIAL, calls);
    assert OneLivePair(ServeAll(INITIAL, calls), a, b);
  }

  // ---- Reuse detection ----

  /** No token of the grant is usable. */
  ghost predicate GrantDead(s: System, userId: string, clientId: string) {
    forall id :: id in s.refresh && s.refresh[id].grant.userId == userId && s.refresh[id].grant.clientId == clientId
      ==> s.refresh[id].revoked
  }

  /** The call exchanges a code that the user granted to the client. */
  predicate ExchangesFor(s: System, call: Call, userId: string, clientId: string) {
    && call.Exchange? && Accepted(s, call)
    && s.codes[call.hit.value].grant.userId == userId && s.codes[call.hit.value].grant.clientId == clientId
  }

  ghost predicate NeverExchangesFor(s: System, calls: seq<Call>, userId: string, clientId: string)
    decreases calls
  {
    calls == []
    || (!ExchangesFor(s, calls[0], userId, clientId)
        && NeverExchangesFor(Serve(s, calls[0]), calls[1..], userId, clientId))
  }

  lemma DeadAfterRotation(s: System, oldId: string, newId: string, secret: string, userId: string, clientId: string)
    requires GrantDead(s, userId, clientId) && oldId in s.refresh && oldId in s.origin && !s.refresh[oldId].revoked
    ensures GrantDead(Rotated(s, oldId, newId, secret), userId, clientId)
  {
  }

  lemma DeadGrantStaysDead(s: System, call: Call, userId: string, clientId: string)
    requires Serial(s) && GrantDead(s, userId, clientId) && !ExchangesFor(s, call, userId, clientId)
    ensures GrantDead(Serve(s, call), userId, clientId)
  {
    hide CanInsert, Safe, CodeAccepted, RefreshAccepted;
    if Mints(s, call) {
      match call
      case Exchange(_, _, _, _) =>
        ExchangeResult(s, call);
      case Refresh(_, _, _, _) =>
        DeadGrantRefreshed(s, call, userId, clientId);
      case _ =>
    }
  }

  lemma DeadGrantRefreshed(s: System, call: Call, userId: string, clientId: string)
    requires Serial(s) && GrantDead(s, userId, clientId) && call.Refresh? && Mints(s, call)
    ensures GrantDead(Serve(s, call), userId, clientId)
  {
    hide CanInsert, Safe, Serve, Rotated;
    if Accepted(s, call) {
      RefreshRowsAreTraced(s, call.hit.value);
      if s.refresh[call.hit.value].revoked {
        RefreshRevokes(s, call);
      } else if s.refresh[call.hit.value].expiresAt >= s.now {
        RefreshRotates(s, call);
        DeadAfterRotation(s, call.hit.value, call.newId, call.secret, userId, clientId);
      } else {
        RefreshRejected(s, call);
      }
    } else {
      RefreshRejected(s, call);
    }
  }

  lemma {:induction false} DeadGrantStaysDeadThrough(s: System, calls: seq<Call>, userId: string, clientId: string)
    requires Serial(s) && GrantDead(s, userId, clientId) && NeverExchangesFor(s, calls, userId, clientId)
    ensures GrantDead(ServeAll(s, calls), userId, clientId)
    decreases calls
  {
    hide Serial, Serve, GrantDead, ExchangesFor;
    if calls == [] {
    } else {
      ServeKeepsSerial(s, calls[0]);
      DeadGrantStaysDead(s, calls[0], userId, clientId);
      DeadGrantStaysDeadThrough(Serve(s, calls[0]), calls[1..], userId, clientId);
    }
  }

  /**
   * Presenting a revoked token, with a client id that matches or none, leaves its grant without
   * a usable token until the user's code for that client is exchanged anew.
   */
  lemma ReuseEndsTheGrant(before: seq<Call>, call: Call, after: seq<Call>)
    requires var s := ServeAll(INITIAL, before);
             && call.Refresh? && Mints(s, call) && Accepted(s, call) && s.refresh[call.hit.value].revoked
             && var grant := s.refresh[call.hit.value].grant;
                NeverExchangesFor(Serve(s, call), after, grant.userId, grant.clientId)
    ensures var s := ServeAll(INITIAL, before);
            var grant := s.refresh[call.hit.value].grant;
            GrantDead(ServeAll(Serve(s, call), after), grant.userId, grant.clientId)
  {
    var s := ServeAll(INITIAL, before);
    InitialIsSafe();
    ServeAllKeepsSerial(INITIAL, before);
    RefreshRevokes(s, call);
    ServeKeepsSerial(s, call);
    var grant := s.refresh[call.hit.value].grant;
    DeadGrantStaysDeadThrough(Serve(s, call), after, grant.userId, grant.clientId);
  }
}
