/** Safety of the grant store over every interleaving of token requests, failures included. */
module OAuthInterleavings {
  import opened Seqs
  import opened OAuthSystem

  // ---- The invariant ----

  /** A stored code is found under the key its own token has, and no other row holds that token. */
  ghost predicate CodeOk(s: System, id: string) {
    id in s.codes ==>
      var row := s.codes[id];
      && IsMinted(AC_PREFIX, row.secret) && row.prefix == LookupOf(AC_PREFIX, row.secret)
      && row.secret in s.minted && s.minted[row.secret] == id
  }

  /** A refresh row stems from one exchanged code that granted the same, and rotates only forward. */
  ghost predicate RefreshOk(s: System, id: string) {
    id in s.refresh ==>
      var row := s.refresh[id];
      && IsMinted(RT_PREFIX, row.secret) && row.prefix == LookupOf(RT_PREFIX, row.secret)
      && row.secret in s.minted && s.minted[row.secret] == id
      && id in s.origin && id in s.birth && s.birth[id] < |s.birth|
      && s.origin[id] in s.exchanges && s.origin[id] in s.codes && s.codes[s.origin[id]].grant == row.grant
      && (row.rotatedTo.Some? ==>
            && row.revoked && row.rotatedTo.value in s.refresh && row.rotatedTo.value in s.birth
            && s.birth[id] < s.birth[row.rotatedTo.value])
  }

  /** A code is exchanged at most once, and only after it was consumed. */
  ghost predicate ExchangeOk(s: System, codeId: string) {
    && multiset(s.exchanges)[codeId] <= 1
    && (codeId in s.exchanges ==> codeId in s.codes && s.codes[codeId].consumed)
  }

  ghost predicate RequestOk(s: System, q: nat) {
    q in s.inFlight ==>
      match s.inFlight[q]
      case ToConsume(c) => c in s.codes
      case ToIssueForCode(c) =>
        c in s.codes && s.codes[c].consumed && c !in s.exchanges && c in s.claim && s.claim[c] == q
      case ToIssueForRefresh(id) => id in s.refresh
      case ToRotate(id, newId) =>
        id in s.refresh && newId in s.refresh && id in s.birth && newId in s.birth && s.birth[id] < s.birth[newId]
      case _ => true
  }

  ghost predicate Safe(s: System) {
    && (forall id :: CodeOk(s, id))
    && (forall id :: RefreshOk(s, id))
    && (forall c :: ExchangeOk(s, c))
    && (forall q :: RequestOk(s, q))
    && s.birth.Keys == s.refresh.Keys
  }

  // ---- Rows only move forward ----

  /** Consumed stays consumed; nothing else about a code changes. */
  ghost predicate CodeOnward(s: System, s': System, id: string) {
    id in s.codes ==>
      && id in s'.codes && (s.codes[id].consumed ==> s'.codes[id].consumed)
      && s'.codes[id] == s.codes[id].(consumed := s'.codes[id].consumed)
  }

  /** Revocation and rotation are never undone; nothing else about a refresh token changes. */
  ghost predicate RefreshOnward(s: System, s': System, id: string) {
    id in s.refresh ==>
      && id in s'.refresh
      && (s.refresh[id].revoked ==> s'.refresh[id] == s.refresh[id])
      && s'.refresh[id] == s.refresh[id].(revoked := s'.refresh[id].revoked, rotatedTo := s'.refresh[id].rotatedTo)
      && id in s.origin && id in s'.origin && s'.origin[id] == s.origin[id]
  }

  ghost predicate Onward(s: System, s': System) {
    && s.now <= s'.now && s.exchanges <= s'.exchanges
    && (forall id :: CodeOnward(s, s', id))
    && (forall id :: RefreshOnward(s, s', id))
  }

  // ---- Each step keeps the invariant and moves onward ----

  /** A step is good when it keeps the invariant and only moves rows forward. */
  ghost predicate GoodStep(s: System, s': System) {
    Safe(s') && Onward(s, s')
  }

  lemma StayingIsGood(s: System)
    requires Safe(s)
    ensures GoodStep(s, s)
  {
    forall id ensures RefreshOnward(s, s, id) {
      assert RefreshOk(s, id);
    }
  }

  lemma GoodStepsCompose(a: System, b: System, c: System)
    requires GoodStep(a, b) && GoodStep(b, c)
    ensures GoodStep(a, c)
  {
    hide Safe;
    forall id ensures CodeOnward(a, c, id) {
      assert CodeOnward(a, b, id) && CodeOnward(b, c, id);
    }
    forall id ensures RefreshOnward(a, c, id) {
      assert RefreshOnward(a, b, id) && RefreshOnward(b, c, id);
    }
  }

  /** At the row `id` and the request `q` a step keeps what the invariant says and moves onward. */
  ghost predicate KeptAt(s: System, s': System, id: string, q: nat) {
    && (CodeOk(s, id) ==> CodeOk(s', id) && CodeOnward(s, s', id))
    && (RefreshOk(s, id) ==> RefreshOk(s', id) && RefreshOnward(s, s', id))
    && (ExchangeOk(s, id) ==> ExchangeOk(s', id))
    && (RequestOk(s, q) ==> RequestOk(s', q))
  }

  lemma RowsKeptIsGood(s: System, s': System)
    requires Safe(s) && forall id, q :: KeptAt(s, s', id, q)
    requires s'.birth.Keys == s'.refresh.Keys && s.now <= s'.now && s.exchanges <= s'.exchanges
    ensures GoodStep(s, s')
  {
    hide CodeOk, RefreshOk, ExchangeOk, RequestOk, CodeOnward, RefreshOnward;
    forall id ensures CodeOk(s', id) && CodeOnward(s, s', id) && RefreshOk(s', id) && RefreshOnward(s, s', id)
                      && ExchangeOk(s', id) {
      assert CodeOk(s, id) && RefreshOk(s, id) && ExchangeOk(s, id) && KeptAt(s, s', id, 0);
    }
    forall q ensures RequestOk(s', q) {
      assert RequestOk(s, q) && KeptAt(s, s', "", q);
    }
  }

  lemma SameRowsAreKept(s: System, s': System, id: string)
    requires s'.codes == s.codes && s'.refresh == s.refresh && s'.minted == s.minted && s'.exchanges == s.exchanges
    requires s'.origin == s.origin && s'.birth == s.birth
    ensures CodeOk(s, id) ==> CodeOk(s', id) && CodeOnward(s, s', id)
    ensures RefreshOk(s, id) ==> RefreshOk(s', id) && RefreshOnward(s, s', id)
    ensures ExchangeOk(s, id) ==> ExchangeOk(s', id)
  {
    hide IsMinted, LookupOf;
  }

  lemma OtherRequestsAreKept(s: System, s': System, req: nat, q: nat)
    requires s'.codes == s.codes && s'.refresh == s.refresh && s'.exchanges == s.exchanges
    requires s'.birth == s.birth && s'.claim == s.claim
    requires q != req && q in s'.inFlight ==> q in s.inFlight && s'.inFlight[q] == s.inFlight[q]
    requires RequestOk(s', req)
    ensures RequestOk(s, q) ==> RequestOk(s', q)
  {
  }

  /** A step that only lets `req` do something else, or nothing. */
  lemma MovingOneIsGood(s: System, req: nat, waiting: map<nat, Request>)
    requires Safe(s) && RequestOk(s.(inFlight := waiting), req)
    requires forall q :: q in waiting && q != req ==> q in s.inFlight && waiting[q] == s.inFlight[q]
    ensures GoodStep(s, s.(inFlight := waiting))
  {
    var s' := s.(inFlight := waiting);
    assert s.birth.Keys == s.refresh.Keys;
    hide Safe, CodeOk, RefreshOk, ExchangeOk, RequestOk, CodeOnward, RefreshOnward;
    forall id, q ensures KeptAt(s, s', id, q) {
      SameRowsAreKept(s, s', id);
      OtherRequestsAreKept(s, s', req, q);
    }
    RowsKeptIsGood(s, s');
  }

  lemma FinishIsGood(s: System, req: nat)
    requires Safe(s)
    ensures GoodStep(s, Finish(s, req))
  {
    hide GoodStep, Safe;
    MovingOneIsGood(s, req, s.inFlight - {req});
  }

  lemma WaitingIsGood(s: System, req: nat, r: Request)
    requires Safe(s)
    requires RequestOk(s.(inFlight := s.inFlight[req := r]), req)
    ensures GoodStep(s, s.(inFlight := s.inFlight[req := r]))
  {
    hide GoodStep, Safe, RequestOk;
    MovingOneIsGood(s, req, s.inFlight[req := r]);
  }

  lemma StoringCodeIsGood(s: System, codeId: string, row: CodeRow)
    requires Safe(s) && codeId !in s.codes && row.secret !in s.minted
    requires IsMinted(AC_PREFIX, row.secret) && row.prefix == LookupOf(AC_PREFIX, row.secret)
    ensures GoodStep(s, s.(codes := s.codes[codeId := row], minted := s.minted[row.secret := codeId]))
  {
    hide IsMinted, LookupOf;
    assert s.birth.Keys == s.refresh.Keys;
    var s' := s.(codes := s.codes[codeId := row], minted := s.minted[row.secret := codeId]);
    hide Safe;
    forall id, q ensures KeptAt(s, s', id, q) {
    }
    RowsKeptIsGood(s, s');
  }

  lemma AuthorizeIsGood(s: System, e: Event)
    requires e.AuthorizeDecision? && Safe(s)
    ensures GoodStep(s, DoAuthorize(s, e))
  {
    hide GoodStep, Safe, IsMinted, LookupOf;
    StayingIsGood(s);
    if e.codeId !in s.codes && IsMinted(AC_PREFIX, e.secret) && e.secret !in s.minted {
      StoringCodeIsGood(s, e.codeId, CodeRow(LookupOf(AC_PREFIX, e.secret), e.secret, e.grant, e.redirectUri,
                                             e.challenge, s.now + CODE_TTL_SECS, false));
    }
  }

  lemma ConsumingIsGood(s: System, id: string)
    requires Safe(s) && id in s.codes
    ensures GoodStep(s, s.(codes := s.codes[id := s.codes[id].(consumed := true)]))
  {
    hide IsMinted, LookupOf;
    assert s.birth.Keys == s.refresh.Keys;
    var s' := s.(codes := s.codes[id := s.codes[id].(consumed := true)]);
    hide Safe;
    forall id, q ensures KeptAt(s, s', id, q) {
    }
    RowsKeptIsGood(s, s');
  }

  lemma ClaimingIsGood(s: System, id: string, req: nat)
    requires Safe(s) && id in s.codes && !s.codes[id].consumed
    ensures GoodStep(s, s.(codes := s.codes[id := s.codes[id].(consumed := true)], claim := s.claim[id := req],
                          inFlight := s.inFlight[req := ToIssueForCode(id)]))
  {
    assert s.birth.Keys == s.refresh.Keys;
    var s1 := s.(codes := s.codes[id := s.codes[id].(consumed := true)]);
    var s' := s1.(claim := s.claim[id := req], inFlight := s.inFlight[req := ToIssueForCode(id)]);
    assert ExchangeOk(s, id);
    hide Safe, CodeOk, RefreshOk, ExchangeOk, RequestOk, CodeOnward, RefreshOnward;
    forall other, q ensures KeptAt(s, s', other, q) {
      ConsumingKeepsRows(s, id, other);
      SameRowsAreKept(s1, s', other);
      OnwardThen(s, s1, s', other);
      ClaimingKeepsRequests(s, s', id, req, q);
    }
    RowsKeptIsGood(s, s');
  }

  lemma ConsumingKeepsRows(s: System, id: string, other: string)
    requires id in s.codes
    ensures var s' := s.(codes := s.codes[id := s.codes[id].(consumed := true)]);
            && (CodeOk(s, other) ==> CodeOk(s', other) && CodeOnward(s, s', other))
            && (RefreshOk(s, other) ==> RefreshOk(s', other) && RefreshOnward(s, s', other))
            && (ExchangeOk(s, other) ==> ExchangeOk(s', other))
  {
    hide IsMinted, LookupOf;
  }

  lemma OnwardThen(a: System, b: System, c: System, id: string)
    ensures CodeOnward(a, b, id) && CodeOnward(b, c, id) ==> CodeOnward(a, c, id)
    ensures RefreshOnward(a, b, id) && RefreshOnward(b, c, id) ==> RefreshOnward(a, c, id)
  {
  }

  lemma ClaimingKeepsRequests(s: System, s': System, id: string, req: nat, q: nat)
    requires id in s.codes && !s.codes[id].consumed && ExchangeOk(s, id)
    requires s'.codes == s.codes[id := s.codes[id].(consumed := true)] && s'.claim == s.claim[id := req]
    requires s'.inFlight == s.inFlight[req := ToIssueForCode(id)]
    requires s'.exchanges == s.exchanges && s'.refresh == s.refresh && s'.birth == s.birth
    ensures RequestOk(s, q) ==> RequestOk(s', q)
  {
  }

  lemma RevokingIsGood(s: System, userId: string, clientId: string)
    requires Safe(s)
    ensures GoodStep(s, s.(refresh := RevokeAll(s.refresh, userId, clientId)))
  {
    hide IsMinted, LookupOf;
    assert s.birth.Keys == s.refresh.Keys;
    var s' := s.(refresh := RevokeAll(s.refresh, userId, clientId));
    hide Safe;
    forall id, q ensures KeptAt(s, s', id, q) {
    }
    RowsKeptIsGood(s, s');
  }

  lemma RotatingIsGood(s: System, id: string, newId: string)
    requires Safe(s) && id in s.birth && newId in s.birth && s.birth[id] < s.birth[newId]
    ensures GoodStep(s, s.(refresh := Rotate(s.refresh, id, newId)))
  {
    hide IsMinted, LookupOf;
    assert s.birth.Keys == s.refresh.Keys;
    var s' := s.(refresh := Rotate(s.refresh, id, newId));
    hide Safe;
    forall id, q ensures KeptAt(s, s', id, q) {
    }
    RowsKeptIsGood(s, s');
  }

  lemma InsertingIsGood(s: System, newId: string, secret: string, grant: Grant, codeId: string)
    requires Safe(s) && CanInsert(s, newId, secret)
    requires codeId in s.exchanges && codeId in s.codes && s.codes[codeId].grant == grant
    ensures GoodStep(s, Insert(s, newId, secret, grant, codeId))
  {
    assert s.birth.Keys == s.refresh.Keys;
    var s' := Insert(s, newId, secret, grant, codeId);
    hide Safe, CodeOk, RefreshOk, ExchangeOk, RequestOk, CodeOnward, RefreshOnward, IsMinted, LookupOf;
    forall id, q ensures KeptAt(s, s', id, q) {
      InsertingKeepsRow(s, newId, secret, grant, codeId, id);
      InsertingKeepsRest(s, newId, secret, grant, codeId, id, q);
    }
    RowsKeptIsGood(s, s');
  }

  lemma InsertingKeepsRow(s: System, newId: string, secret: string, grant: Grant, codeId: string, id: string)
    requires CanInsert(s, newId, secret) && s.birth.Keys == s.refresh.Keys
    requires codeId in s.exchanges && codeId in s.codes && s.codes[codeId].grant == grant
    ensures var s' := Insert(s, newId, secret, grant, codeId);
            RefreshOk(s, id) ==> RefreshOk(s', id) && RefreshOnward(s, s', id)
  {
    hide IsMinted, LookupOf;
  }

  lemma InsertingKeepsRest(s: System, newId: string, secret: string, grant: Grant, codeId: string, id: string, q: nat)
    requires CanInsert(s, newId, secret)
    ensures var s' := Insert(s, newId, secret, grant, codeId);
            && (CodeOk(s, id) ==> CodeOk(s', id) && CodeOnward(s, s', id))
            && (ExchangeOk(s, id) ==> ExchangeOk(s', id)) && (RequestOk(s, q) ==> RequestOk(s', q))
  {
    hide IsMinted, LookupOf, NewRefresh;
  }

  lemma ExchangingIsGood(s: System, req: nat, codeId: string)
    requires Safe(s) && req in s.inFlight && s.inFlight[req] == ToIssueForCode(codeId)
    ensures GoodStep(s, Finish(s.(exchanges := s.exchanges + [codeId]), req))
  {
    hide IsMinted, LookupOf;
    assert s.birth.Keys == s.refresh.Keys;
    var s' := Finish(s.(exchanges := s.exchanges + [codeId]), req);
    assert RequestOk(s, req);
    assert forall c :: multiset(s.exchanges + [codeId])[c] == multiset(s.exchanges)[c] + if c == codeId then 1 else 0;
    hide Safe;
    forall id, q ensures KeptAt(s, s', id, q) {
    }
    RowsKeptIsGood(s, s');
  }

  lemma TickIsGood(s: System, seconds: nat)
    requires Safe(s)
    ensures GoodStep(s, s.(now := s.now + seconds))
  {
    hide IsMinted, LookupOf;
    assert s.birth.Keys == s.refresh.Keys;
    var s' := s.(now := s.now + seconds);
    hide Safe;
    forall id, q ensures KeptAt(s, s', id, q) {
    }
    RowsKeptIsGood(s, s');
  }

  lemma FindCodeIsGood(s: System, e: Event)
    requires e.FindCode? && Safe(s)
    ensures GoodStep(s, DoFindCode(s, e))
  {
    hide GoodStep, Safe;
    StayingIsGood(s);
    if e.req !in s.inFlight && e.hit.Some? && CodeAccepted(s, e.codeForm, e.hit.value) {
      WaitingIsGood(s, e.req, ToConsume(e.hit.value));
    }
  }

  lemma FindRefreshIsGood(s: System, e: Event)
    requires e.FindRefresh? && Safe(s)
    ensures GoodStep(s, DoFindRefresh(s, e))
  {
    hide GoodStep, Safe;
    StayingIsGood(s);
    if e.req !in s.inFlight && e.hit.Some? && RefreshAccepted(s, e.refreshForm, e.hit.value) {
      var grant := s.refresh[e.hit.value].grant;
      WaitingIsGood(s, e.req, ToRevoke(grant.userId, grant.clientId));
      WaitingIsGood(s, e.req, ToIssueForRefresh(e.hit.value));
    }
  }

  lemma ConsumeIsGood(s: System, e: Event)
    requires e.ConsumeCode? && Safe(s)
    ensures GoodStep(s, DoConsume(s, e))
  {
    hide GoodStep, Safe;
    StayingIsGood(s);
    if e.req in s.inFlight && s.inFlight[e.req].ToConsume? {
      var id := s.inFlight[e.req].codeId;
      FinishIsGood(s, e.req);
      if id in s.codes && !s.codes[id].consumed {
        ClaimingIsGood(s, id, e.req);
        ConsumingIsGood(s, id);
        var s1 := s.(codes := s.codes[id := s.codes[id].(consumed := true)]);
        SafeAfter(s, s1);
        FinishIsGood(s1, e.req);
        GoodStepsCompose(s, s1, Finish(s1, e.req));
      }
    }
  }

  lemma SafeAfter(s: System, s': System)
    requires GoodStep(s, s')
    ensures Safe(s')
  {
  }

  lemma RotateIsGood(s: System, e: Event)
    requires e.RotateRefresh? && Safe(s)
    ensures GoodStep(s, DoRotate(s, e))
  {
    assert RequestOk(s, e.req);
    hide GoodStep, Safe, Rotate;
    StayingIsGood(s);
    if e.req in s.inFlight && s.inFlight[e.req].ToRotate? {
      var r := s.inFlight[e.req];
      FinishIsGood(s, e.req);
      RotatingIsGood(s, r.oldId, r.newId);
      var s1 := s.(refresh := Rotate(s.refresh, r.oldId, r.newId));
      SafeAfter(s, s1);
      FinishIsGood(s1, e.req);
      GoodStepsCompose(s, s1, Finish(s1, e.req));
    }
  }

  lemma RevokeIsGood(s: System, e: Event)
    requires e.RevokeGrant? && Safe(s)
    ensures GoodStep(s, DoRevoke(s, e))
  {
    hide GoodStep, Safe, RevokeAll;
    StayingIsGood(s);
    if e.req in s.inFlight && s.inFlight[e.req].ToRevoke? {
      var r := s.inFlight[e.req];
      FinishIsGood(s, e.req);
      RevokingIsGood(s, r.userId, r.clientId);
      var s1 := s.(refresh := RevokeAll(s.refresh, r.userId, r.clientId));
      SafeAfter(s, s1);
      FinishIsGood(s1, e.req);
      GoodStepsCompose(s, s1, Finish(s1, e.req));
    }
  }

  lemma InsertForCodeIsGood(s: System, req: nat, codeId: string, newId: string, secret: string)
    requires Safe(s) && req in s.inFlight && s.inFlight[req] == ToIssueForCode(codeId) && CanInsert(s, newId, secret)
    requires codeId in s.codes
    ensures var s' := Insert(s, newId, secret, s.codes[codeId].grant, codeId);
            GoodStep(s, Finish(s'.(exchanges := s.exchanges + [codeId]), req))
  {
    hide GoodStep, Safe, CanInsert, NewRefresh;
    ExchangingIsGood(s, req, codeId);
    var s1, grant := Finish(s.(exchanges := s.exchanges + [codeId]), req), s.codes[codeId].grant;
    SafeAfter(s, s1);
    CanStillInsert(s, s1, newId, secret);
    InsertingIsGood(s1, newId, secret, grant, codeId);
    GoodStepsCompose(s, s1, Insert(s1, newId, secret, grant, codeId));
    InsertCommutes(s, s1, newId, secret, grant, codeId, req);
  }

  lemma CanStillInsert(s: System, s1: System, newId: string, secret: string)
    requires CanInsert(s, newId, secret)
    requires s1.refresh == s.refresh && s1.birth == s.birth && s1.minted == s.minted
    ensures CanInsert(s1, newId, secret)
  {
  }

  lemma InsertCommutes(s: System, s1: System, newId: string, secret: string, grant: Grant, codeId: string, req: nat)
    requires s1 == Finish(s.(exchanges := s.exchanges + [codeId]), req)
    ensures Insert(s1, newId, secret, grant, codeId)
         == Finish(Insert(s, newId, secret, grant, codeId).(exchanges := s.exchanges + [codeId]), req)
  {
  }

  lemma InsertForRefreshIsGood(s: System, req: nat, oldId: string, newId: string, secret: string)
    requires Safe(s) && oldId in s.refresh && oldId in s.origin && CanInsert(s, newId, secret)
    ensures var s' := Insert(s, newId, secret, s.refresh[oldId].grant, s.origin[oldId]);
            && GoodStep(s, s'.(inFlight := s.inFlight[req := ToRotate(oldId, newId)]))
            && GoodStep(s, Finish(s', req))
  {
    assert RefreshOk(s, oldId);
    hide GoodStep, Safe, NewRefresh;
    var s' := Insert(s, newId, secret, s.refresh[oldId].grant, s.origin[oldId]);
    InsertingIsGood(s, newId, secret, s.refresh[oldId].grant, s.origin[oldId]);
    SafeAfter(s, s');
    FinishIsGood(s', req);
    GoodStepsCompose(s, s', Finish(s', req));
    WaitingIsGood(s', req, ToRotate(oldId, newId));
    GoodStepsCompose(s, s', s'.(inFlight := s'.inFlight[req := ToRotate(oldId, newId)]));
  }

  lemma InsertIsGood(s: System, e: Event)
    requires e.InsertRefresh? && Safe(s)
    ensures GoodStep(s, DoInsert(s, e))
  {
    hide GoodStep, Safe, CanInsert, Insert;
    StayingIsGood(s);
    FinishIsGood(s, e.req);
    if e.req in s.inFlight && CanInsert(s, e.newId, e.secret) {
      match s.inFlight[e.req]
      case ToIssueForCode(codeId) =>
        if codeId in s.codes {
          InsertForCodeIsGood(s, e.req, codeId, e.newId, e.secret);
        }
      case ToIssueForRefresh(oldId) =>
        if oldId in s.refresh && oldId in s.origin {
          InsertForRefreshIsGood(s, e.req, oldId, e.newId, e.secret);
        }
      case _ =>
    }
  }

  lemma ApplyIsGood(s: System, e: Event)
    requires Safe(s)
    ensures GoodStep(s, Apply(s, e))
  {
    hide GoodStep, Safe, DoAuthorize, DoFindCode, DoConsume, DoFindRefresh, DoInsert, DoRotate, DoRevoke, RevokeAll;
    match e
    case AuthorizeDecision(_, _, _, _, _) => AuthorizeIsGood(s, e);
    case FindCode(_, _, _) => FindCodeIsGood(s, e);
    case ConsumeCode(_, _) => ConsumeIsGood(s, e);
    case FindRefresh(_, _, _) => FindRefreshIsGood(s, e);
    case InsertRefresh(_, _, _, _) => InsertIsGood(s, e);
    case RotateRefresh(_, _) => RotateIsGood(s, e);
    case RevokeGrant(_, _) => RevokeIsGood(s, e);
    case Disconnect(userId, clientId) => RevokingIsGood(s, userId, clientId);
    case Tick(seconds) => TickIsGood(s, seconds);
  }

  lemma {:induction false} ExecIsGood(s: System, events: seq<Event>)
    requires Safe(s)
    ensures GoodStep(s, Exec(s, events))
  {
    hide GoodStep, Safe, Apply;
    if events == [] {
      StayingIsGood(s);
    } else {
      var n := |events| - 1;
      var t := Exec(s, events[..n]);
      ExecIsGood(s, events[..n]);
      SafeAfter(s, t);
      ApplyIsGood(t, events[n]);
      GoodStepsCompose(s, t, Exec(s, events));
    }
  }

  lemma InitialIsSafe()
    ensures Safe(INITIAL)
  {
  }

  // ---- The results ----

  /** Over every interleaving, a code is exchanged at most once, and only after being consumed. */
  lemma CodesAreSingleUse(events: seq<Event>, codeId: string)
    ensures var s := Exec(INITIAL, events);
            && multiset(s.exchanges)[codeId] <= 1
            && (codeId in s.exchanges ==> codeId in s.codes && s.codes[codeId].consumed)
  {
    InitialIsSafe();
    ExecIsGood(INITIAL, events);
    assert ExchangeOk(Exec(INITIAL, events), codeId);
  }

  /** Every refresh token traces to one consumed, exchanged code with the same user, client, scope and resource. */
  lemma RefreshTokensTraceToCodes(events: seq<Event>, id: string)
    requires id in Exec(INITIAL, events).refresh
    ensures var s := Exec(INITIAL, events);
            && id in s.origin
            && s.origin[id] in s.codes && s.codes[s.origin[id]].consumed
            && s.codes[s.origin[id]].grant == s.refresh[id].grant
            && multiset(s.exchanges)[s.origin[id]] == 1
  {
    InitialIsSafe();
    ExecIsGood(INITIAL, events);
    var s := Exec(INITIAL, events);
    assert RefreshOk(s, id) && ExchangeOk(s, s.origin[id]);
  }

  /** Revocation, consumption and rotation are never undone, whatever happens next. */
  lemma RevocationIsFinal(events: seq<Event>, more: seq<Event>, id: string)
    requires id in Exec(INITIAL, events).refresh && Exec(INITIAL, events).refresh[id].revoked
    ensures var s, s' := Exec(INITIAL, events), Exec(INITIAL, events + more);
            id in s'.refresh && s'.refresh[id] == s.refresh[id]
  {
    InitialIsSafe();
    ExecIsGood(INITIAL, events);
    ExecIsGood(Exec(INITIAL, events), more);
    ExecAppend(INITIAL, events, more);
    assert RefreshOnward(Exec(INITIAL, events), Exec(INITIAL, events + more), id);
  }

  lemma {:induction false} ExecAppend(s: System, events: seq<Event>, more: seq<Event>)
    ensures Exec(s, events + more) == Exec(Exec(s, events), more)
  {
    hide Apply;
    if more == [] {
      assert events + more == events;
    } else {
      var n := |more| - 1;
      assert (events + more)[..|events + more| - 1] == events + more[..n];
      ExecAppend(s, events, more[..n]);
    }
  }

  /** A chain of tokens, each rotated into the next. */
  ghost predicate RotationChain(s: System, chain: seq<string>) {
    && (forall i :: 0 <= i < |chain| ==> chain[i] in s.refresh)
    && forall i :: 0 <= i < |chain| - 1 ==> s.refresh[chain[i]].rotatedTo == Some(chain[i + 1])
  }

  lemma {:induction false} ChainsAscend(s: System, chain: seq<string>, i: nat, j: nat)
    requires Safe(s) && RotationChain(s, chain) && i < j < |chain|
    ensures chain[i] in s.birth && chain[j] in s.birth && s.birth[chain[i]] < s.birth[chain[j]]
    decreases j
  {
    assert RefreshOk(s, chain[j - 1]);
    assert s.refresh[chain[j - 1]].rotatedTo == Some(chain[j - 1 + 1]);
    if i < j - 1 {
      ChainsAscend(s, chain, i, j - 1);
    }
  }

  /** `rotated_to` links never form a cycle. */
  lemma RotationIsAcyclic(events: seq<Event>, chain: seq<string>, i: nat, j: nat)
    requires RotationChain(Exec(INITIAL, events), chain) && i < j < |chain|
    ensures chain[i] != chain[j]
  {
    InitialIsSafe();
    ExecIsGood(INITIAL, events);
    ChainsAscend(Exec(INITIAL, events), chain, i, j);
  }

  /** The lookup by prefix finds exactly the row that holds a presented code, and at most one. */
  lemma LookupIsExact(events: seq<Event>, code: string, id: string)
    ensures var s := Exec(INITIAL, events);
            CodeMatches(s, id, code)
            <==> id in s.codes && s.codes[id].secret == code && !s.codes[id].consumed && s.codes[id].expiresAt > s.now
    ensures var s := Exec(INITIAL, events);
            CodeMatches(s, id, code) ==> forall other :: CodeMatches(s, other, code) ==> other == id
    ensures var s := Exec(INITIAL, events);
            RefreshMatches(s, id, code) <==> id in s.refresh && s.refresh[id].secret == code
    ensures var s := Exec(INITIAL, events);
            RefreshMatches(s, id, code) ==> forall other :: RefreshMatches(s, other, code) ==> other == id
  {
    InitialIsSafe();
    ExecIsGood(INITIAL, events);
    hide IsMinted, LookupOf, Apply;
    var s := Exec(INITIAL, events);
    assert CodeOk(s, id) && RefreshOk(s, id);
    forall other | CodeMatches(s, other, code) && CodeMatches(s, id, code) ensures other == id {
      assert CodeOk(s, other);
    }
    forall other | RefreshMatches(s, other, code) && RefreshMatches(s, id, code) ensures other == id {
      assert RefreshOk(s, other);
    }
  }
}
