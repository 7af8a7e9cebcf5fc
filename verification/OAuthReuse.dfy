/** Reuse of a refresh token while other requests are under way. */
module OAuthReuse {
  import opened OAuthSystem
  import opened OAuthInterleavings
  import opened OAuthSerial

  predicate IsFor(g: Grant, userId: string, clientId: string) {
    g.userId == userId && g.clientId == clientId
  }

  /** The request is past its lookup and will store a token for the grant. */
  predicate WillIssue(s: System, r: Request, userId: string, clientId: string) {
    match r
    case ToConsume(id) => id in s.codes && !s.codes[id].consumed && IsFor(s.codes[id].grant, userId, clientId)
    case ToIssueForCode(id) => id in s.codes && IsFor(s.codes[id].grant, userId, clientId)
    case ToIssueForRefresh(id) => id in s.refresh && IsFor(s.refresh[id].grant, userId, clientId)
    case _ => false
  }

  ghost predicate NoneWillIssue(s: System, userId: string, clientId: string) {
    forall q :: q in s.inFlight ==> !WillIssue(s, s.inFlight[q], userId, clientId)
  }

  /** A lookup that finds a live code of the grant. */
  predicate FindsCodeOf(s: System, e: Event, userId: string, clientId: string) {
    && e.FindCode? && e.hit.Some? && CodeAccepted(s, e.codeForm, e.hit.value)
    && IsFor(s.codes[e.hit.value].grant, userId, clientId)
  }

  ghost predicate NoCodeFound(s: System, more: seq<Event>, userId: string, clientId: string) {
    forall i :: 0 <= i < |more| ==> !FindsCodeOf(Exec(s, more[..i]), more[i], userId, clientId)
  }

  ghost predicate Ended(s: System, userId: string, clientId: string) {
    Safe(s) && GrantDead(s, userId, clientId) && NoneWillIssue(s, userId, clientId)
  }

  // ---- A grant that has ended ----

  ghost predicate StaysEnded(s': System, userId: string, clientId: string) {
    GrantDead(s', userId, clientId) && NoneWillIssue(s', userId, clientId)
  }

  ghost predicate OthersWait(waiting: map<nat, Request>, waiting': map<nat, Request>, req: nat) {
    forall q :: q in waiting' && q != req ==> q in waiting && waiting'[q] == waiting[q]
  }

  ghost predicate CodesStay(codes: map<string, CodeRow>, codes': map<string, CodeRow>) {
    forall id :: id in codes ==>
      id in codes' && codes'[id].grant == codes[id].grant && (codes[id].consumed ==> codes'[id].consumed)
  }

  ghost predicate TokensEnd(refresh: map<string, RefreshRow>, refresh': map<string, RefreshRow>,
                            userId: string, clientId: string) {
    forall id :: id in refresh' && IsFor(refresh'[id].grant, userId, clientId) ==>
      id in refresh && IsFor(refresh[id].grant, userId, clientId) && (refresh[id].revoked ==> refresh'[id].revoked)
  }

  /** A step that leaves the codes and the tokens alone, and lets `req` do something else, or nothing. */
  lemma FlightKeepsEnded(s: System, s': System, req: nat, userId: string, clientId: string)
    requires Ended(s, userId, clientId)
    requires s'.codes == s.codes && s'.refresh == s.refresh
    requires OthersWait(s.inFlight, s'.inFlight, req)
    requires req in s'.inFlight ==> !WillIssue(s', s'.inFlight[req], userId, clientId)
    ensures StaysEnded(s', userId, clientId)
  {
    hide Safe;
  }

  /** A step that at most revokes tokens and adds some of other grants. */
  lemma TokensKeepEnded(s: System, s': System, req: nat, userId: string, clientId: string)
    requires Ended(s, userId, clientId)
    requires s'.codes == s.codes
    requires TokensEnd(s.refresh, s'.refresh, userId, clientId)
    requires OthersWait(s.inFlight, s'.inFlight, req)
    requires req in s'.inFlight ==> !WillIssue(s', s'.inFlight[req], userId, clientId)
    ensures StaysEnded(s', userId, clientId)
  {
    hide Safe;
  }

  /** A step that stores a code under a new id, or marks one consumed. */
  lemma CodesKeepEnded(s: System, s': System, req: nat, userId: string, clientId: string)
    requires Ended(s, userId, clientId)
    requires s'.refresh == s.refresh
    requires CodesStay(s.codes, s'.codes)
    requires OthersWait(s.inFlight, s'.inFlight, req)
    requires req in s'.inFlight ==> !WillIssue(s', s'.inFlight[req], userId, clientId)
    ensures StaysEnded(s', userId, clientId)
  {
    forall q | q in s'.inFlight && q != req ensures !WillIssue(s', s'.inFlight[q], userId, clientId) {
      assert RequestOk(s, q) && !WillIssue(s, s.inFlight[q], userId, clientId);
    }
    hide Safe;
  }

  /** What an ended grant says of one token and one request. */
  lemma EndedAt(s: System, id: string, q: nat, userId: string, clientId: string)
    requires Ended(s, userId, clientId)
    ensures id in s.refresh && IsFor(s.refresh[id].grant, userId, clientId) ==> s.refresh[id].revoked
    ensures q in s.inFlight ==> !WillIssue(s, s.inFlight[q], userId, clientId) && RequestOk(s, q)
  {
    assert RequestOk(s, q);
    hide Safe;
  }

  lemma AuthorizeKeepsEnded(s: System, e: Event, userId: string, clientId: string)
    requires Ended(s, userId, clientId) && e.AuthorizeDecision?
    ensures StaysEnded(DoAuthorize(s, e), userId, clientId)
  {
    hide LookupOf, IsMinted, Ended, StaysEnded;
    var unused := FreeRequest(s);
    CodesKeepEnded(s, DoAuthorize(s, e), unused, userId, clientId);
  }

  lemma FreeRequest(s: System) returns (req: nat)
    ensures req !in s.inFlight
  {
    var top := HighestRequest(s.inFlight.Keys);
    req := top + 1;
  }

  lemma {:induction false} HighestRequest(qs: set<nat>) returns (top: nat)
    ensures forall q :: q in qs ==> q <= top
    decreases |qs|
  {
    if qs == {} {
      top := 0;
    } else {
      var q :| q in qs;
      var rest := HighestRequest(qs - {q});
      top := if q <= rest then rest else q;
      assert forall p :: p in qs ==> p == q || p in qs - {q};
    }
  }

  lemma FindCodeKeepsEnded(s: System, e: Event, userId: string, clientId: string)
    requires Ended(s, userId, clientId) && e.FindCode? && !FindsCodeOf(s, e, userId, clientId)
    ensures StaysEnded(DoFindCode(s, e), userId, clientId)
  {
    hide LookupOf, Ended, StaysEnded;
    EndedAt(s, "", e.req, userId, clientId);
    FlightKeepsEnded(s, DoFindCode(s, e), e.req, userId, clientId);
  }

  lemma FinishLeavesTables(s: System, req: nat)
    ensures Finish(s, req).refresh == s.refresh && Finish(s, req).codes == s.codes
    ensures OthersWait(s.inFlight, Finish(s, req).inFlight, req) && req !in Finish(s, req).inFlight
  {
  }

  lemma ConsumingKeepsCodes(codes: map<string, CodeRow>, id: string)
    ensures CodesStay(codes, codes)
    ensures id in codes ==> CodesStay(codes, codes[id := codes[id].(consumed := true)])
  {
  }

  lemma ConsumeEffect(s: System, e: Event)
    requires e.ConsumeCode?
    ensures var s' := DoConsume(s, e);
            && s'.refresh == s.refresh && OthersWait(s.inFlight, s'.inFlight, e.req) && CodesStay(s.codes, s'.codes)
            && (e.req !in s'.inFlight
                || (e.req in s.inFlight && s'.inFlight[e.req] == s.inFlight[e.req])
                || exists id :: id in s.codes && !s.codes[id].consumed && e.req in s.inFlight
                                && s.inFlight[e.req] == ToConsume(id) && s'.inFlight[e.req] == ToIssueForCode(id))
  {
    hide Finish, CodesStay, OthersWait;
    ConsumingKeepsCodes(s.codes, "");
    OneMoves(s.inFlight, e.req, ToRevoke("", ""));
    if e.req in s.inFlight && s.inFlight[e.req].ToConsume? {
      var id := s.inFlight[e.req].codeId;
      ConsumingKeepsCodes(s.codes, id);
      FinishLeavesTables(s, e.req);
      if id in s.codes && !s.codes[id].consumed {
        FinishLeavesTables(s.(codes := s.codes[id := s.codes[id].(consumed := true)]), e.req);
        OneMoves(s.inFlight, e.req, ToIssueForCode(id));
      }
    }
  }

  lemma ConsumeKeepsEnded(s: System, e: Event, userId: string, clientId: string)
    requires Ended(s, userId, clientId) && e.ConsumeCode?
    ensures StaysEnded(DoConsume(s, e), userId, clientId)
  {
    ConsumeEffect(s, e);
    hide Ended, StaysEnded, DoConsume, OthersWait;
    EndedAt(s, "", e.req, userId, clientId);
    CodesKeepEnded(s, DoConsume(s, e), e.req, userId, clientId);
  }

  lemma FindRefreshEffect(s: System, e: Event)
    requires e.FindRefresh?
    ensures var s' := DoFindRefresh(s, e);
            && s'.codes == s.codes && s'.refresh == s.refresh && OthersWait(s.inFlight, s'.inFlight, e.req)
            && (e.req in s'.inFlight ==>
                  || (e.req in s.inFlight && s'.inFlight[e.req] == s.inFlight[e.req])
                  || s'.inFlight[e.req].ToRevoke?
                  || exists id :: id in s.refresh && !s.refresh[id].revoked && s'.inFlight[e.req] == ToIssueForRefresh(id))
  {
    hide RefreshAccepted, OthersWait;
    OneMoves(s.inFlight, e.req, ToRevoke("", ""));
    if e.req !in s.inFlight && e.hit.Some? && RefreshAccepted(s, e.refreshForm, e.hit.value) {
      TakesAStoredToken(s, e.refreshForm, e.hit.value);
      var id := e.hit.value;
      OneMoves(s.inFlight, e.req, ToRevoke(s.refresh[id].grant.userId, s.refresh[id].grant.clientId));
      OneMoves(s.inFlight, e.req, ToIssueForRefresh(id));
    }
  }

  lemma OneMoves(waiting: map<nat, Request>, req: nat, r: Request)
    ensures OthersWait(waiting, waiting, req) && OthersWait(waiting, waiting[req := r], req)
  {
  }

  lemma TakesAStoredToken(s: System, form: RefreshForm, id: string)
    ensures RefreshAccepted(s, form, id) ==> id in s.refresh
  {
    hide LookupOf;
  }

  lemma FindRefreshKeepsEnded(s: System, e: Event, userId: string, clientId: string)
    requires Ended(s, userId, clientId) && e.FindRefresh?
    ensures StaysEnded(DoFindRefresh(s, e), userId, clientId)
  {
    FindRefreshEffect(s, e);
    hide Ended, StaysEnded, DoFindRefresh, OthersWait;
    EndedAt(s, if e.hit.Some? then e.hit.value else "", e.req, userId, clientId);
    forall id ensures id in s.refresh && IsFor(s.refresh[id].grant, userId, clientId) ==> s.refresh[id].revoked {
      EndedAt(s, id, e.req, userId, clientId);
    }
    FlightKeepsEnded(s, DoFindRefresh(s, e), e.req, userId, clientId);
  }

  lemma RotatingRevokes(refresh: map<string, RefreshRow>, id: string, newId: string, userId: string, clientId: string)
    ensures TokensEnd(refresh, Rotate(refresh, id, newId), userId, clientId)
    ensures TokensEnd(refresh, refresh, userId, clientId)
  {
  }

  lemma RevokingRevokes(refresh: map<string, RefreshRow>, u: string, c: string, userId: string, clientId: string)
    ensures TokensEnd(refresh, RevokeAll(refresh, u, c), userId, clientId)
    ensures TokensEnd(refresh, refresh, userId, clientId)
  {
  }

  lemma RotateKeepsEnded(s: System, e: Event, userId: string, clientId: string)
    requires Ended(s, userId, clientId) && e.RotateRefresh?
    ensures StaysEnded(DoRotate(s, e), userId, clientId)
  {
    EndedAt(s, "", e.req, userId, clientId);
    hide Ended, StaysEnded, Finish, Rotate, TokensEnd;
    if e.req in s.inFlight && s.inFlight[e.req].ToRotate? {
      var r := s.inFlight[e.req];
      var s1 := s.(refresh := Rotate(s.refresh, r.oldId, r.newId));
      RotatingRevokes(s.refresh, r.oldId, r.newId, userId, clientId);
      FinishLeavesTables(s, e.req);
      FinishLeavesTables(s1, e.req);
      hide OthersWait;
      TokensKeepEnded(s, DoRotate(s, e), e.req, userId, clientId);
    } else {
      StillEnded(s, userId, clientId);
    }
  }

  lemma StillEnded(s: System, userId: string, clientId: string)
    requires Ended(s, userId, clientId)
    ensures StaysEnded(s, userId, clientId)
  {
    hide Safe;
  }

  lemma RevokeKeepsEnded(s: System, e: Event, userId: string, clientId: string)
    requires Ended(s, userId, clientId) && e.RevokeGrant?
    ensures StaysEnded(DoRevoke(s, e), userId, clientId)
  {
    EndedAt(s, "", e.req, userId, clientId);
    hide Ended, StaysEnded, Finish, RevokeAll, TokensEnd;
    if e.req in s.inFlight && s.inFlight[e.req].ToRevoke? {
      var r := s.inFlight[e.req];
      var s1 := s.(refresh := RevokeAll(s.refresh, r.userId, r.clientId));
      RevokingRevokes(s.refresh, r.userId, r.clientId, userId, clientId);
      FinishLeavesTables(s, e.req);
      FinishLeavesTables(s1, e.req);
      hide OthersWait;
      TokensKeepEnded(s, DoRevoke(s, e), e.req, userId, clientId);
    } else {
      StillEnded(s, userId, clientId);
    }
  }

  /** What an insert does: at most one token of the waiting grant is added, and the request moves on. */
  ghost predicate InsertsFor(s: System, s': System, req: nat, grant: Grant, newId: string) {
    && s'.codes == s.codes && OthersWait(s.inFlight, s'.inFlight, req)
    && (req in s'.inFlight ==> s'.inFlight[req].ToRotate? || (req in s.inFlight && s'.inFlight[req] == s.inFlight[req]))
    && (s'.refresh == s.refresh
        || (s'.refresh.Keys == s.refresh.Keys + {newId} && s'.refresh[newId].grant == grant
            && forall id :: id in s.refresh && id != newId ==> s'.refresh[id] == s.refresh[id]))
  }

  lemma InsertRow(s: System, newId: string, secret: string, grant: Grant, codeId: string)
    ensures var s' := Insert(s, newId, secret, grant, codeId);
            && s'.codes == s.codes && s'.inFlight == s.inFlight
            && s'.refresh.Keys == s.refresh.Keys + {newId} && s'.refresh[newId].grant == grant
            && forall id :: id in s.refresh && id != newId ==> s'.refresh[id] == s.refresh[id]
  {
    hide LookupOf;
  }

  lemma InsertForCodeEffect(s: System, e: Event, codeId: string)
    requires e.InsertRefresh? && CanInsert(s, e.newId, e.secret)
    requires e.req in s.inFlight && s.inFlight[e.req] == ToIssueForCode(codeId) && codeId in s.codes
    ensures InsertsFor(s, DoInsert(s, e), e.req, s.codes[codeId].grant, e.newId)
  {
    hide Finish, Insert, CanInsert;
    InsertRow(s, e.newId, e.secret, s.codes[codeId].grant, codeId);
    FinishLeavesTables(s, e.req);
    var s1 := Insert(s, e.newId, e.secret, s.codes[codeId].grant, codeId);
    FinishLeavesTables(s1.(exchanges := s.exchanges + [codeId]), e.req);
  }

  lemma InsertForRefreshEffect(s: System, e: Event, oldId: string)
    requires e.InsertRefresh? && CanInsert(s, e.newId, e.secret)
    requires e.req in s.inFlight && s.inFlight[e.req] == ToIssueForRefresh(oldId) && oldId in s.refresh
    ensures InsertsFor(s, DoInsert(s, e), e.req, s.refresh[oldId].grant, e.newId)
  {
    hide Finish, Insert, CanInsert;
    if oldId in s.origin {
      InsertRow(s, e.newId, e.secret, s.refresh[oldId].grant, s.origin[oldId]);
      FinishLeavesTables(s, e.req);
      FinishLeavesTables(Insert(s, e.newId, e.secret, s.refresh[oldId].grant, s.origin[oldId]), e.req);
    }
  }

  lemma InsertForOther(s: System, s': System, req: nat, grant: Grant, newId: string, userId: string, clientId: string)
    requires Ended(s, userId, clientId) && InsertsFor(s, s', req, grant, newId) && !IsFor(grant, userId, clientId)
    ensures StaysEnded(s', userId, clientId)
  {
    EndedAt(s, newId, req, userId, clientId);
    hide Ended, StaysEnded;
    assert TokensEnd(s.refresh, s'.refresh, userId, clientId);
    TokensKeepEnded(s, s', req, userId, clientId);
  }

  lemma InsertKeepsEnded(s: System, e: Event, userId: string, clientId: string)
    requires Ended(s, userId, clientId) && e.InsertRefresh?
    ensures StaysEnded(DoInsert(s, e), userId, clientId)
  {
    EndedAt(s, "", e.req, userId, clientId);
    assert StaysEnded(s, userId, clientId);
    hide Ended, StaysEnded, CanInsert, InsertsFor;
    if e.req in s.inFlight && CanInsert(s, e.newId, e.secret) {
      match s.inFlight[e.req]
      case ToIssueForCode(codeId) =>
        if codeId in s.codes {
          InsertForCodeEffect(s, e, codeId);
          hide DoInsert;
          InsertForOther(s, DoInsert(s, e), e.req, s.codes[codeId].grant, e.newId, userId, clientId);
        }
      case ToIssueForRefresh(oldId) =>
        if oldId in s.refresh {
          InsertForRefreshEffect(s, e, oldId);
          hide DoInsert;
          InsertForOther(s, DoInsert(s, e), e.req, s.refresh[oldId].grant, e.newId, userId, clientId);
        }
      case _ =>
    }
  }

  lemma OtherCallsKeepEnded(s: System, e: Event, userId: string, clientId: string)
    requires Ended(s, userId, clientId) && (e.Disconnect? || e.Tick?)
    ensures StaysEnded(Apply(s, e), userId, clientId)
  {
    hide Ended, StaysEnded;
    var unused := FreeRequest(s);
    TokensKeepEnded(s, Apply(s, e), unused, userId, clientId);
  }

  lemma CallKeepsEnded(s: System, e: Event, userId: string, clientId: string)
    requires Ended(s, userId, clientId) && !FindsCodeOf(s, e, userId, clientId)
    ensures Ended(Apply(s, e), userId, clientId)
  {
    ApplyIsGood(s, e);
    SafeAfter(s, Apply(s, e));
    hide Safe, GrantDead, NoneWillIssue, DoAuthorize, DoFindCode, DoConsume, DoFindRefresh, DoInsert, DoRotate, DoRevoke;
    match e
    case AuthorizeDecision(_, _, _, _, _) => AuthorizeKeepsEnded(s, e, userId, clientId);
    case FindCode(_, _, _) => FindCodeKeepsEnded(s, e, userId, clientId);
    case ConsumeCode(_, _) => ConsumeKeepsEnded(s, e, userId, clientId);
    case FindRefresh(_, _, _) => FindRefreshKeepsEnded(s, e, userId, clientId);
    case InsertRefresh(_, _, _, _) => InsertKeepsEnded(s, e, userId, clientId);
    case RotateRefresh(_, _) => RotateKeepsEnded(s, e, userId, clientId);
    case RevokeGrant(_, _) => RevokeKeepsEnded(s, e, userId, clientId);
    case _ => OtherCallsKeepEnded(s, e, userId, clientId);
  }

  lemma {:induction false} EndedStaysThrough(s: System, more: seq<Event>, userId: string, clientId: string)
    requires Ended(s, userId, clientId) && NoCodeFound(s, more, userId, clientId)
    ensures Ended(Exec(s, more), userId, clientId)
  {
    hide Ended, FindsCodeOf, Apply;
    if more == [] {
    } else {
      var n := |more| - 1;
      assert forall i :: 0 <= i < n ==> more[..n][..i] == more[..i];
      EndedStaysThrough(s, more[..n], userId, clientId);
      CallKeepsEnded(Exec(s, more[..n]), more[n], userId, clientId);
    }
  }

  // ---- A request under way brings the grant back ----

  /** The calls by which a request that will issue a token does so. */
  function IssuingCalls(q: nat, r: Request, newId: string, secret: string): seq<Event> {
    if r.ToConsume? then [ConsumeCode(q, Succeeds), InsertRefresh(q, newId, secret, Succeeds)]
    else [InsertRefresh(q, newId, secret, Succeeds)]
  }

  lemma IssuingRevives(s: System, q: nat, userId: string, clientId: string, newId: string, secret: string)
    requires Safe(s) && q in s.inFlight && WillIssue(s, s.inFlight[q], userId, clientId) && CanInsert(s, newId, secret)
    ensures var more := IssuingCalls(q, s.inFlight[q], newId, secret);
            !GrantDead(Exec(s, more), userId, clientId) && NoCodeFound(s, more, userId, clientId)
  {
    hide Safe, GrantDead, NoCodeFound, DoInsert, CanInsert, Exec, WillIssue, DoConsume;
    var r, insert := s.inFlight[q], InsertRefresh(q, newId, secret, Succeeds);
    if r.ToIssueForRefresh? {
      TokenHasOrigin(s, r.oldId);
    }
    NoLookups(s, IssuingCalls(q, r, newId, secret), userId, clientId);
    if r.ToConsume? {
      var consume := ConsumeCode(q, Succeeds);
      ExecTwo(s, consume, insert);
      Consumes(s, q, userId, clientId);
      CanStillInsert(s, DoConsume(s, consume), newId, secret);
      Revives(DoConsume(s, consume), q, userId, clientId, newId, secret);
    } else {
      ExecTwo(s, insert, insert);
      Revives(s, q, userId, clientId, newId, secret);
    }
  }

  lemma TokenHasOrigin(s: System, id: string)
    requires Safe(s)
    ensures id in s.refresh ==> id in s.origin
  {
    assert RefreshOk(s, id);
    hide Safe, IsMinted, LookupOf;
  }

  lemma NoLookups(s: System, more: seq<Event>, userId: string, clientId: string)
    requires forall i :: 0 <= i < |more| ==> !more[i].FindCode?
    ensures NoCodeFound(s, more, userId, clientId)
  {
  }

  lemma ExecTwo(s: System, a: Event, b: Event)
    ensures Exec(s, [a]) == Apply(s, a) && Exec(s, [a, b]) == Apply(Apply(s, a), b)
  {
    hide Apply;
    assert [a][..0] == [] && [a, b][..1] == [a];
  }

  lemma Consumes(s: System, q: nat, userId: string, clientId: string)
    requires q in s.inFlight && s.inFlight[q].ToConsume? && WillIssue(s, s.inFlight[q], userId, clientId)
    ensures var s' := DoConsume(s, ConsumeCode(q, Succeeds));
            && q in s'.inFlight && s'.inFlight[q].ToIssueForCode? && WillIssue(s', s'.inFlight[q], userId, clientId)
            && s'.refresh == s.refresh && s'.birth == s.birth && s'.minted == s.minted
  {
  }

  lemma Revives(s: System, q: nat, userId: string, clientId: string, newId: string, secret: string)
    requires q in s.inFlight && !s.inFlight[q].ToConsume? && WillIssue(s, s.inFlight[q], userId, clientId)
    requires s.inFlight[q].ToIssueForRefresh? && s.inFlight[q].oldId in s.refresh ==> s.inFlight[q].oldId in s.origin
    requires CanInsert(s, newId, secret)
    ensures !GrantDead(DoInsert(s, InsertRefresh(q, newId, secret, Succeeds)), userId, clientId)
  {
    hide LookupOf, IsMinted;
    var s' := DoInsert(s, InsertRefresh(q, newId, secret, Succeeds));
    assert newId in s'.refresh && !s'.refresh[newId].revoked && IsFor(s'.refresh[newId].grant, userId, clientId);
  }

  /**
   * A dead grant stays dead, whatever else runs, until one of its codes is found again, exactly if
   * no request is past its lookup and about to store a token for it.
   */
  lemma DeadGrantStaysDeadExactlyWhen(s: System, userId: string, clientId: string, newId: string, secret: string)
    requires Safe(s) && GrantDead(s, userId, clientId) && CanInsert(s, newId, secret)
    ensures (forall more :: NoCodeFound(s, more, userId, clientId) ==> GrantDead(Exec(s, more), userId, clientId))
       <==> NoneWillIssue(s, userId, clientId)
  {
    hide Safe, CanInsert, WillIssue, FindsCodeOf;
    if NoneWillIssue(s, userId, clientId) {
      forall more | NoCodeFound(s, more, userId, clientId) ensures GrantDead(Exec(s, more), userId, clientId) {
        EndedStaysThrough(s, more, userId, clientId);
      }
    } else {
      var q :| q in s.inFlight && WillIssue(s, s.inFlight[q], userId, clientId);
      hide GrantDead, NoCodeFound;
      IssuingRevives(s, q, userId, clientId, newId, secret);
    }
  }

  lemma ReachedIsSafe(events: seq<Event>, e: Event)
    ensures Safe(Apply(Exec(INITIAL, events), e))
  {
    hide Safe, GoodStep, Exec, Apply;
    InitialIsSafe();
    ExecIsGood(INITIAL, events);
    SafeAfter(INITIAL, Exec(INITIAL, events));
    ApplyIsGood(Exec(INITIAL, events), e);
    SafeAfter(Exec(INITIAL, events), Apply(Exec(INITIAL, events), e));
  }

  lemma RevokingKills(s: System, q: nat, outcome: Outcome, userId: string, clientId: string, newId: string, secret: string)
    requires q in s.inFlight && s.inFlight[q] == ToRevoke(userId, clientId) && CanInsert(s, newId, secret)
    ensures var s' := Apply(s, RevokeGrant(q, outcome));
            && CanInsert(s', newId, secret)
            && if outcome.FailsUndone? then s'.refresh == s.refresh else GrantDead(s', userId, clientId)
  {
    hide LookupOf, IsMinted;
  }

  /**
   * Over every interleaving: the call that answers a presented revoked token kills its grant unless
   * it fails without effect, and for good exactly if no other request is then past its lookup and
   * about to store a token for the grant.
   */
  lemma ReuseEndsTheGrantExactlyWhen(events: seq<Event>, q: nat, outcome: Outcome, userId: string, clientId: string,
                                     newId: string, secret: string)
    requires q in Exec(INITIAL, events).inFlight && Exec(INITIAL, events).inFlight[q] == ToRevoke(userId, clientId)
    requires CanInsert(Exec(INITIAL, events), newId, secret)
    ensures var s := Apply(Exec(INITIAL, events), RevokeGrant(q, outcome));
            if outcome.FailsUndone? then s.refresh == Exec(INITIAL, events).refresh
            else
              && GrantDead(s, userId, clientId)
              && ((forall more :: NoCodeFound(s, more, userId, clientId) ==> GrantDead(Exec(s, more), userId, clientId))
                  <==> NoneWillIssue(s, userId, clientId))
  {
    hide Safe, Exec, GrantDead, CanInsert, Apply;
    var s0, e := Exec(INITIAL, events), RevokeGrant(q, outcome);
    ReachedIsSafe(events, e);
    RevokingKills(s0, q, outcome, userId, clientId, newId, secret);
    if !outcome.FailsUndone? {
      DeadGrantStaysDeadExactlyWhen(Apply(s0, e), userId, clientId, newId, secret);
    }
  }
}
