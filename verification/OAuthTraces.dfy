/** What was said before a refresh token came to be, over every interleaving. */
module OAuthTraces {
  import opened Seqs
  import opened OAuthSystem
  import opened OAuthInterleavings

  // ---- Consent and presentation ----

  /** The user's decision that stored the code, with what the code row says. */
  predicate Consents(e: Event, codeId: string, row: CodeRow) {
    && e.AuthorizeDecision? && e.codeId == codeId
    && row.secret == e.secret && row.grant == e.grant && row.redirectUri == e.redirectUri && row.challenge == e.challenge
  }

  /** A request that presented the code to the client and URI it was for, with a verifier that fits its challenge. */
  predicate Redeems(e: Event, consent: Event)
    requires consent.AuthorizeDecision?
  {
    && e.FindCode? && e.codeForm.code == Some(consent.secret)
    && e.codeForm.challenge == Some(consent.challenge) && e.codeForm.redirectUri == Some(consent.redirectUri)
    && e.codeForm.clientId == Some(consent.grant.clientId)
  }

  /** The code was stored by a consent; it lives for sixty seconds from then on. */
  ghost predicate Consented(events: seq<Event>, codeId: string, row: CodeRow) {
    exists i :: 0 <= i < |events| && Consents(events[i], codeId, row)
                && row.expiresAt == Exec(INITIAL, events[..i]).now + 60
  }

  /** ... and was then presented in time. */
  ghost predicate Presented(events: seq<Event>, codeId: string, row: CodeRow) {
    exists i, j :: 0 <= i < j < |events| && Consents(events[i], codeId, row) && Redeems(events[j], events[i])
                   && Exec(INITIAL, events[..j]).now < Exec(INITIAL, events[..i]).now + 60
  }

  lemma ConsentStays(events: seq<Event>, e: Event, codeId: string, row: CodeRow, row': CodeRow)
    requires row' == row.(consumed := row'.consumed) && Consented(events, codeId, row)
    ensures Consented(events + [e], codeId, row')
  {
    hide Exec, Consents;
    SameConsents(codeId, row, row');
    var more := events + [e];
    var i :| 0 <= i < |events| && Consents(events[i], codeId, row) && row.expiresAt == Exec(INITIAL, events[..i]).now + 60;
    assert more[i] == events[i] && more[..i] == events[..i];
  }

  lemma PresentationStays(events: seq<Event>, e: Event, codeId: string, row: CodeRow, row': CodeRow)
    requires row' == row.(consumed := row'.consumed) && Presented(events, codeId, row)
    ensures Presented(events + [e], codeId, row')
  {
    hide Exec, Redeems, Consents;
    SameConsents(codeId, row, row');
    var more := events + [e];
    var i, j :| 0 <= i < j < |events| && Consents(events[i], codeId, row) && Redeems(events[j], events[i])
                && Exec(INITIAL, events[..j]).now < Exec(INITIAL, events[..i]).now + 60;
    assert more[i] == events[i] && more[..i] == events[..i] && more[j] == events[j] && more[..j] == events[..j];
  }

  lemma SameConsents(codeId: string, row: CodeRow, row': CodeRow)
    requires row' == row.(consumed := row'.consumed)
    ensures forall e :: Consents(e, codeId, row) ==> Consents(e, codeId, row')
    ensures forall e :: Consents(e, codeId, row) ==> e.AuthorizeDecision?
  {
  }

  lemma AcceptedIsPresented(events: seq<Event>, e: Event, codeId: string)
    requires e.FindCode? && CodeAccepted(Exec(INITIAL, events), e.codeForm, codeId)
    requires codeId in Exec(INITIAL, events).codes && Consented(events, codeId, Exec(INITIAL, events).codes[codeId])
    ensures Presented(events + [e], codeId, Exec(INITIAL, events).codes[codeId])
  {
    hide Exec, LookupOf;
    var s, more := Exec(INITIAL, events), events + [e];
    var i :| 0 <= i < |events| && Consents(events[i], codeId, s.codes[codeId])
             && s.codes[codeId].expiresAt == Exec(INITIAL, events[..i]).now + 60;
    assert more[i] == events[i] && more[|events|] == e && more[..i] == events[..i] && more[..|events|] == events;
    assert Redeems(more[|events|], more[i]);
  }

  // ---- What one call does to codes, waiting requests and exchanges ----

  /** The code a request is about to consume or to issue a token for. */
  function WaitsFor(r: Request): Option<string> {
    match r
    case ToConsume(id) => Some(id)
    case ToIssueForCode(id) => Some(id)
    case _ => None
  }

  ghost predicate IsAwaited(s: System, codeId: string) {
    exists q :: q in s.inFlight && WaitsFor(s.inFlight[q]) == Some(codeId)
  }

  /** Codes are waited for once they are accepted, and exchanged once they are waited for. */
  ghost predicate MovesCodes(s: System, s': System, e: Event) {
    && (forall c :: IsAwaited(s', c) ==> IsAwaited(s, c) || (e.FindCode? && CodeAccepted(s, e.codeForm, c)))
    && (forall c :: c in s'.exchanges ==> c in s.exchanges || IsAwaited(s, c))
    && (forall c :: c in s'.codes && c !in s.codes ==>
          Consents(e, c, s'.codes[c]) && s'.codes[c].expiresAt == s.now + 60)
  }

  lemma KeepsWaiting(s: System, s': System, e: Event)
    requires s'.codes.Keys == s.codes.Keys && s'.exchanges == s.exchanges
    requires forall q :: q in s'.inFlight ==> WaitsFor(s'.inFlight[q]) == None
                                              || (q in s.inFlight && WaitsFor(s.inFlight[q]) == WaitsFor(s'.inFlight[q]))
    ensures MovesCodes(s, s', e)
  {
    hide WaitsFor;
  }

  lemma AuthorizeMovesCodes(s: System, e: Event)
    requires e.AuthorizeDecision?
    ensures MovesCodes(s, DoAuthorize(s, e), e)
  {
    hide WaitsFor, LookupOf, IsMinted;
    assert DoAuthorize(s, e).inFlight == s.inFlight && DoAuthorize(s, e).exchanges == s.exchanges;
    assert forall c :: IsAwaited(DoAuthorize(s, e), c) ==> IsAwaited(s, c);
  }

  lemma FindCodeMovesCodes(s: System, e: Event)
    requires e.FindCode?
    ensures MovesCodes(s, DoFindCode(s, e), e)
  {
    hide CodeAccepted;
    var s' := DoFindCode(s, e);
    forall c | IsAwaited(s', c) ensures IsAwaited(s, c) || CodeAccepted(s, e.codeForm, c) {
      var q :| q in s'.inFlight && WaitsFor(s'.inFlight[q]) == Some(c);
      if q in s.inFlight && s'.inFlight[q] == s.inFlight[q] {
        assert IsAwaited(s, c);
      }
    }
  }

  lemma ConsumeMovesCodes(s: System, e: Event)
    requires e.ConsumeCode?
    ensures MovesCodes(s, DoConsume(s, e), e)
  {
    hide Finish, WaitsFor;
    if e.req in s.inFlight && s.inFlight[e.req].ToConsume? {
      var id := s.inFlight[e.req].codeId;
      BothWaitFor(id);
      FinishLeaves(s, e.req);
      if id in s.codes {
        FinishLeaves(s.(codes := s.codes[id := s.codes[id].(consumed := true)]), e.req);
      }
    }
    KeepsWaiting(s, DoConsume(s, e), e);
  }

  lemma BothWaitFor(id: string)
    ensures WaitsFor(ToConsume(id)) == WaitsFor(ToIssueForCode(id)) == Some(id)
  {
  }

  lemma FindRefreshMovesCodes(s: System, e: Event)
    requires e.FindRefresh?
    ensures MovesCodes(s, DoFindRefresh(s, e), e)
  {
    hide RefreshAccepted, WaitsFor;
    FindRefreshWaits(s, e);
    KeepsWaiting(s, DoFindRefresh(s, e), e);
  }

  lemma FindRefreshWaits(s: System, e: Event)
    requires e.FindRefresh?
    ensures var s' := DoFindRefresh(s, e);
            && s'.codes == s.codes && s'.exchanges == s.exchanges
            && (s'.inFlight == s.inFlight
                || exists r :: WaitsFor(r) == None && s'.inFlight == s.inFlight[e.req := r])
  {
    hide RefreshAccepted;
    if e.req !in s.inFlight && e.hit.Some? && RefreshAccepted(s, e.refreshForm, e.hit.value) {
      AcceptedTokenIsStored(s, e.refreshForm, e.hit.value);
      var grant := s.refresh[e.hit.value].grant;
      assert WaitsFor(ToRevoke(grant.userId, grant.clientId)) == None && WaitsFor(ToIssueForRefresh(e.hit.value)) == None;
    }
  }

  lemma AcceptedTokenIsStored(s: System, form: RefreshForm, id: string)
    requires RefreshAccepted(s, form, id)
    ensures id in s.refresh
  {
    hide LookupOf;
  }

  lemma RotateMovesCodes(s: System, e: Event)
    requires e.RotateRefresh?
    ensures MovesCodes(s, DoRotate(s, e), e)
  {
    hide Rotate;
    KeepsWaiting(s, DoRotate(s, e), e);
  }

  lemma RevokeMovesCodes(s: System, e: Event)
    requires e.RevokeGrant?
    ensures MovesCodes(s, DoRevoke(s, e), e)
  {
    hide RevokeAll;
    KeepsWaiting(s, DoRevoke(s, e), e);
  }

  lemma InsertMovesCodes(s: System, e: Event)
    requires e.InsertRefresh?
    ensures MovesCodes(s, DoInsert(s, e), e)
  {
    InsertEffect(s, e);
    hide DoInsert, WaitsFor;
    var s' := DoInsert(s, e);
    forall c | c in s'.exchanges && c !in s.exchanges ensures IsAwaited(s, c) {
      WaitsForIssue(s, e.req, c);
    }
  }

  lemma WaitsForIssue(s: System, req: nat, c: string)
    requires req in s.inFlight && s.inFlight[req] == ToIssueForCode(c)
    ensures IsAwaited(s, c)
  {
    assert WaitsFor(s.inFlight[req]) == Some(c);
  }

  lemma InsertEffect(s: System, e: Event)
    requires e.InsertRefresh?
    ensures var s' := DoInsert(s, e);
            && s'.codes == s.codes
            && (forall q :: q in s'.inFlight ==> WaitsFor(s'.inFlight[q]) == None
                                                 || (q in s.inFlight && s'.inFlight[q] == s.inFlight[q]))
            && (forall c :: c in s'.exchanges && c !in s.exchanges ==>
                  e.req in s.inFlight && s.inFlight[e.req] == ToIssueForCode(c))
  {
    hide CanInsert, Finish, Insert;
    if e.req in s.inFlight && CanInsert(s, e.newId, e.secret) {
      FinishLeaves(s, e.req);
      match s.inFlight[e.req]
      case ToIssueForCode(c) =>
        if c in s.codes {
          InsertLeaves(s, e.newId, e.secret, s.codes[c].grant, c);
          FinishLeaves(Insert(s, e.newId, e.secret, s.codes[c].grant, c).(exchanges := s.exchanges + [c]), e.req);
        }
      case ToIssueForRefresh(id) =>
        if id in s.refresh && id in s.origin {
          InsertLeaves(s, e.newId, e.secret, s.refresh[id].grant, s.origin[id]);
          FinishLeaves(Insert(s, e.newId, e.secret, s.refresh[id].grant, s.origin[id]), e.req);
        }
      case _ =>
    }
  }

  lemma FinishLeaves(s: System, req: nat)
    ensures Finish(s, req).codes == s.codes && Finish(s, req).exchanges == s.exchanges
    ensures forall q :: q in Finish(s, req).inFlight ==> q in s.inFlight && Finish(s, req).inFlight[q] == s.inFlight[q]
  {
  }

  lemma InsertLeaves(s: System, newId: string, secret: string, grant: Grant, codeId: string)
    ensures var s' := Insert(s, newId, secret, grant, codeId);
            s'.codes == s.codes && s'.exchanges == s.exchanges && s'.inFlight == s.inFlight
  {
    hide NewRefresh;
  }

  lemma CallMovesCodes(s: System, e: Event)
    ensures MovesCodes(s, Apply(s, e), e)
  {
    hide MovesCodes, DoAuthorize, DoFindCode, DoConsume, DoInsert, DoFindRefresh, DoRevoke, DoRotate, RevokeAll;
    match e
    case AuthorizeDecision(_, _, _, _, _) => AuthorizeMovesCodes(s, e);
    case FindCode(_, _, _) => FindCodeMovesCodes(s, e);
    case ConsumeCode(_, _) => ConsumeMovesCodes(s, e);
    case FindRefresh(_, _, _) => FindRefreshMovesCodes(s, e);
    case InsertRefresh(_, _, _, _) => InsertMovesCodes(s, e);
    case RotateRefresh(_, _) => RotateMovesCodes(s, e);
    case RevokeGrant(_, _) => RevokeMovesCodes(s, e);
    case Disconnect(_, _) => KeepsWaiting(s, Apply(s, e), e);
    case Tick(_) => KeepsWaiting(s, Apply(s, e), e);
  }

  // ---- The trace ----

  /** Every code was consented to; every code waited for or exchanged was presented. */
  ghost predicate Traced(events: seq<Event>) {
    var s := Exec(INITIAL, events);
    && (forall c :: c in s.codes ==> Consented(events, c, s.codes[c]))
    && (forall c :: IsAwaited(s, c) || c in s.exchanges ==> c in s.codes && Presented(events, c, s.codes[c]))
  }

  lemma ReachedIsSafe(events: seq<Event>)
    ensures Safe(Exec(INITIAL, events))
  {
    hide Safe, GoodStep, Exec;
    InitialIsSafe();
    ExecIsGood(INITIAL, events);
    SafeAfter(INITIAL, Exec(INITIAL, events));
  }

  lemma CodesStay(s: System, e: Event, c: string)
    requires Safe(s) && c in s.codes
    ensures c in Apply(s, e).codes && Apply(s, e).codes[c] == s.codes[c].(consumed := Apply(s, e).codes[c].consumed)
  {
    ApplyIsGood(s, e);
    assert CodeOnward(s, Apply(s, e), c);
    hide Safe, Apply;
  }

  lemma {:induction false} EveryRunIsTraced(events: seq<Event>)
    ensures Traced(events)
  {
    if events == [] {
      NothingToTrace();
    } else {
      hide Traced;
      var n := |events| - 1;
      EveryRunIsTraced(events[..n]);
      assert events == events[..n] + [events[n]];
      CallKeepsTrace(events[..n], events[n]);
    }
  }

  lemma NothingToTrace()
    ensures Traced([])
  {
  }

  lemma ExecOneMore(events: seq<Event>, e: Event)
    ensures Exec(INITIAL, events + [e]) == Apply(Exec(INITIAL, events), e)
  {
    hide Apply;
    assert (events + [e])[..|events|] == events;
  }

  lemma NewCodeIsConsented(events: seq<Event>, e: Event, c: string, row: CodeRow)
    requires Consents(e, c, row) && row.expiresAt == Exec(INITIAL, events).now + 60
    ensures Consented(events + [e], c, row)
  {
    hide Exec;
    var more := events + [e];
    assert more[|events|] == e && more[..|events|] == events;
  }

  lemma CallKeepsTrace(events: seq<Event>, e: Event)
    requires Traced(events)
    ensures Traced(events + [e])
  {
    hide Exec, Apply, Safe, Consented, Presented, Consents, IsAwaited, CodeAccepted;
    var s, more := Exec(INITIAL, events), events + [e];
    var s' := Apply(s, e);
    ExecOneMore(events, e);
    ReachedIsSafe(events);
    CallMovesCodes(s, e);
    forall c | c in s'.codes ensures Consented(more, c, s'.codes[c]) {
      if c in s.codes {
        CodesStay(s, e, c);
        ConsentStays(events, e, c, s.codes[c], s'.codes[c]);
      } else {
        NewCodeIsConsented(events, e, c, s'.codes[c]);
      }
    }
    forall c | IsAwaited(s', c) || c in s'.exchanges ensures c in s'.codes && Presented(more, c, s'.codes[c]) {
      if IsAwaited(s, c) || c in s.exchanges {
        CodesStay(s, e, c);
        PresentationStays(events, e, c, s.codes[c], s'.codes[c]);
      } else {
        AcceptedIsStored(s, e.codeForm, c);
        AcceptedIsPresented(events, e, c);
        CodesStay(s, e, c);
        FindCodeLeavesCodes(s, e);
      }
    }
  }

  lemma AcceptedIsStored(s: System, form: CodeForm, c: string)
    requires CodeAccepted(s, form, c)
    ensures c in s.codes
  {
    hide LookupOf;
  }

  lemma FindCodeLeavesCodes(s: System, e: Event)
    requires e.FindCode?
    ensures Apply(s, e).codes == s.codes
  {
  }

  /**
   * Over every interleaving: before each exchange of a code, a user consented to its grant, and within
   * sixty seconds a request presented the code with the consent's client, redirect URI and challenge.
   */
  lemma ExchangedCodesWerePresented(events: seq<Event>, codeId: string)
    requires codeId in Exec(INITIAL, events).exchanges
    ensures codeId in Exec(INITIAL, events).codes && Presented(events, codeId, Exec(INITIAL, events).codes[codeId])
  {
    hide Exec, Presented;
    EveryRunIsTraced(events);
  }

  /** So behind every refresh token there is a consent to just its grant, and such a presentation. */
  lemma TokensStemFromConsent(events: seq<Event>, id: string)
    requires id in Exec(INITIAL, events).refresh
    ensures exists i, j :: 0 <= i < j < |events| && events[i].AuthorizeDecision? && Redeems(events[j], events[i])
                           && Exec(INITIAL, events).refresh[id].grant == events[i].grant
                           && Exec(INITIAL, events[..j]).now < Exec(INITIAL, events[..i]).now + 60
  {
    hide Exec, Redeems;
    var s := Exec(INITIAL, events);
    RefreshTokensTraceToCodes(events, id);
    var c := s.origin[id];
    assert c in s.exchanges;
    ExchangedCodesWerePresented(events, c);
    var i, j :| 0 <= i < j < |events| && Consents(events[i], c, s.codes[c]) && Redeems(events[j], events[i])
                && Exec(INITIAL, events[..j]).now < Exec(INITIAL, events[..i]).now + 60;
    assert events[i].AuthorizeDecision? && Redeems(events[j], events[i]);
  }
}
