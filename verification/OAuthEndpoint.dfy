/** The token endpoint over its two tables: each handler serves exactly one call of the serial model. */
module OAuthEndpoint {
  import opened Seqs
  import opened OAuthSystem
  import opened OAuthInterleavings
  import opened OAuthSerial

  datatype Response =
    | Tokens(refreshToken: string, scope: string)
    | InvalidRequest
    | InvalidGrant

  /** What a code exchange answers. */
  function ExchangeResponse(s: System, call: Call): Response
    requires call.Exchange?
  {
    var f := call.codeForm;
    if f.code.None? || f.redirectUri.None? || f.challenge.None? || f.clientId.None? then InvalidRequest
    else if Accepted(s, call) then Tokens(call.secret, s.codes[call.hit.value].grant.scope)
    else InvalidGrant
  }

  /** What a refresh answers. */
  function RefreshResponse(s: System, call: Call): Response
    requires call.Refresh?
  {
    if call.refreshForm.refreshToken.None? then InvalidRequest
    else if Accepted(s, call) && !s.refresh[call.hit.value].revoked && s.refresh[call.hit.value].expiresAt >= s.now
    then Tokens(call.secret, s.refresh[call.hit.value].grant.scope)
    else InvalidGrant
  }

  /** `hit` is what looking a token up yields: the row that holds it, if there is one. */
  ghost predicate CodeHit(s: System, code: string, hit: Option<string>) {
    match hit
    case Some(id) => CodeMatches(s, id, code)
    case None => forall id :: !CodeMatches(s, id, code)
  }

  ghost predicate RefreshHit(s: System, token: string, hit: Option<string>) {
    match hit
    case Some(id) => RefreshMatches(s, id, token)
    case None => forall id :: !RefreshMatches(s, id, token)
  }

  lemma ExchangeTables(s: System, call: Call)
    requires s.inFlight == map[] && call.Exchange? && Mints(s, call) && Accepted(s, call)
    ensures var id := call.hit.value;
            && id in s.codes
            && Serve(s, call).codes == s.codes[id := s.codes[id].(consumed := true)]
            && Serve(s, call).refresh == s.refresh[call.newId := NewRefresh(s, s.codes[id].grant, call.secret)]
  {
    hide LookupOf, IsMinted, Serve;
    ExchangeResult(s, call);
  }

  lemma SerialIsIdle(s: System)
    requires Serial(s)
    ensures Safe(s) && s.inFlight == map[]
  {
    hide Safe;
  }

  lemma RevokedTables(s: System, call: Call)
    requires s.inFlight == map[] && call.Refresh? && Mints(s, call) && Accepted(s, call)
    requires s.refresh[call.hit.value].revoked
    ensures call.hit.value in s.refresh
    ensures var grant := s.refresh[call.hit.value].grant;
            && Serve(s, call).codes == s.codes
            && Serve(s, call).refresh == RevokeAll(s.refresh, grant.userId, grant.clientId)
  {
    hide LookupOf, IsMinted, Serve, RevokeAll;
    RefreshRevokes(s, call);
  }

  lemma RotatedTables(s: System, call: Call)
    requires Safe(s) && s.inFlight == map[] && call.Refresh? && Mints(s, call) && Accepted(s, call)
    requires !s.refresh[call.hit.value].revoked && s.refresh[call.hit.value].expiresAt >= s.now
    ensures var id := call.hit.value;
            && id in s.refresh && Serve(s, call).codes == s.codes
            && Serve(s, call).refresh
               == Rotate(s.refresh[call.newId := NewRefresh(s, s.refresh[id].grant, call.secret)], id, call.newId)
  {
    hide LookupOf, IsMinted, Serve, Rotate;
    RefreshRowsAreTraced(s, call.hit.value);
    hide Safe;
    RefreshRotates(s, call);
  }

  lemma RejectedExchange(s: System, call: Call)
    requires s.inFlight == map[] && call.Exchange? && Mints(s, call)
    ensures !Accepted(s, call) ==> Serve(s, call) == s
  {
    ExchangeResult(s, call);
  }

  // ---- The same in the columns of the tables ----

  /** The row holds the presented code, is live, and was issued for what the form says. */
  predicate Redeems(row: CodeRow, form: CodeForm, now: int) {
    && form.code == Some(row.secret) && !row.consumed && row.expiresAt > now
    && form.clientId == Some(row.grant.clientId) && form.redirectUri == Some(row.redirectUri)
    && form.challenge == Some(row.challenge)
  }

  /** A new row for the token, live for thirty days. */
  predicate Issued(row: RefreshRow, secret: string, grant: Grant, now: int) {
    && row.secret == secret && row.grant == grant && row.expiresAt == now + 30 * 24 * 60 * 60
    && !row.revoked && row.rotatedTo == None
  }

  /** Of the codes, the row is consumed; a token is stored for its grant; nothing else changes. */
  predicate Redeemed(codes: map<string, CodeRow>, refresh: map<string, RefreshRow>, id: string,
                     codes': map<string, CodeRow>, refresh': map<string, RefreshRow>,
                     newId: string, secret: string, now: int)
    requires id in codes
  {
    && codes' == codes[id := codes[id].(consumed := true)]
    && newId in refresh' && refresh' == refresh[newId := refresh'[newId]]
    && Issued(refresh'[newId], secret, codes[id].grant, now)
  }

  /** The row holds the presented token, and the form names its client or none. */
  predicate Presents(row: RefreshRow, form: RefreshForm) {
    form.refreshToken == Some(row.secret) && (form.clientId == None || form.clientId == Some(row.grant.clientId))
  }

  /** The token is revoked in favour of a new one for its grant; nothing else changes. */
  predicate RotatedTo(refresh: map<string, RefreshRow>, id: string, refresh': map<string, RefreshRow>,
                      newId: string, secret: string, now: int)
    requires id in refresh
  {
    && newId in refresh' && Issued(refresh'[newId], secret, refresh[id].grant, now)
    && refresh' == refresh[id := refresh[id].(revoked := true, rotatedTo := Some(newId))][newId := refresh'[newId]]
  }

  /** Every token of the user and client is revoked; nothing else changes. */
  ghost predicate AllRevoked(refresh: map<string, RefreshRow>, refresh': map<string, RefreshRow>,
                             userId: string, clientId: string)
  {
    && refresh'.Keys == refresh.Keys
    && forall id :: id in refresh ==>
         refresh'[id] == if refresh[id].grant.userId == userId && refresh[id].grant.clientId == clientId
                         then refresh[id].(revoked := true) else refresh[id]
  }

  lemma AcceptedCodesRedeem(s: System, form: CodeForm, id: string)
    requires Safe(s) && id in s.codes
    ensures Redeems(s.codes[id], form, s.now) <==> CodeAccepted(s, form, id)
    ensures Redeems(s.codes[id], form, s.now) ==> CodeMatches(s, id, form.code.value)
  {
    assert CodeOk(s, id);
    hide Safe;
  }

  lemma OneRowRedeems(s: System, form: CodeForm, id: string, other: string)
    requires Safe(s) && id in s.codes && other in s.codes
    requires form.code == Some(s.codes[id].secret) == Some(s.codes[other].secret)
    ensures id == other
  {
    assert CodeOk(s, id) && CodeOk(s, other);
    hide Safe;
  }

  lemma AcceptedTokensPresent(s: System, form: RefreshForm, id: string)
    requires Safe(s) && id in s.refresh
    ensures Presents(s.refresh[id], form) <==> RefreshAccepted(s, form, id)
    ensures Presents(s.refresh[id], form) ==> RefreshMatches(s, id, form.refreshToken.value)
  {
    assert RefreshOk(s, id);
    hide Safe;
  }

  lemma OneRowPresents(s: System, form: RefreshForm, id: string, other: string)
    requires Safe(s) && id in s.refresh && other in s.refresh
    requires form.refreshToken == Some(s.refresh[id].secret) == Some(s.refresh[other].secret)
    ensures id == other
  {
    assert RefreshOk(s, id) && RefreshOk(s, other);
    hide Safe;
  }

  /** A served exchange, in columns. */
  ghost predicate ExchangeInColumns(s: System, s': System, form: CodeForm, newId: string, secret: string, response: Response) {
    && (forall id :: id in s.codes && Redeems(s.codes[id], form, s.now) ==>
          && response == Tokens(secret, s.codes[id].grant.scope)
          && Redeemed(s.codes, s.refresh, id, s'.codes, s'.refresh, newId, secret, s.now))
    && ((forall id :: id in s.codes ==> !Redeems(s.codes[id], form, s.now)) ==>
          !response.Tokens? && s'.codes == s.codes && s'.refresh == s.refresh)
  }

  lemma ServedExchange(s: System, call: Call)
    requires Safe(s) && s.inFlight == map[] && call.Exchange? && Mints(s, call)
    requires (call.codeForm.code.Some? && |call.codeForm.code.value| >= |AC_PREFIX| + 8
              && ExchangeResponse(s, call) != InvalidRequest) ==> CodeHit(s, call.codeForm.code.value, call.hit)
    ensures ExchangeInColumns(s, Serve(s, call), call.codeForm, call.newId, call.secret, ExchangeResponse(s, call))
  {
    hide Safe, Serve, LookupOf, IsMinted, CodeAccepted, CanInsert;
    var form := call.codeForm;
    forall id | id in s.codes && Redeems(s.codes[id], form, s.now) ensures call.hit == Some(id) && Accepted(s, call) {
      AcceptedCodesRedeem(s, form, id);
      AcceptedIsWellFormed(s, form, id);
      HitHolds(s, form, id, call.hit);
    }
    if Accepted(s, call) {
      var id := call.hit.value;
      AcceptedIsWellFormed(s, form, id);
      AcceptedCodesRedeem(s, form, id);
      ExchangeTables(s, call);
      NewTokenIsIssued(s, s.codes[id].grant, call.secret);
    } else {
      RejectedExchange(s, call);
    }
  }

  lemma AcceptedIsWellFormed(s: System, form: CodeForm, id: string)
    requires CodeAccepted(s, form, id)
    ensures id in s.codes && form.code.Some? && form.redirectUri.Some? && form.challenge.Some? && form.clientId.Some?
    ensures |form.code.value| >= |AC_PREFIX| + 8
  {
    hide LookupOf;
  }

  lemma HitHolds(s: System, form: CodeForm, id: string, hit: Option<string>)
    requires Safe(s) && id in s.codes && Redeems(s.codes[id], form, s.now) && CodeHit(s, form.code.value, hit)
    ensures hit == Some(id)
  {
    hide Safe, LookupOf;
    AcceptedCodesRedeem(s, form, id);
    if hit.Some? {
      OneRowRedeems(s, form, id, hit.value);
    }
  }

  /** A served refresh, in columns. */
  ghost predicate RefreshInColumns(s: System, s': System, form: RefreshForm, newId: string, secret: string,
                                   response: Response)
  {
    && s'.codes == s.codes
    && (forall id :: id in s.refresh && Presents(s.refresh[id], form) ==>
          RefreshedRow(s, s', id, newId, secret, response))
    && ((forall id :: id in s.refresh ==> !Presents(s.refresh[id], form)) ==>
          !response.Tokens? && s'.refresh == s.refresh)
  }

  /** What presenting the token of row `id` does. */
  ghost predicate RefreshedRow(s: System, s': System, id: string, newId: string, secret: string, response: Response)
    requires id in s.refresh
  {
    var row := s.refresh[id];
    if row.revoked then
      response == InvalidGrant && AllRevoked(s.refresh, s'.refresh, row.grant.userId, row.grant.clientId)
    else if row.expiresAt < s.now then response == InvalidGrant && s'.refresh == s.refresh
    else response == Tokens(secret, row.grant.scope) && RotatedTo(s.refresh, id, s'.refresh, newId, secret, s.now)
  }

  lemma ServedRefresh(s: System, call: Call)
    requires Safe(s) && s.inFlight == map[] && call.Refresh? && Mints(s, call)
    requires (call.refreshForm.refreshToken.Some? && |call.refreshForm.refreshToken.value| >= |RT_PREFIX| + 8)
             ==> RefreshHit(s, call.refreshForm.refreshToken.value, call.hit)
    ensures RefreshInColumns(s, Serve(s, call), call.refreshForm, call.newId, call.secret, RefreshResponse(s, call))
  {
    hide Safe, Serve, LookupOf, IsMinted, RefreshAccepted, CanInsert, RefreshedRow, Presents;
    var form := call.refreshForm;
    forall id | id in s.refresh && Presents(s.refresh[id], form) ensures call.hit == Some(id) && Accepted(s, call) {
      AcceptedTokensPresent(s, form, id);
      PresentedIsWellFormed(s, form, id);
      RefreshHitHolds(s, form, id, call.hit);
    }
    if Accepted(s, call) {
      var id := call.hit.value;
      PresentedIsWellFormed(s, form, id);
      AcceptedTokensPresent(s, form, id);
      AcceptedRefresh(s, call);
    } else {
      RefreshRejected(s, call);
    }
  }

  lemma RefreshShows(s: System, s': System, form: RefreshForm, newId: string, secret: string, response: Response)
    requires RefreshInColumns(s, s', form, newId, secret, response)
    ensures s'.codes == s.codes
    ensures forall id :: id in s.refresh && Presents(s.refresh[id], form) ==>
              var row := s.refresh[id];
              if row.revoked then
                response == InvalidGrant && AllRevoked(s.refresh, s'.refresh, row.grant.userId, row.grant.clientId)
              else if row.expiresAt < s.now then response == InvalidGrant && s'.refresh == s.refresh
              else
                && response == Tokens(secret, row.grant.scope)
                && RotatedTo(s.refresh, id, s'.refresh, newId, secret, s.now)
    ensures (forall id :: id in s.refresh ==> !Presents(s.refresh[id], form)) ==>
              !response.Tokens? && s'.refresh == s.refresh
  {
    hide RotatedTo, AllRevoked;
  }

  lemma AcceptedRefresh(s: System, call: Call)
    requires Safe(s) && s.inFlight == map[] && call.Refresh? && Mints(s, call) && Accepted(s, call)
    requires call.refreshForm.refreshToken.Some?
    ensures call.hit.value in s.refresh && Serve(s, call).codes == s.codes
    ensures RefreshedRow(s, Serve(s, call), call.hit.value, call.newId, call.secret, RefreshResponse(s, call))
  {
    hide Safe, Serve, LookupOf, IsMinted, CanInsert, RevokeAll, Rotate;
    var id := call.hit.value;
    var row := s.refresh[id];
    if row.revoked {
      RevokedTables(s, call);
      RevokeAllRevokes(s.refresh, row.grant.userId, row.grant.clientId);
    } else if row.expiresAt < s.now {
      RefreshRejected(s, call);
    } else {
      RotatedTables(s, call);
      RotateRotates(s, id, call.newId, call.secret);
    }
  }

  lemma RevokeAllRevokes(refresh: map<string, RefreshRow>, userId: string, clientId: string)
    ensures AllRevoked(refresh, RevokeAll(refresh, userId, clientId), userId, clientId)
  {
  }

  lemma RotateRotates(s: System, id: string, newId: string, secret: string)
    requires id in s.refresh && CanInsert(s, newId, secret) && !s.refresh[id].revoked
    ensures var token := NewRefresh(s, s.refresh[id].grant, secret);
            RotatedTo(s.refresh, id, Rotate(s.refresh[newId := token], id, newId), newId, secret, s.now)
  {
    hide LookupOf, IsMinted;
  }

  lemma PresentedIsWellFormed(s: System, form: RefreshForm, id: string)
    requires RefreshAccepted(s, form, id)
    ensures id in s.refresh && form.refreshToken.Some? && |form.refreshToken.value| >= |RT_PREFIX| + 8
  {
    hide LookupOf;
  }

  lemma RefreshHitHolds(s: System, form: RefreshForm, id: string, hit: Option<string>)
    requires Safe(s) && id in s.refresh && Presents(s.refresh[id], form) && RefreshHit(s, form.refreshToken.value, hit)
    ensures hit == Some(id)
  {
    hide Safe, LookupOf;
    AcceptedTokensPresent(s, form, id);
    if hit.Some? {
      OneRowPresents(s, form, id, hit.value);
    }
  }

  lemma NewTokenIsIssued(s: System, grant: Grant, secret: string)
    ensures Issued(NewRefresh(s, grant, secret), secret, grant, s.now)
  {
    hide LookupOf;
  }

  class TokenEndpoint {
    var codes: map<string, CodeRow>
    var refresh: map<string, RefreshRow>

    /** The state of the model that the tables are part of. */
    ghost var sys: System

    ghost predicate Valid()
      reads this
    {
      sys.codes == codes && sys.refresh == refresh && Serial(sys)
    }

    constructor ()
      ensures Valid() && sys == INITIAL
    {
      codes, refresh, sys := map[], map[], INITIAL;
      new;
      InitialIsSafe();
    }

    /** Stores the code of a consent decision that allowed the request. */
    method AuthorizeDecision(codeId: string, secret: string, grant: Grant, redirectUri: string, challenge: string,
                             now: int)
      requires Valid() && now == sys.now
      requires codeId !in sys.codes && IsMinted(AC_PREFIX, secret) && secret !in sys.minted
      modifies this
      ensures Valid() && sys == Serve(old(sys), Authorize(codeId, secret, grant, redirectUri, challenge))
      ensures refresh == old(refresh) && codeId in codes && codes == old(codes)[codeId := codes[codeId]]
      ensures codes[codeId] == CodeRow(codes[codeId].prefix, secret, grant, redirectUri, challenge, now + 60, false)
    {
      hide Serial, LookupOf, IsMinted;
      ServeKeepsSerial(sys, Authorize(codeId, secret, grant, redirectUri, challenge));
      sys := Serve(sys, Authorize(codeId, secret, grant, redirectUri, challenge));
      codes := codes[codeId := CodeRow(LookupOf(AC_PREFIX, secret), secret, grant, redirectUri, challenge,
                                       now + CODE_TTL_SECS, false)];
    }

    /** Time passes between requests. */
    ghost method Elapse(seconds: nat)
      requires Valid()
      modifies this`sys
      ensures Valid() && sys == Serve(old(sys), Wait(seconds))
    {
      ServeKeepsSerial(sys, Wait(seconds));
      sys := Serve(sys, Wait(seconds));
    }

    /** Of the live rows under the code's lookup key, the one whose hash verifies the code. */
    method FindCode(code: string, now: int) returns (hit: Option<string>)
      requires Valid() && now == sys.now
      ensures CodeHit(sys, code, hit)
    {
      var lookup := LookupOf(AC_PREFIX, code);
      var rows := set id | id in codes && codes[id].prefix == lookup && !codes[id].consumed && codes[id].expiresAt > now;
      while rows != {}
        invariant forall id :: CodeMatches(sys, id, code) ==> id in rows
        invariant forall id :: id in rows ==>
                    id in codes && codes[id].prefix == lookup && !codes[id].consumed && codes[id].expiresAt > now
        decreases |rows|
      {
        var id :| id in rows;
        if codes[id].secret == code {
          return Some(id);
        }
        rows := rows - {id};
      }
      hit := None;
    }

    method FindRefresh(token: string) returns (hit: Option<string>)
      requires Valid()
      ensures RefreshHit(sys, token, hit)
    {
      var lookup := LookupOf(RT_PREFIX, token);
      var rows := set id | id in refresh && refresh[id].prefix == lookup;
      while rows != {}
        invariant forall id :: RefreshMatches(sys, id, token) ==> id in rows
        invariant forall id :: id in rows ==> id in refresh && refresh[id].prefix == lookup
        decreases |rows|
      {
        var id :| id in rows;
        if refresh[id].secret == token {
          return Some(id);
        }
        rows := rows - {id};
      }
      hit := None;
    }

    /** Consumes a code that passed every check and stores a refresh token for it. */
    method ConsumeAndIssue(id: string, now: int, newId: string, secret: string, ghost call: Call)
      returns (response: Response)
      requires Valid() && now == sys.now && Mints(sys, call)
      requires call.Exchange? && call.hit == Some(id) && call.newId == newId && call.secret == secret
      requires Accepted(sys, call)
      modifies this
      ensures Valid() && sys == Serve(old(sys), call)
      ensures response == Tokens(secret, old(sys).codes[id].grant.scope)
    {
      hide Serial, Safe, Serve, Mints, Accepted, LookupOf;
      SerialIsIdle(sys);
      ExchangeTables(sys, call);
      ServeKeepsSerial(sys, call);
      var row := codes[id];
      sys := Serve(sys, call);
      codes := codes[id := row.(consumed := true)];
      refresh := refresh[newId := RefreshRow(LookupOf(RT_PREFIX, secret), secret, row.grant,
                                             now + REFRESH_TTL_SECS, false, None)];
      response := Tokens(secret, row.grant.scope);
    }

    method TokenAuthorizationCode(form: CodeForm, now: int, newId: string, secret: string)
      returns (response: Response, ghost call: Call)
      requires Valid() && now == sys.now && CanInsert(sys, newId, secret)
      modifies this
      ensures Valid()
      ensures call.Exchange? && call.codeForm == form && call.newId == newId && call.secret == secret
      ensures (form.code.Some? && |form.code.value| >= |AC_PREFIX| + 8 && response != InvalidRequest) ==>
                CodeHit(old(sys), form.code.value, call.hit)
      ensures sys == Serve(old(sys), call) && response == ExchangeResponse(old(sys), call)
      ensures response == InvalidRequest
         <==> form.code == None || form.redirectUri == None || form.challenge == None || form.clientId == None
      ensures forall id :: id in old(codes) && Redeems(old(codes[id]), form, now) ==>
                && response == Tokens(secret, old(codes[id]).grant.scope)
                && Redeemed(old(codes), old(refresh), id, codes, refresh, newId, secret, now)
      ensures (forall id :: id in old(codes) ==> !Redeems(old(codes[id]), form, now)) ==>
                !response.Tokens? && codes == old(codes) && refresh == old(refresh)
    {
      hide Serial, Safe, Serve, CanInsert, LookupOf, Redeemed;
      SerialIsIdle(sys);
      call := Exchange(form, None, newId, secret);
      if form.code.None? || form.redirectUri.None? || form.challenge.None? || form.clientId.None? {
        RejectedExchange(sys, call);
        ServedExchange(sys, call);
        return InvalidRequest, call;
      }
      if |form.code.value| < |AC_PREFIX| + 8 {
        RejectedExchange(sys, call);
        ServedExchange(sys, call);
        return InvalidGrant, call;
      }
      var hit := FindCode(form.code.value, now);
      call := Exchange(form, hit, newId, secret);
      RejectedExchange(sys, call);
      ServedExchange(sys, call);
      if hit.None? {
        return InvalidGrant, call;
      }
      var id := hit.value;
      var row := codes[id];
      if row.grant.clientId != form.clientId.value || row.redirectUri != form.redirectUri.value {
        return InvalidGrant, call;
      }
      if form.challenge.value != row.challenge {
        return InvalidGrant, call;
      }
      if codes[id].consumed {
        return InvalidGrant, call;
      }
      response := ConsumeAndIssue(id, now, newId, secret, call);
    }

    /** A revoked token was presented: its whole grant is revoked. */
    method RevokeReused(id: string, ghost call: Call) returns (response: Response)
      requires Valid() && call.Refresh? && call.hit == Some(id) && Mints(sys, call) && Accepted(sys, call)
      requires refresh[id].revoked
      modifies this
      ensures Valid() && sys == Serve(old(sys), call) && response == InvalidGrant
    {
      hide Serial, Safe, Serve, Mints, Accepted, RevokeAll;
      SerialIsIdle(sys);
      RevokedTables(sys, call);
      ServeKeepsSerial(sys, call);
      var row := refresh[id];
      sys := Serve(sys, call);
      refresh := RevokeAll(refresh, row.grant.userId, row.grant.clientId);
      response := InvalidGrant;
    }

    /** Stores the successor of a live token, then revokes the token in its favour. */
    method IssueAndRotate(id: string, now: int, newId: string, secret: string, ghost call: Call)
      returns (response: Response)
      requires Valid() && now == sys.now && Mints(sys, call)
      requires call.Refresh? && call.hit == Some(id) && call.newId == newId && call.secret == secret
      requires Accepted(sys, call) && !refresh[id].revoked && refresh[id].expiresAt >= now
      modifies this
      ensures Valid() && sys == Serve(old(sys), call)
      ensures response == Tokens(secret, old(sys).refresh[id].grant.scope)
    {
      hide Serial, Safe, Serve, Mints, Accepted, LookupOf, Rotate;
      SerialIsIdle(sys);
      RotatedTables(sys, call);
      ServeKeepsSerial(sys, call);
      var row := refresh[id];
      sys := Serve(sys, call);
      refresh := refresh[newId := RefreshRow(LookupOf(RT_PREFIX, secret), secret, row.grant,
                                             now + REFRESH_TTL_SECS, false, None)];
      refresh := Rotate(refresh, id, newId);
      response := Tokens(secret, row.grant.scope);
    }

    method TokenRefresh(form: RefreshForm, now: int, newId: string, secret: string)
      returns (response: Response, ghost call: Call)
      requires Valid() && now == sys.now && CanInsert(sys, newId, secret)
      modifies this
      ensures Valid()
      ensures call.Refresh? && call.refreshForm == form && call.newId == newId && call.secret == secret
      ensures (form.refreshToken.Some? && |form.refreshToken.value| >= |RT_PREFIX| + 8) ==>
                RefreshHit(old(sys), form.refreshToken.value, call.hit)
      ensures sys == Serve(old(sys), call) && response == RefreshResponse(old(sys), call)
      ensures response == InvalidRequest <==> form.refreshToken == None
      ensures codes == old(codes)
      ensures forall id :: id in old(refresh) && Presents(old(refresh[id]), form) ==>
                var row := old(refresh[id]);
                if row.revoked then
                  response == InvalidGrant && AllRevoked(old(refresh), refresh, row.grant.userId, row.grant.clientId)
                else if row.expiresAt < now then response == InvalidGrant && refresh == old(refresh)
                else
                  && response == Tokens(secret, row.grant.scope)
                  && RotatedTo(old(refresh), id, refresh, newId, secret, now)
      ensures (forall id :: id in old(refresh) ==> !Presents(old(refresh[id]), form)) ==>
                !response.Tokens? && refresh == old(refresh)
    {
      hide Serial, Safe, Serve, CanInsert, LookupOf, RotatedTo, AllRevoked, RefreshInColumns;
      SerialIsIdle(sys);
      call := Refresh(form, None, newId, secret);
      if form.refreshToken.None? {
        RefreshRejected(sys, call);
        ServedRefresh(sys, call);
        RefreshShows(sys, sys, form, newId, secret, InvalidRequest);
        return InvalidRequest, call;
      }
      if |form.refreshToken.value| < |RT_PREFIX| + 8 {
        RefreshRejected(sys, call);
        ServedRefresh(sys, call);
        RefreshShows(sys, sys, form, newId, secret, InvalidGrant);
        return InvalidGrant, call;
      }
      var hit := FindRefresh(form.refreshToken.value);
      call := Refresh(form, hit, newId, secret);
      ServedRefresh(sys, call);
      RefreshShows(sys, Serve(sys, call), form, newId, secret, RefreshResponse(sys, call));
      if hit.None? {
        RefreshRejected(sys, call);
        return InvalidGrant, call;
      }
      var id := hit.value;
      var row := refresh[id];
      if form.clientId.Some? && form.clientId.value != row.grant.clientId {
        RefreshRejected(sys, call);
        return InvalidGrant, call;
      }
      if row.revoked {
        response := RevokeReused(id, call);
        return;
      }
      if row.expiresAt < now {
        RefreshRejected(sys, call);
        return InvalidGrant, call;
      }
      response := IssueAndRotate(id, now, newId, secret, call);
    }

    /** The user disconnects a client. */
    method RevokeGrant(userId: string, clientId: string)
      requires Valid()
      modifies this
      ensures Valid() && sys == Serve(old(sys), Revoke(userId, clientId)) && GrantDead(sys, userId, clientId)
      ensures codes == old(codes) && AllRevoked(old(refresh), refresh, userId, clientId)
    {
      ServeKeepsSerial(sys, Revoke(userId, clientId));
      sys := Serve(sys, Revoke(userId, clientId));
      refresh := RevokeAll(refresh, userId, clientId);
    }
  }
}
