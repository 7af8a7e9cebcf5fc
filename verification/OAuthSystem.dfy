/**
 * The OAuth grant store as a transition system. Every token request is split at its database
 * calls; an event is one such call (or the end of the request it decides), so that a list of
 * events is an interleaving of requests.
 */
module OAuthSystem {
  import opened Seqs

  const CODE_TTL_SECS := 60
  const REFRESH_TTL_SECS := 2_592_000
  const AC_PREFIX := "wa_ac_"
  const RT_PREFIX := "wa_rt_"

  /** Characters of 33 random bytes in unpadded base64. */
  const TOKEN_CHARS := 44

  /** What a user granted to a client. */
  datatype Grant = Grant(userId: string, clientId: string, scope: string, resource: Option<string>)

  /** The hash column is modelled by the raw token it verifies. */
  datatype CodeRow = CodeRow(
    prefix: string, secret: string, grant: Grant, redirectUri: string, challenge: string,
    expiresAt: int, consumed: bool)

  datatype RefreshRow = RefreshRow(
    prefix: string, secret: string, grant: Grant, expiresAt: int, revoked: bool, rotatedTo: Option<string>)

  /** `challenge` is the S256 digest of the form's code_verifier. */
  datatype CodeForm = CodeForm(
    code: Option<string>, redirectUri: Option<string>, challenge: Option<string>, clientId: Option<string>)

  datatype RefreshForm = RefreshForm(refreshToken: Option<string>, clientId: Option<string>)

  /** A request waiting for its next database call. */
  datatype Request =
    | ToConsume(codeId: string)
    | ToIssueForCode(codeId: string)
    | ToIssueForRefresh(oldId: string)
    | ToRotate(oldId: string, newId: string)
    | ToRevoke(userId: string, clientId: string)

  /**
   * The tables, the clock, the requests in flight, and records of the past: the row each token
   * minted so far was stored in (a minted token is never minted again), and, which no step looks
   * at, the code each refresh token stems from, the order tokens were inserted in, the request
   * that consumed each code, and the codes that were exchanged.
   */
  datatype System = System(
    codes: map<string, CodeRow>,
    refresh: map<string, RefreshRow>,
    now: int,
    inFlight: map<nat, Request>,
    minted: map<string, string>,
    origin: map<string, string>,
    birth: map<string, nat>,
    claim: map<string, nat>,
    exchanges: seq<string>)

  const INITIAL := System(map[], map[], 0, map[], map[], map[], map[], map[], [])

  /** A database call succeeds, or fails without or with its effect. */
  datatype Outcome = Succeeds | FailsUndone | FailsDone

  datatype Event =
    | AuthorizeDecision(codeId: string, secret: string, grant: Grant, redirectUri: string, challenge: string)
    | FindCode(req: nat, codeForm: CodeForm, hit: Option<string>)
    | ConsumeCode(req: nat, outcome: Outcome)
    | FindRefresh(req: nat, refreshForm: RefreshForm, hit: Option<string>)
    | InsertRefresh(req: nat, newId: string, secret: string, outcome: Outcome)
    | RotateRefresh(req: nat, outcome: Outcome)
    | RevokeGrant(req: nat, outcome: Outcome)
    | Disconnect(userId: string, clientId: string)
    | Tick(seconds: nat)

  // ---- Tokens ----

  function LookupOf(prefix: string, raw: string): string {
    var rest := if |prefix| <= |raw| then raw[|prefix|..] else [];
    if |rest| <= 8 then rest else rest[..8]
  }

  predicate IsMinted(prefix: string, raw: string) {
    |raw| == |prefix| + TOKEN_CHARS && prefix <= raw
  }

  // ---- The statements on the tables ----

  predicate CodeMatches(s: System, id: string, code: string) {
    && id in s.codes
    && s.codes[id].prefix == LookupOf(AC_PREFIX, code)
    && !s.codes[id].consumed && s.codes[id].expiresAt > s.now
    && s.codes[id].secret == code
  }

  predicate RefreshMatches(s: System, id: string, token: string) {
    && id in s.refresh
    && s.refresh[id].prefix == LookupOf(RT_PREFIX, token)
    && s.refresh[id].secret == token
  }

  function Revoke(row: RefreshRow): RefreshRow {
    row.(revoked := true)
  }

  function RevokeAll(refresh: map<string, RefreshRow>, userId: string, clientId: string): map<string, RefreshRow> {
    map id | id in refresh ::
      if refresh[id].grant.userId == userId && refresh[id].grant.clientId == clientId
      then Revoke(refresh[id]) else refresh[id]
  }

  function Rotate(refresh: map<string, RefreshRow>, id: string, newId: string): map<string, RefreshRow> {
    if id in refresh && !refresh[id].revoked then refresh[id := refresh[id].(revoked := true, rotatedTo := Some(newId))]
    else refresh
  }

  function NewRefresh(s: System, grant: Grant, secret: string): RefreshRow {
    RefreshRow(LookupOf(RT_PREFIX, secret), secret, grant, s.now + REFRESH_TTL_SECS, false, None)
  }

  // ---- The steps ----

  function Finish(s: System, req: nat): System {
    s.(inFlight := s.inFlight - {req})
  }

  function DoAuthorize(s: System, e: Event): System
    requires e.AuthorizeDecision?
  {
    if e.codeId in s.codes || !IsMinted(AC_PREFIX, e.secret) || e.secret in s.minted then s
    else
      s.(codes := s.codes[e.codeId := CodeRow(LookupOf(AC_PREFIX, e.secret), e.secret, e.grant, e.redirectUri,
                                              e.challenge, s.now + CODE_TTL_SECS, false)],
         minted := s.minted[e.secret := e.codeId])
  }

  /** Parameters present, code long enough, a live row found, and client, redirect URI and PKCE agree. */
  predicate CodeAccepted(s: System, form: CodeForm, id: string) {
    && form.code.Some? && form.redirectUri.Some? && form.challenge.Some? && form.clientId.Some?
    && |form.code.value| >= |AC_PREFIX| + 8
    && CodeMatches(s, id, form.code.value)
    && s.codes[id].grant.clientId == form.clientId.value
    && s.codes[id].redirectUri == form.redirectUri.value
    && s.codes[id].challenge == form.challenge.value
  }

  function DoFindCode(s: System, e: Event): System
    requires e.FindCode?
  {
    if e.req in s.inFlight || e.hit.None? || !CodeAccepted(s, e.codeForm, e.hit.value) then s
    else s.(inFlight := s.inFlight[e.req := ToConsume(e.hit.value)])
  }

  function DoConsume(s: System, e: Event): System
    requires e.ConsumeCode?
  {
    if e.req !in s.inFlight || !s.inFlight[e.req].ToConsume? then s
    else
      var id := s.inFlight[e.req].codeId;
      var updates := id in s.codes && !s.codes[id].consumed;
      var codes := if updates && !e.outcome.FailsUndone? then s.codes[id := s.codes[id].(consumed := true)] else s.codes;
      if updates && e.outcome.Succeeds?
      then s.(codes := codes, claim := s.claim[id := e.req], inFlight := s.inFlight[e.req := ToIssueForCode(id)])
      else Finish(s.(codes := codes), e.req)
  }

  predicate RefreshAccepted(s: System, form: RefreshForm, id: string) {
    && form.refreshToken.Some?
    && |form.refreshToken.value| >= |RT_PREFIX| + 8
    && RefreshMatches(s, id, form.refreshToken.value)
    && (form.clientId.Some? ==> form.clientId.value == s.refresh[id].grant.clientId)
  }

  function DoFindRefresh(s: System, e: Event): System
    requires e.FindRefresh?
  {
    if e.req in s.inFlight || e.hit.None? || !RefreshAccepted(s, e.refreshForm, e.hit.value) then s
    else
      var row := s.refresh[e.hit.value];
      if row.revoked then s.(inFlight := s.inFlight[e.req := ToRevoke(row.grant.userId, row.grant.clientId)])
      else if row.expiresAt < s.now then s
      else s.(inFlight := s.inFlight[e.req := ToIssueForRefresh(e.hit.value)])
  }

  function Insert(s: System, newId: string, secret: string, grant: Grant, codeId: string): System {
    s.(refresh := s.refresh[newId := NewRefresh(s, grant, secret)],
       minted := s.minted[secret := newId],
       origin := s.origin[newId := codeId],
       birth := s.birth[newId := |s.birth|])
  }

  predicate CanInsert(s: System, newId: string, secret: string) {
    newId !in s.refresh && newId !in s.birth && IsMinted(RT_PREFIX, secret) && secret !in s.minted
  }

  function DoInsert(s: System, e: Event): System
    requires e.InsertRefresh?
  {
    if e.req !in s.inFlight || !CanInsert(s, e.newId, e.secret) then s
    else
      match s.inFlight[e.req]
      case ToIssueForCode(codeId) =>
        if codeId !in s.codes then s
        else if e.outcome.FailsUndone? then Finish(s, e.req)
        else
          var s' := Insert(s, e.newId, e.secret, s.codes[codeId].grant, codeId);
          Finish(s'.(exchanges := s.exchanges + [codeId]), e.req)
      case ToIssueForRefresh(oldId) =>
        if oldId !in s.refresh || oldId !in s.origin then s
        else if e.outcome.FailsUndone? then Finish(s, e.req)
        else
          var s' := Insert(s, e.newId, e.secret, s.refresh[oldId].grant, s.origin[oldId]);
          if e.outcome.Succeeds? then s'.(inFlight := s.inFlight[e.req := ToRotate(oldId, e.newId)])
          else Finish(s', e.req)
      case _ => s
  }

  function DoRotate(s: System, e: Event): System
    requires e.RotateRefresh?
  {
    if e.req !in s.inFlight || !s.inFlight[e.req].ToRotate? then s
    else
      var r := s.inFlight[e.req];
      Finish(if e.outcome.FailsUndone? then s else s.(refresh := Rotate(s.refresh, r.oldId, r.newId)), e.req)
  }

  function DoRevoke(s: System, e: Event): System
    requires e.RevokeGrant?
  {
    if e.req !in s.inFlight || !s.inFlight[e.req].ToRevoke? then s
    else
      var r := s.inFlight[e.req];
      Finish(if e.outcome.FailsUndone? then s else s.(refresh := RevokeAll(s.refresh, r.userId, r.clientId)), e.req)
  }

  function Apply(s: System, e: Event): System {
    match e
    case AuthorizeDecision(_, _, _, _, _) => DoAuthorize(s, e)
    case FindCode(_, _, _) => DoFindCode(s, e)
    case ConsumeCode(_, _) => DoConsume(s, e)
    case FindRefresh(_, _, _) => DoFindRefresh(s, e)
    case InsertRefresh(_, _, _, _) => DoInsert(s, e)
    case RotateRefresh(_, _) => DoRotate(s, e)
    case RevokeGrant(_, _) => DoRevoke(s, e)
    case Disconnect(userId, clientId) => s.(refresh := RevokeAll(s.refresh, userId, clientId))
    case Tick(seconds) => s.(now := s.now + seconds)
  }

  /** The state after an interleaving. */
  function Exec(s: System, events: seq<Event>): System {
    if events == [] then s else Apply(Exec(s, events[..|events| - 1]), events[|events| - 1])
  }
}
