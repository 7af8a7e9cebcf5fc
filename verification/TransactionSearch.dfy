/** Listing and searching transactions: in SQL for plain rows, after decryption for sealed ones. */
module TransactionSearch {
  import opened Seqs
  import opened Sealing
  import SealSweep
  import Text
  import SqlLike

  const APP_SEARCH_MAX_ROWS := 20000

  /** A row of the listing query, its sealed columns beside the plain ones. */
  datatype Enriched = Enriched(
    id: string, facts: SealSweep.TxnFacts,
    accountName: string, accountNameEnc: Option<Blob>, accountCustomNameEnc: Option<Blob>,
    rawString: string, rawStringEnc: Option<Blob>,
    merchantName: Option<string>, merchantNameEnc: Option<Blob>,
    note: Option<string>, noteEnc: Option<Blob>)

  datatype Query = Query(
    limit: Option<int>, offset: Option<int>, since: Option<string>, until: Option<string>,
    accountId: Option<string>, category: Option<string>, tag: Option<string>, search: Option<string>,
    pending: Option<bool>)

  datatype Failure = Forbidden | DatabaseError

  datatype Answer = Page(items: seq<Enriched>, total: int, offset: int) | Failed(why: Failure)

  function Limit(q: Query): int {
    var limit := q.limit.GetOr(200);
    if limit <= 1000 then limit else 1000
  }

  function Offset(q: Query): int {
    q.offset.GetOr(0)
  }

  // ---- The SQL side ----

  /** A truth value of SQL, None being NULL. */
  function Or(a: Option<bool>, b: Option<bool>): Option<bool> {
    if a == Some(true) || b == Some(true) then Some(true)
    else if a == None || b == None then None
    else Some(false)
  }

  function FindsIn(column: Option<string>, needle: string): Option<bool> {
    if column.Some? then Some(SqlLike.SqlFinds(column.value, needle)) else None
  }

  predicate SearchClause(r: Enriched, needle: string) {
    Or(Or(Some(SqlLike.SqlFinds(r.rawString, needle)), FindsIn(r.merchantName, needle)), FindsIn(r.note, needle)) == Some(true)
  }

  predicate TagClause(tags: Option<string>, tag: string) {
    SqlLike.Like("," + tags.GetOr("") + ",", "%," + tag + ",%")
  }

  predicate Clauses(r: Enriched, q: Query) {
    && (q.since.Some? ==> !Text.LexBefore(r.facts.date, q.since.value))
    && (q.until.Some? ==> !Text.LexBefore(q.until.value, r.facts.date))
    && (q.accountId.Some? ==> r.facts.accountId == q.accountId.value)
    && (q.category.Some? ==> r.facts.category == q.category)
    && (q.tag.Some? ==> TagClause(r.facts.tags, q.tag.value))
    && (q.search.Some? ==> SearchClause(r, q.search.value))
    && (q.pending.Some? ==> r.facts.pending == q.pending.value)
  }

  function Selects(q: Query): Enriched -> bool {
    (r: Enriched) => Clauses(r, q)
  }

  /** `take` elements after the first `skip`, or as many as there are. */
  function Window<T>(xs: seq<T>, skip: nat, take: nat): seq<T> {
    var rest := if skip <= |xs| then xs[skip..] else [];
    if take <= |rest| then rest[..take] else rest
  }

  /** LIMIT and OFFSET, which a database refuses when negative. */
  function Select(rows: seq<Enriched>, q: Query, limit: int, offset: int): Option<seq<Enriched>> {
    if limit < 0 || offset < 0 then None else Some(Window(Filter(Selects(q), rows), offset, limit))
  }

  function Count(rows: seq<Enriched>, q: Query): int {
    |Filter(Selects(q), rows)|
  }

  // ---- The application side ----

  /** COALESCE(custom name, name), read from the sealed columns where there are any. */
  function OpenAccountName(r: Enriched, crypto: UserCrypto): string {
    OpenInto(r.accountName, SealSweep.OrElse(r.accountCustomNameEnc, r.accountNameEnc), crypto)
  }

  function RevealRow(r: Enriched, crypto: UserCrypto): Enriched {
    if crypto.Plaintext? then r
    else r.(rawString := OpenInto(r.rawString, r.rawStringEnc, crypto),
            merchantName := OpenIntoOpt(r.merchantName, r.merchantNameEnc, crypto),
            note := OpenIntoOpt(r.note, r.noteEnc, crypto),
            accountName := OpenAccountName(r, crypto))
  }

  function Reveal(crypto: UserCrypto): Enriched -> Enriched {
    (r: Enriched) => RevealRow(r, crypto)
  }

  predicate Found(r: Enriched, needle: string) {
    || SqlLike.AppFinds(r.rawString, needle)
    || (r.merchantName.Some? && SqlLike.AppFinds(r.merchantName.value, needle))
    || (r.note.Some? && SqlLike.AppFinds(r.note.value, needle))
  }

  function Finds(needle: string): Enriched -> bool {
    (r: Enriched) => Found(r, needle)
  }

  method RevealAll(items: array<Enriched>, crypto: UserCrypto)
    modifies items
    ensures items[..] == Map(Reveal(crypto), old(items[..]))
  {
    ghost var was := items[..];
    if crypto.Plaintext? {
      assert Map(Reveal(crypto), was) == was;
      return;
    }
    for i := 0 to items.Length
      invariant forall k :: 0 <= k < i ==> items[k] == Reveal(crypto)(was[k])
      invariant forall k :: i <= k < items.Length ==> items[k] == was[k]
    {
      var r := items[i];
      items[i] := items[i].(rawString := OpenInto(r.rawString, r.rawStringEnc, crypto));
      items[i] := items[i].(merchantName := OpenIntoOpt(r.merchantName, r.merchantNameEnc, crypto));
      items[i] := items[i].(note := OpenIntoOpt(r.note, r.noteEnc, crypto));
      var enc := if r.accountCustomNameEnc.Some? then r.accountCustomNameEnc else r.accountNameEnc;
      if enc.Some? {
        items[i] := items[i].(accountName := Open(crypto, enc.value));
      }
    }
  }

  method Retain(items: array<Enriched>, needle: string) returns (kept: seq<Enriched>)
    ensures kept == Filter(Finds(needle), items[..])
  {
    kept := [];
    for i := 0 to items.Length
      invariant kept == Filter(Finds(needle), items[..i])
    {
      assert items[..i + 1] == items[..i] + [items[i]];
      FilterSnoc(Finds(needle), items[..i], items[i]);
      if Found(items[i], needle) {
        kept := kept + [items[i]];
      }
    }
    assert items[..] == items[..items.Length];
  }

  function NonNegative(n: int): nat {
    if n < 0 then 0 else n
  }

  function Candidates(rows: seq<Enriched>, q: Query): seq<Enriched> {
    Filter(Selects(q.(search := None)), rows)
  }

  function SqlAnswer(rows: seq<Enriched>, q: Query, crypto: UserCrypto): Answer {
    var page := Select(rows, q, Limit(q), Offset(q));
    if page.Some? then Page(Map(Reveal(crypto), page.value), Count(rows, q), Offset(q)) else Failed(DatabaseError)
  }

  function AppAnswer(rows: seq<Enriched>, q: Query, crypto: UserCrypto): Answer
    requires q.search.Some?
  {
    var fetched := Window(Candidates(rows, q), 0, APP_SEARCH_MAX_ROWS);
    var hits := Filter(Finds(q.search.value), Map(Reveal(crypto), fetched));
    Page(Window(hits, NonNegative(Offset(q)), NonNegative(Limit(q))), |hits|, Offset(q))
  }

  function AnswerOf(rows: seq<Enriched>, q: Query, crypto: UserCrypto): Answer {
    if q.search.Some? && !crypto.Plaintext? then
      (if crypto.Locked? then Failed(Forbidden) else AppAnswer(rows, q, crypto))
    else SqlAnswer(rows, q, crypto)
  }

  /** `rows` are the user's rows in the order in which the database lists them, newest first. */
  method InnerGetTransactions(rows: seq<Enriched>, q: Query, crypto: UserCrypto) returns (answer: Answer)
    ensures answer == AnswerOf(rows, q, crypto)
  {
    var limit, offset := Limit(q), Offset(q);
    var appSide := q.search.Some? && !crypto.Plaintext?;
    if appSide && crypto.Locked? {
      return Failed(Forbidden);
    }
    var sqlQuery := if appSide then q.(search := None) else q;
    var total := Count(rows, sqlQuery);
    var fetched := if appSide then Select(rows, sqlQuery, APP_SEARCH_MAX_ROWS, 0) else Select(rows, sqlQuery, limit, offset);
    if fetched.None? {
      return Failed(DatabaseError);
    }
    var page := fetched.value;
    var items := new Enriched[|page|](i requires 0 <= i < |page| => page[i]);
    assert items[..] == page;
    RevealAll(items, crypto);
    if appSide {
      var hits := Retain(items, q.search.value);
      return Page(Window(hits, NonNegative(offset), NonNegative(limit)), |hits|, offset);
    }
    answer := Page(items[..], total, offset);
  }
}
