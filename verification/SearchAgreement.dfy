/** What sealing does to the answers of transaction queries. */
module SearchAgreement {
  import opened Seqs
  import opened Sealing
  import opened SealSweep
  import Text
  import opened SqlLike
  import opened TransactionSearch

  /** What a client is sent of a row: no sealed columns. */
  datatype Item = Item(id: string, facts: TxnFacts, accountName: string, text: TxnText)

  function Shown(r: Enriched): Item {
    Item(r.id, r.facts, r.accountName, TxnText(r.rawString, r.merchantName, r.note))
  }

  predicate SameAnswer(a: Answer, b: Answer) {
    if a.Failed? || b.Failed? then a == b
    else Map(Shown, a.items) == Map(Shown, b.items) && a.total == b.total && a.offset == b.offset
  }

  /** The row as a user without keys would have it. */
  function PlainCopy(r: Enriched, key: Key): Enriched {
    RevealRow(r, Unlocked(key, key)).(rawStringEnc := None, merchantNameEnc := None, noteEnc := None,
                                      accountNameEnc := None, accountCustomNameEnc := None)
  }

  function PlainRow(key: Key): Enriched -> Enriched {
    (r: Enriched) => PlainCopy(r, key)
  }

  lemma WindowOfMap<T, U>(f: T -> U, xs: seq<T>, skip: nat, take: nat)
    ensures Window(Map(f, xs), skip, take) == Map(f, Window(xs, skip, take))
  {
  }

  lemma SearchClauseIsFound(r: Enriched, needle: string)
    requires Literal(needle)
    ensures SearchClause(r, needle) <==> Found(r, needle)
  {
    hide SqlFinds, AppFinds;
    LiteralSearchesAgree(r.rawString, needle);
    if r.merchantName.Some? {
      LiteralSearchesAgree(r.merchantName.value, needle);
    }
    if r.note.Some? {
      LiteralSearchesAgree(r.note.value, needle);
    }
  }

  // ---- Without a search the two users are answered alike ----

  lemma PlainRowFacts(r: Enriched, q: Query, key: Key)
    ensures Clauses(PlainCopy(r, key), q.(search := None)) <==> Clauses(r, q.(search := None))
    ensures Shown(PlainCopy(r, key)) == Shown(RevealRow(r, Unlocked(key, key)))
    ensures RevealRow(PlainCopy(r, key), Plaintext) == PlainCopy(r, key)
  {
    assert PlainCopy(r, key).facts == r.facts;
  }

  lemma CandidatesOfPlainRows(rows: seq<Enriched>, q: Query, key: Key)
    ensures Candidates(Map(PlainRow(key), rows), q) == Map(PlainRow(key), Candidates(rows, q))
  {
    hide Clauses;
    forall r | r in rows ensures Selects(q.(search := None))(PlainCopy(r, key)) <==> Selects(q.(search := None))(r) {
      PlainRowFacts(r, q, key);
    }
    FilterOfMap(PlainRow(key), Selects(q.(search := None)), Selects(q.(search := None)), rows);
  }

  lemma SameShown(rows: seq<Enriched>, key: Key)
    ensures Map(Shown, Map(Reveal(Plaintext), Map(PlainRow(key), rows)))
            == Map(Shown, Map(Reveal(Unlocked(key, key)), rows))
  {
  }

  lemma ListingsAgree(rows: seq<Enriched>, q: Query, key: Key)
    requires q.search.None?
    ensures SameAnswer(AnswerOf(rows, q, Unlocked(key, key)), AnswerOf(Map(PlainRow(key), rows), q, Plaintext))
  {
    hide Clauses, Filter, Map;
    CandidatesOfPlainRows(rows, q, key);
    assert q == q.(search := None);
    var hits := Candidates(rows, q);
    var skip, take := NonNegative(Offset(q)), NonNegative(Limit(q));
    WindowOfMap(PlainRow(key), hits, skip, take);
    SameShown(Window(hits, skip, take), key);
  }

  // ---- With one they agree unless the page is malformed or a match lies beyond the cap ----

  /** Whether the text the owner reads in the row matches. */
  function OwnerFinds(key: Key, needle: string): Enriched -> bool {
    (r: Enriched) => Found(RevealRow(r, Unlocked(key, key)), needle)
  }

  lemma SqlHits(rows: seq<Enriched>, q: Query, key: Key)
    requires q.search.Some? && Literal(q.search.value)
    ensures Filter(Selects(q), Map(PlainRow(key), rows))
            == Map(PlainRow(key), Filter(OwnerFinds(key, q.search.value), Candidates(rows, q)))
  {
    var needle, plain := q.search.value, Map(PlainRow(key), rows);
    forall r | r in plain ensures Selects(q)(r) <==> Selects(q.(search := None))(r) && Finds(needle)(r) {
      hide Like, Text.LexBefore, Found, SearchClause;
      SearchClauseIsFound(r, needle);
    }
    hide Clauses, Found;
    FilterTwice(Selects(q.(search := None)), Finds(needle), Selects(q), plain);
    CandidatesOfPlainRows(rows, q, key);
    forall r | r in Candidates(rows, q) ensures Finds(needle)(PlainCopy(r, key)) <==> OwnerFinds(key, needle)(r) {
      SameTextSameFound(r, needle, key);
    }
    FilterOfMap(PlainRow(key), OwnerFinds(key, needle), Finds(needle), Candidates(rows, q));
  }

  lemma SameTextSameFound(r: Enriched, needle: string, key: Key)
    ensures Found(PlainCopy(r, key), needle) <==> Found(RevealRow(r, Unlocked(key, key)), needle)
  {
    hide AppFinds;
  }

  /** The candidates that the capped fetch leaves behind. */
  function BeyondCap(rows: seq<Enriched>, q: Query): seq<Enriched> {
    var all := Candidates(rows, q);
    if |all| <= APP_SEARCH_MAX_ROWS then [] else all[APP_SEARCH_MAX_ROWS..]
  }

  lemma AppHits(rows: seq<Enriched>, q: Query, key: Key)
    requires q.search.Some?
    ensures var owner, needle := Unlocked(key, key), q.search.value;
            Filter(Finds(needle), Map(Reveal(owner), Window(Candidates(rows, q), 0, APP_SEARCH_MAX_ROWS)))
            == Map(Reveal(owner), Filter(OwnerFinds(key, needle), Window(Candidates(rows, q), 0, APP_SEARCH_MAX_ROWS)))
    ensures var mine := OwnerFinds(key, q.search.value);
            Filter(mine, Candidates(rows, q))
            == Filter(mine, Window(Candidates(rows, q), 0, APP_SEARCH_MAX_ROWS)) + Filter(mine, BeyondCap(rows, q))
  {
    hide Found, Clauses;
    var fetched := Window(Candidates(rows, q), 0, APP_SEARCH_MAX_ROWS);
    FilterOfMap(Reveal(Unlocked(key, key)), OwnerFinds(key, q.search.value), Finds(q.search.value), fetched);
    assert Candidates(rows, q) == fetched + BeyondCap(rows, q);
    FilterAppend(OwnerFinds(key, q.search.value), fetched, BeyondCap(rows, q));
  }

  function LateHits(rows: seq<Enriched>, q: Query, key: Key): seq<Enriched>
    requires q.search.Some?
  {
    Filter(OwnerFinds(key, q.search.value), BeyondCap(rows, q))
  }

  ghost predicate NoMatchBeyondCap(rows: seq<Enriched>, q: Query, key: Key)
    requires q.search.Some?
  {
    forall r :: r in BeyondCap(rows, q) ==> !Found(RevealRow(r, Unlocked(key, key)), q.search.value)
  }

  lemma LateHitsEmpty(rows: seq<Enriched>, q: Query, key: Key)
    requires q.search.Some?
    ensures LateHits(rows, q, key) == [] <==> NoMatchBeyondCap(rows, q, key)
  {
    var mine, late := OwnerFinds(key, q.search.value), LateHits(rows, q, key);
    FilterMembers(mine, BeyondCap(rows, q));
    hide Filter, Found, BeyondCap, Reveal;
    if late == [] {
      forall r | r in BeyondCap(rows, q) ensures !Found(RevealRow(r, Unlocked(key, key)), q.search.value) {
        assert !mine(r);
      }
    } else {
      assert late[0] in late && mine(late[0]);
    }
  }

  function EarlyHits(rows: seq<Enriched>, q: Query, key: Key): seq<Enriched>
    requires q.search.Some?
  {
    Filter(OwnerFinds(key, q.search.value), Window(Candidates(rows, q), 0, APP_SEARCH_MAX_ROWS))
  }

  lemma OwnerAnswer(rows: seq<Enriched>, q: Query, key: Key)
    requires q.search.Some?
    ensures var hits, owner := EarlyHits(rows, q, key), Unlocked(key, key);
            AnswerOf(rows, q, owner)
            == Page(Map(Reveal(owner), Window(hits, NonNegative(Offset(q)), NonNegative(Limit(q)))), |hits|, Offset(q))
  {
    AppHits(rows, q, key);
    hide Filter, Clauses, Found, Candidates, Reveal, OwnerFinds, Window;
    WindowOfMap(Reveal(Unlocked(key, key)), EarlyHits(rows, q, key), NonNegative(Offset(q)), NonNegative(Limit(q)));
  }

  lemma PlainAnswer(rows: seq<Enriched>, q: Query, key: Key)
    requires q.search.Some? && Literal(q.search.value)
    ensures var hits := EarlyHits(rows, q, key) + LateHits(rows, q, key);
            AnswerOf(Map(PlainRow(key), rows), q, Plaintext)
            == if Limit(q) < 0 || Offset(q) < 0 then Failed(DatabaseError)
               else Page(Map(Reveal(Plaintext), Map(PlainRow(key), Window(hits, Offset(q), Limit(q)))), |hits|, Offset(q))
  {
    var hits := EarlyHits(rows, q, key) + LateHits(rows, q, key);
    SqlHits(rows, q, key);
    AppHits(rows, q, key);
    hide Filter, Clauses, Found, Candidates, Reveal, PlainRow, OwnerFinds, Window, BeyondCap;
    WindowOfMap(PlainRow(key), hits, NonNegative(Offset(q)), NonNegative(Limit(q)));
  }

  /**
   * For a needle without LIKE metacharacters the search over sealed rows answers as the SQL search
   * over the same rows in plain text would, exactly if the page is one the database accepts and
   * no candidate beyond the cap matches.
   */
  lemma SearchesAgreeExactlyWhen(rows: seq<Enriched>, q: Query, key: Key)
    requires q.search.Some? && Literal(q.search.value)
    ensures SameAnswer(AnswerOf(rows, q, Unlocked(key, key)), AnswerOf(Map(PlainRow(key), rows), q, Plaintext))
            <==> Limit(q) >= 0 && Offset(q) >= 0 && NoMatchBeyondCap(rows, q, key)
  {
    hide LateHits, EarlyHits, AnswerOf, Limit, Offset, Literal, NoMatchBeyondCap, Map, Window, Reveal, PlainRow, Shown;
    var hits, late := EarlyHits(rows, q, key), LateHits(rows, q, key);
    OwnerAnswer(rows, q, key);
    PlainAnswer(rows, q, key);
    LateHitsEmpty(rows, q, key);
    if Limit(q) >= 0 && Offset(q) >= 0 {
      if late == [] {
        assert hits + late == hits;
        SameShown(Window(hits, Offset(q), Limit(q)), key);
      }
    }
  }

  /** Within the cap a caller need only look at the page it asks for. */
  lemma SearchesAgreeWithinCap(rows: seq<Enriched>, q: Query, key: Key)
    requires q.search.Some? && Literal(q.search.value)
    requires |Candidates(rows, q)| <= APP_SEARCH_MAX_ROWS
    ensures SameAnswer(AnswerOf(rows, q, Unlocked(key, key)), AnswerOf(Map(PlainRow(key), rows), q, Plaintext))
            <==> Limit(q) >= 0 && Offset(q) >= 0
  {
    SearchesAgreeExactlyWhen(rows, q, key);
    hide AnswerOf, SameAnswer, Candidates, Found;
  }

  // ---- Other needles ----

  function NeedleOnly(needle: string): Query {
    Query(None, None, None, None, None, None, None, Some(needle), None)
  }

  function OneRow(text: string): seq<Enriched> {
    [Enriched("", TxnFacts("", "", 0, false, None, None), "", None, None, text, None, None, None, None, None)]
  }

  /** The two searches agree on all rows within the cap exactly for needles without LIKE metacharacters. */
  lemma NeedlesMustBeLiteral(needle: string, key: Key)
    ensures (forall rows :: |rows| <= APP_SEARCH_MAX_ROWS ==>
               SameAnswer(AnswerOf(rows, NeedleOnly(needle), Unlocked(key, key)),
                          AnswerOf(Map(PlainRow(key), rows), NeedleOnly(needle), Plaintext)))
            <==> Literal(needle)
  {
    var q := NeedleOnly(needle);
    if Literal(needle) {
      forall rows | |rows| <= APP_SEARCH_MAX_ROWS
        ensures SameAnswer(AnswerOf(rows, q, Unlocked(key, key)), AnswerOf(Map(PlainRow(key), rows), q, Plaintext))
      {
        FilterShortens(Selects(q.(search := None)), rows);
        SearchesAgreeWithinCap(rows, q, key);
      }
    } else {
      SearchesAgreeExactlyOnLiterals(needle);
      var text :| SqlFinds(text, needle) != AppFinds(text, needle);
      OneRowTotals(text, needle, key);
    }
  }

  lemma {:induction false} FilterShortens<T>(keep: T -> bool, xs: seq<T>)
    ensures |Filter(keep, xs)| <= |xs|
  {
    if xs == [] {
    } else {
      FilterShortens(keep, xs[1..]);
    }
  }

  lemma OneRowTotals(text: string, needle: string, key: Key)
    requires SqlFinds(text, needle) != AppFinds(text, needle)
    ensures !SameAnswer(AnswerOf(OneRow(text), NeedleOnly(needle), Unlocked(key, key)),
                        AnswerOf(Map(PlainRow(key), OneRow(text)), NeedleOnly(needle), Plaintext))
  {
    hide SqlFinds, AppFinds;
    var rows, q := OneRow(text), NeedleOnly(needle);
    var owner := Unlocked(key, key);
    assert PlainRow(key)(rows[0]) == rows[0] && RevealRow(rows[0], owner) == rows[0];
    assert Map(PlainRow(key), rows) == rows && Map(Reveal(owner), rows) == rows;
    SingletonFilter(Selects(q.(search := None)), rows[0]);
    SingletonFilter(Selects(q), rows[0]);
    SingletonFilter(Finds(needle), rows[0]);
  }

  lemma SingletonFilter<T>(keep: T -> bool, x: T)
    ensures Filter(keep, [x]) == if keep(x) then [x] else []
  {
  }

  // ---- Opting in ----

  /** A stored transaction with its account, as the listing query joins them. */
  datatype Stored = Stored(id: string, txn: TxnRow, account: AccountRow)

  function Joined(s: Stored): Enriched {
    Enriched(s.id, s.txn.facts, s.account.customName.GetOr(s.account.name), s.account.nameEnc, s.account.customNameEnc,
             s.txn.rawString, s.txn.rawStringEnc, s.txn.merchantName, s.txn.merchantNameEnc, s.txn.note, s.txn.noteEnc)
  }

  function SealStored(pk: Key): Stored -> Stored {
    (s: Stored) => Stored(s.id, SealTxn(s.txn, pk), SealAccount(s.account, pk))
  }

  lemma SealedRowReadsAsPlain(s: Stored, key: Key)
    requires PlainTxn(s.txn) && PlainAccount(s.account)
    ensures PlainCopy(Joined(SealStored(key)(s)), key) == Joined(s)
  {
  }

  /** A user who opts in keeps getting the answers of before, searches of at most 20,000 candidates included. */
  lemma SealingKeepsAnswers(stored: seq<Stored>, q: Query, key: Key)
    requires forall s :: s in stored ==> PlainTxn(s.txn) && PlainAccount(s.account)
    requires q.search.Some? ==> Literal(q.search.value) && Limit(q) >= 0 && Offset(q) >= 0
    requires q.search.Some? ==> |Candidates(Map(Joined, stored), q)| <= APP_SEARCH_MAX_ROWS
    ensures SameAnswer(AnswerOf(Map(Joined, Map(SealStored(key), stored)), q, Unlocked(key, key)),
                       AnswerOf(Map(Joined, stored), q, Plaintext))
  {
    var plain, after := Map(Joined, stored), Map(Joined, Map(SealStored(key), stored));
    forall i | 0 <= i < |stored| ensures PlainRow(key)(after[i]) == plain[i] {
      assert stored[i] in stored;
      SealedRowReadsAsPlain(stored[i], key);
    }
    assert Map(PlainRow(key), after) == plain;
    CandidatesOfPlainRows(after, q, key);
    hide Clauses, Candidates, AnswerOf, SameAnswer, Like;
    if q.search.Some? {
      SearchesAgreeWithinCap(after, q, key);
    } else {
      ListingsAgree(after, q, key);
    }
  }

  /** Without the key no sealed text is listed, and searching is refused. */
  lemma LockedUserSeesPlaceholders(rows: seq<Enriched>, q: Query, pk: Key)
    requires forall r :: r in rows ==>
               r.rawStringEnc.Some? && r.accountNameEnc.Some?
               && (r.merchantName.Some? ==> r.merchantNameEnc.Some?) && (r.note.Some? ==> r.noteEnc.Some?)
    ensures q.search.Some? ==> AnswerOf(rows, q, UserCrypto.Locked(pk)) == Failed(Forbidden)
    ensures var answer := AnswerOf(rows, q, UserCrypto.Locked(pk));
            answer.Page? ==> forall r :: r in answer.items ==>
              && r.rawString == LOCKED_PLACEHOLDER && r.accountName == LOCKED_PLACEHOLDER
              && (r.merchantName.Some? ==> r.merchantName == Some(LOCKED_PLACEHOLDER))
              && (r.note.Some? ==> r.note == Some(LOCKED_PLACEHOLDER))
  {
    var crypto := UserCrypto.Locked(pk);
    var answer := AnswerOf(rows, q, crypto);
    FilterMembers(Selects(q), rows);
    hide Filter, Clauses;
    if answer.Page? {
      var page := Window(Filter(Selects(q), rows), Offset(q), Limit(q));
      assert forall i :: 0 <= i < |page| ==> page[i] in Filter(Selects(q), rows);
      assert answer.items == Map(Reveal(crypto), page);
    }
  }
}
