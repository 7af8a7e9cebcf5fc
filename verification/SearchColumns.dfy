/** Which transactions a query answers with, in the columns of the rows. */
module SearchColumns {
  import opened Seqs
  import opened Sealing
  import opened SealSweep
  import Text
  import DateText
  import opened SqlLike
  import opened TransactionSearch

  // ---- The rows a query asks for ----

  predicate AtOrAfter(date: string, since: string) {
    date == since || Text.LexBefore(since, date)
  }

  /** For a tag or needle without LIKE metacharacters the pattern is a substring test. */
  predicate HasTag(tags: Option<string>, tag: string) {
    if Literal(tag) then Text.Contains("," + tags.GetOr("") + ",", "," + tag + ",") else TagClause(tags, tag)
  }

  predicate Mentions(text: string, needle: string) {
    Text.Contains(Lower(text), Lower(needle))
  }

  predicate AnyMentions(raw: string, merchant: Option<string>, note: Option<string>, needle: string) {
    || Mentions(raw, needle)
    || (merchant.Some? && Mentions(merchant.value, needle)) || (note.Some? && Mentions(note.value, needle))
  }

  /** All that the query names, its search included. */
  function AskedFor(q: Query): Enriched -> bool {
    (r: Enriched) =>
      && (q.since.Some? ==> AtOrAfter(r.facts.date, q.since.value))
      && (q.until.Some? ==> AtOrAfter(q.until.value, r.facts.date))
      && (q.accountId.Some? ==> q.accountId.value == r.facts.accountId)
      && (q.category.Some? ==> r.facts.category == Some(q.category.value))
      && (q.pending.Some? ==> q.pending.value == r.facts.pending)
      && (q.tag.Some? ==> HasTag(r.facts.tags, q.tag.value))
      && (q.search.Some? ==>
            if Literal(q.search.value) then AnyMentions(r.rawString, r.merchantName, r.note, q.search.value)
            else SearchClause(r, q.search.value))
  }

  lemma TagIsLike(tags: Option<string>, tag: string)
    ensures HasTag(tags, tag) <==> TagClause(tags, tag)
  {
    if Literal(tag) {
      var needle := "," + tag + ",";
      assert "%," + tag + ",%" == "%" + needle + "%";
      LikeAround("," + tags.GetOr("") + ",", needle);
    }
  }

  lemma SearchIsMention(r: Enriched, needle: string)
    requires Literal(needle)
    ensures SearchClause(r, needle) <==> AnyMentions(r.rawString, r.merchantName, r.note, needle)
  {
    hide SqlFinds, Text.Contains;
    LiteralSearchesAgree(r.rawString, needle);
    if r.merchantName.Some? {
      LiteralSearchesAgree(r.merchantName.value, needle);
    }
    if r.note.Some? {
      LiteralSearchesAgree(r.note.value, needle);
    }
  }

  lemma LaterOrSame(a: string, b: string)
    ensures AtOrAfter(a, b) <==> !Text.LexBefore(a, b)
  {
    hide Text.LexBefore;
    DateText.LexTotal(a, b);
    DateText.LexIrreflexive(a);
    if Text.LexBefore(a, b) && Text.LexBefore(b, a) {
      DateText.LexTransitive(a, b, a);
    }
  }

  lemma ClausesAskFor(r: Enriched, q: Query)
    ensures Selects(q)(r) <==> AskedFor(q)(r)
  {
    hide SearchClause, TagClause, HasTag, AtOrAfter, Text.LexBefore, AnyMentions, Literal;
    if q.since.Some? {
      LaterOrSame(r.facts.date, q.since.value);
    }
    if q.until.Some? {
      LaterOrSame(q.until.value, r.facts.date);
    }
    if q.tag.Some? {
      TagIsLike(r.facts.tags, q.tag.value);
    }
    if q.search.Some? && Literal(q.search.value) {
      SearchIsMention(r, q.search.value);
    }
  }

  lemma {:induction false} SameFilter<T>(a: T -> bool, b: T -> bool, xs: seq<T>)
    requires forall x :: x in xs ==> (a(x) <==> b(x))
    ensures Filter(a, xs) == Filter(b, xs)
  {
    if xs != [] {
      SameFilter(a, b, xs[1..]);
    }
  }

  lemma SelectedIsAsked(rows: seq<Enriched>, q: Query)
    ensures Filter(Selects(q), rows) == Filter(AskedFor(q), rows)
  {
    hide Clauses, Filter;
    forall r | r in rows ensures Selects(q)(r) <==> AskedFor(q)(r) {
      ClausesAskFor(r, q);
    }
    SameFilter(Selects(q), AskedFor(q), rows);
  }

  // ---- What is shown of a row ----

  /** The plain text where nothing is sealed, else what the key opens. */
  function Reads(plain: string, enc: Option<Blob>, key: Option<Key>): string {
    if enc == None then plain
    else if enc.value.Sealed? && key == Some(enc.value.owner) then enc.value.text
    else "[locked]"
  }

  function ReadsOpt(plain: Option<string>, enc: Option<Blob>, key: Option<Key>): Option<string> {
    if enc == None then plain else Some(Reads("", enc, key))
  }

  /** A user without keys is shown the row; another what its key opens, the custom name of an account first. */
  predicate ShownOf(item: Enriched, r: Enriched, crypto: UserCrypto) {
    if crypto.Plaintext? then item == r
    else
      var key := if crypto.Unlocked? then Some(crypto.secret) else None;
      && item.id == r.id && item.facts == r.facts
      && item.rawString == Reads(r.rawString, r.rawStringEnc, key)
      && item.merchantName == ReadsOpt(r.merchantName, r.merchantNameEnc, key)
      && item.note == ReadsOpt(r.note, r.noteEnc, key)
      && item.accountName
         == Reads(r.accountName, if r.accountCustomNameEnc.Some? then r.accountCustomNameEnc else r.accountNameEnc, key)
  }

  lemma RevealedIsShown(r: Enriched, crypto: UserCrypto)
    ensures ShownOf(RevealRow(r, crypto), r, crypto)
  {
  }

  /** `items` are the rows of `all` behind the first `skip`, at most `take`, as the user is shown them. */
  ghost predicate IsPage(items: seq<Enriched>, all: seq<Enriched>, skip: int, take: int, crypto: UserCrypto)
    requires skip >= 0
  {
    && |items| == (if |all| <= skip then 0 else if |all| - skip <= take then |all| - skip else take)
    && forall i :: 0 <= i < |items| ==> ShownOf(items[i], all[skip + i], crypto)
  }

  lemma WindowIsPage(all: seq<Enriched>, skip: nat, take: nat, crypto: UserCrypto)
    ensures IsPage(Map(Reveal(crypto), Window(all, skip, take)), all, skip, take, crypto)
  {
    hide ShownOf, RevealRow;
    var shown := Window(all, skip, take);
    forall i | 0 <= i < |shown| ensures ShownOf(RevealRow(shown[i], crypto), all[skip + i], crypto) {
      RevealedIsShown(all[skip + i], crypto);
    }
  }

  // ---- The answers ----

  /** 200 rows unless the query says otherwise, and never more than 1000. */
  function PageSize(q: Query): int {
    match q.limit
    case None => 200
    case Some(n) => if n < 1000 then n else 1000
  }

  /** A listing, or a search by a user without keys: just the rows asked for, page by page, and how many they are. */
  lemma ListingInColumns(rows: seq<Enriched>, q: Query, crypto: UserCrypto)
    requires q.search.None? || crypto.Plaintext?
    ensures var answer, asked, skip := AnswerOf(rows, q, crypto), Filter(AskedFor(q), rows), q.offset.GetOr(0);
            if PageSize(q) < 0 || skip < 0 then answer == Failed(DatabaseError)
            else answer.Page? && answer.total == |asked| && answer.offset == skip
                 && IsPage(answer.items, asked, skip, PageSize(q), crypto)
  {
    hide Filter, Reveal, Window, IsPage;
    SelectedIsAsked(rows, q);
    if PageSize(q) >= 0 && q.offset.GetOr(0) >= 0 {
      WindowIsPage(Filter(AskedFor(q), rows), q.offset.GetOr(0), PageSize(q), crypto);
    }
  }

  /** The texts the owner reads in the row mention the needle. */
  function OwnerMentions(key: Key, needle: string): Enriched -> bool {
    (r: Enriched) =>
      AnyMentions(Reads(r.rawString, r.rawStringEnc, Some(key)), ReadsOpt(r.merchantName, r.merchantNameEnc, Some(key)),
                  ReadsOpt(r.note, r.noteEnc, Some(key)), needle)
  }

  function FirstOf(rows: seq<Enriched>, n: nat): seq<Enriched> {
    if |rows| <= n then rows else rows[..n]
  }

  function AtLeastZero(n: int): nat {
    if n <= 0 then 0 else n
  }

  /** A search by the owner of sealed rows: of the first 20,000 rows asked for, those that mention the needle. */
  lemma SearchInColumns(rows: seq<Enriched>, q: Query, key: Key)
    requires q.search.Some?
    ensures var answer, asked := AnswerOf(rows, q, Unlocked(key, key)), Filter(AskedFor(q.(search := None)), rows);
            var hits := Filter(OwnerMentions(key, q.search.value), FirstOf(asked, 20000));
            && answer.Page? && answer.total == |hits| && answer.offset == q.offset.GetOr(0)
            && IsPage(answer.items, hits, AtLeastZero(q.offset.GetOr(0)), AtLeastZero(PageSize(q)), Unlocked(key, key))
  {
    hide Filter, Reveal, IsPage, Clauses, Found, OwnerMentions;
    var owner, needle := Unlocked(key, key), q.search.value;
    var first := FirstOf(Filter(AskedFor(q.(search := None)), rows), 20000);
    var hits := Filter(OwnerMentions(key, needle), first);
    SelectedIsAsked(rows, q.(search := None));
    assert Window(Candidates(rows, q), 0, APP_SEARCH_MAX_ROWS) == first;
    forall r | r in first ensures Finds(needle)(Reveal(owner)(r)) <==> OwnerMentions(key, needle)(r) {
      OwnerFindsMentions(r, key, needle);
    }
    FilterOfMap(Reveal(owner), OwnerMentions(key, needle), Finds(needle), first);
    WindowOfMapped(owner, hits, AtLeastZero(q.offset.GetOr(0)), AtLeastZero(PageSize(q)));
    WindowIsPage(hits, AtLeastZero(q.offset.GetOr(0)), AtLeastZero(PageSize(q)), owner);
  }

  lemma OwnerFindsMentions(r: Enriched, key: Key, needle: string)
    ensures Finds(needle)(Reveal(Unlocked(key, key))(r)) <==> OwnerMentions(key, needle)(r)
  {
    hide Text.Contains;
  }

  lemma WindowOfMapped(crypto: UserCrypto, rows: seq<Enriched>, skip: nat, take: nat)
    ensures Window(Map(Reveal(crypto), rows), skip, take) == Map(Reveal(crypto), Window(rows, skip, take))
  {
    hide Reveal;
  }

  /** Whatever is listed was asked for: dates in range, account, category and pending flag as named, and so on. */
  lemma ItemsWereAskedFor(rows: seq<Enriched>, q: Query, crypto: UserCrypto)
    requires AnswerOf(rows, q, crypto).Page? && (crypto.Unlocked? ==> crypto.publicKey == crypto.secret)
    ensures forall item :: item in AnswerOf(rows, q, crypto).items ==>
              exists r :: r in rows && ShownOf(item, r, crypto) && AskedFor(q.(search := None))(r)
  {
    hide AskedFor, ShownOf, AnswerOf, Filter, OwnerMentions;
    var answer := AnswerOf(rows, q, crypto);
    if q.search.None? || crypto.Plaintext? {
      var asked := Filter(AskedFor(q), rows);
      ListingInColumns(rows, q, crypto);
      FilterMembers(AskedFor(q), rows);
      PageIsFrom(answer.items, asked, q.offset.GetOr(0), PageSize(q), crypto);
      forall r | AskedFor(q)(r) ensures AskedFor(q.(search := None))(r) {
        SearchNarrows(r, q);
      }
    } else if crypto.Locked? {
      LockedSearchFails(rows, q, crypto);
    } else {
      var asked := Filter(AskedFor(q.(search := None)), rows);
      var hits := Filter(OwnerMentions(crypto.secret, q.search.value), FirstOf(asked, 20000));
      SearchInColumns(rows, q, crypto.secret);
      FilterMembers(AskedFor(q.(search := None)), rows);
      FilterMembers(OwnerMentions(crypto.secret, q.search.value), FirstOf(asked, 20000));
      PageIsFrom(answer.items, hits, AtLeastZero(q.offset.GetOr(0)), AtLeastZero(PageSize(q)), crypto);
    }
  }

  lemma PageIsFrom(items: seq<Enriched>, all: seq<Enriched>, skip: int, take: int, crypto: UserCrypto)
    requires skip >= 0 && IsPage(items, all, skip, take, crypto)
    ensures forall item :: item in items ==> exists r :: r in all && ShownOf(item, r, crypto)
  {
    hide ShownOf;
    forall item | item in items ensures exists r :: r in all && ShownOf(item, r, crypto) {
      var i :| 0 <= i < |items| && items[i] == item;
      assert all[skip + i] in all;
    }
  }

  lemma SearchNarrows(r: Enriched, q: Query)
    requires AskedFor(q)(r)
    ensures AskedFor(q.(search := None))(r)
  {
    hide HasTag, AtOrAfter, AnyMentions, SearchClause;
  }

  lemma LockedSearchFails(rows: seq<Enriched>, q: Query, crypto: UserCrypto)
    requires q.search.Some? && crypto.Locked?
    ensures AnswerOf(rows, q, crypto) == Failed(Forbidden)
  {
  }

  // ---- Splitting at a date ----

  lemma {:induction false} CountsAddUp<T>(a: T -> bool, b: T -> bool, both: T -> bool, either: T -> bool, xs: seq<T>)
    requires forall x :: x in xs ==> (both(x) <==> a(x) && b(x)) && (either(x) <==> a(x) || b(x))
    ensures |Filter(a, xs)| + |Filter(b, xs)| == |Filter(either, xs)| + |Filter(both, xs)|
  {
    if xs != [] {
      CountsAddUp(a, b, both, either, xs[1..]);
    }
  }

  /** The totals since and until a date add up to the total of all dates and that of the date itself. */
  lemma TotalsSplitAtDate(rows: seq<Enriched>, q: Query, crypto: UserCrypto, date: string)
    requires (q.search.None? || crypto.Plaintext?) && q.since == None && q.until == None
    requires PageSize(q) >= 0 && q.offset.GetOr(0) >= 0
    ensures var all, day := AnswerOf(rows, q, crypto), AnswerOf(rows, q.(since := Some(date), until := Some(date)), crypto);
            var since, until := AnswerOf(rows, q.(since := Some(date)), crypto), AnswerOf(rows, q.(until := Some(date)), crypto);
            && all.Page? && day.Page? && since.Page? && until.Page?
            && since.total + until.total == all.total + day.total
  {
    hide Filter, AnswerOf, IsPage;
    var s, u, d := q.(since := Some(date)), q.(until := Some(date)), q.(since := Some(date), until := Some(date));
    ListingInColumns(rows, q, crypto);
    ListingInColumns(rows, s, crypto);
    ListingInColumns(rows, u, crypto);
    ListingInColumns(rows, d, crypto);
    forall r | r in rows
      ensures AskedFor(d)(r) <==> AskedFor(s)(r) && AskedFor(u)(r)
      ensures AskedFor(q)(r) <==> AskedFor(s)(r) || AskedFor(u)(r)
    {
      DatesSplit(r, q, date);
    }
    CountsAddUp(AskedFor(s), AskedFor(u), AskedFor(d), AskedFor(q), rows);
  }

  lemma DatesSplit(r: Enriched, q: Query, date: string)
    requires q.since == None && q.until == None
    ensures var s, u, d := q.(since := Some(date)), q.(until := Some(date)), q.(since := Some(date), until := Some(date));
            && (AskedFor(d)(r) <==> AskedFor(s)(r) && AskedFor(u)(r))
            && (AskedFor(q)(r) <==> AskedFor(s)(r) || AskedFor(u)(r))
  {
    hide HasTag, AnyMentions, SearchClause, Text.LexBefore, Literal;
    DateText.LexTotal(r.facts.date, date);
  }
}
