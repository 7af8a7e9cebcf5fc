/** Bulk edits of transactions: tags and notes, one row at a time, on the user's own rows only. */
module BulkEdits {
  import opened Seqs
  import opened Text
  import opened SqlLike
  import opened Sealing
  import opened SealSweep
  import TransactionSearch
  import opened TagStorage
  import TagQuery

  datatype Action = AddTag | RemoveTag | SetNote | ClearNote

  datatype Edit = Edit(user: string, action: Action, value: Option<string>, crypto: UserCrypto) {
    function Target(): string {
      Trim(value.GetOr(""))
    }

    predicate EditsTags() {
      action.AddTag? || action.RemoveTag?
    }

    /** A blank tag is passed over. */
    predicate Skipped() {
      EditsTags() && Target() == ""
    }
  }

  type Rows = map<string, TxnRow>

  predicate Owned(rows: Rows, id: string, user: string) {
    id in rows && rows[id].owner == user
  }

  function WithTags(r: TxnRow, tags: Option<string>): TxnRow {
    r.(facts := r.facts.(tags := tags))
  }

  function Edited(r: TxnRow, e: Edit): TxnRow {
    match e.action
    case AddTag => WithTags(r, Print(Insert(ParseStored(r.facts.tags), e.Target())))
    case RemoveTag => WithTags(r, Print(Delete(ParseStored(r.facts.tags), e.Target())))
    case SetNote => var (plain, enc) := SealOptional(PublicKey(e.crypto), e.value); r.(note := plain, noteEnc := enc)
    case ClearNote => r.(note := None, noteEnc := None)
  }

  function AfterOne(rows: Rows, id: string, e: Edit): Rows {
    if Owned(rows, id, e.user) && !e.Skipped() then rows[id := Edited(rows[id], e)] else rows
  }

  function AfterAll(rows: Rows, ids: seq<string>, e: Edit): Rows {
    if ids == [] then rows
    else
      var last := |ids| - 1;
      AfterOne(AfterAll(rows, ids[..last], e), ids[last], e)
  }

  /** How many of the ids name a row that is written. */
  function Affected(rows: Rows, ids: seq<string>, e: Edit): nat {
    if ids == [] then 0
    else
      var last := |ids| - 1;
      Affected(rows, ids[..last], e) + (if Owned(rows, ids[last], e.user) && !e.Skipped() then 1 else 0)
  }

  class TransactionTable {
    var rows: Rows

    /** None also when the row is not the user's. */
    method GetTagsOwned(id: string, user: string) returns (tags: Option<string>)
      ensures tags == if Owned(rows, id, user) then rows[id].facts.tags else None
    {
      tags := if Owned(rows, id, user) then rows[id].facts.tags else None;
    }

    method UpdateTagsOwned(tags: Option<string>, id: string, user: string) returns (affected: nat)
      modifies this
      ensures rows == if Owned(old(rows), id, user) then old(rows)[id := WithTags(old(rows)[id], tags)] else old(rows)
      ensures affected == if Owned(old(rows), id, user) then 1 else 0
    {
      affected := 0;
      if Owned(rows, id, user) {
        rows := rows[id := WithTags(rows[id], tags)];
        affected := 1;
      }
    }

    method UpdateNoteOwned(note: Option<string>, noteEnc: Option<Blob>, id: string, user: string) returns (affected: nat)
      modifies this
      ensures rows == if Owned(old(rows), id, user)
                      then old(rows)[id := old(rows)[id].(note := note, noteEnc := noteEnc)] else old(rows)
      ensures affected == if Owned(old(rows), id, user) then 1 else 0
    {
      affected := 0;
      if Owned(rows, id, user) {
        rows := rows[id := rows[id].(note := note, noteEnc := noteEnc)];
        affected := 1;
      }
    }

    method EditOne(id: string, e: Edit) returns (affected: nat)
      modifies this
      ensures rows == AfterOne(old(rows), id, e)
      ensures affected == if Owned(old(rows), id, e.user) && !e.Skipped() then 1 else 0
    {
      match e.action
      case AddTag | RemoveTag =>
        var target := e.Target();
        if target == "" {
          return 0;
        }
        var current := GetTagsOwned(id, e.user);
        var tags := ParseStored(current);
        if e.action.AddTag? {
          if target !in tags {
            tags := tags + [target];
          }
        } else {
          tags := Delete(tags, target);
        }
        affected := UpdateTagsOwned(Print(tags), id, e.user);
      case SetNote =>
        var (plain, enc) := SealOptional(PublicKey(e.crypto), e.value);
        affected := UpdateNoteOwned(plain, enc, id, e.user);
      case ClearNote =>
        affected := UpdateNoteOwned(None, None, id, e.user);
    }

    method BulkUpdate(ids: seq<string>, e: Edit) returns (affected: nat)
      modifies this
      ensures rows == AfterAll(old(rows), ids, e)
      ensures affected == Affected(old(rows), ids, e)
      ensures affected == if e.EditsTags() && Trim(e.value.GetOr("")) == "" then 0
                          else |Filter((id: string) => id in old(rows) && old(rows)[id].owner == e.user, ids)|
    {
      CountsOwned(rows, ids, e);
      affected := 0;
      for k := 0 to |ids|
        invariant rows == AfterAll(old(rows), ids[..k], e)
        invariant affected == Affected(old(rows), ids[..k], e)
      {
        assert ids[..k + 1][..k] == ids[..k] && ids[..k + 1][k] == ids[k];
        OwnershipStays(old(rows), ids[..k], e, ids[k]);
        var one := EditOne(ids[k], e);
        affected := affected + one;
      }
      assert ids[..|ids|] == ids;
    }
  }

  /** The ids that name a row of the user, as often as they do; none for a blank tag. */
  lemma {:induction false} CountsOwned(rows: Rows, ids: seq<string>, e: Edit)
    ensures Affected(rows, ids, e)
         == if e.EditsTags() && Trim(e.value.GetOr("")) == "" then 0
            else |Filter((id: string) => id in rows && rows[id].owner == e.user, ids)|
  {
    if ids != [] {
      var n := |ids| - 1;
      CountsOwned(rows, ids[..n], e);
      assert ids == ids[..n] + [ids[n]];
      FilterSnoc((id: string) => id in rows && rows[id].owner == e.user, ids[..n], ids[n]);
    }
  }

  lemma {:induction false} OwnershipStays(rows: Rows, ids: seq<string>, e: Edit, id: string)
    ensures Owned(AfterAll(rows, ids, e), id, e.user) == Owned(rows, id, e.user)
  {
    if ids == [] {
    } else {
      OwnershipStays(rows, ids[..|ids| - 1], e, id);
    }
  }

  /** Rows that are not the user's, or not named, stay as they are; no row comes or goes. */
  lemma {:induction false} OthersStay(rows: Rows, ids: seq<string>, e: Edit)
    ensures AfterAll(rows, ids, e).Keys == rows.Keys
    ensures forall id :: id in rows && (!Owned(rows, id, e.user) || id !in ids || e.Skipped()) ==>
              AfterAll(rows, ids, e)[id] == rows[id]
  {
    if ids == [] {
    } else {
      var last := |ids| - 1;
      OthersStay(rows, ids[..last], e);
      OwnershipStays(rows, ids[..last], e, ids[last]);
      assert forall id :: id !in ids ==> id !in ids[..last] && id != ids[last];
    }
  }

  /** What the tags column of a named row holds after a tag edit. */
  ghost predicate TagsDone(before: Option<string>, after: Option<string>, e: Edit) {
    && TagSet(after) == (if e.action.AddTag? then TagSet(before) + TagSet(Some(e.Target()))
                         else TagSet(before) - {e.Target()})
    && (',' !in e.Target() ==> Clean(ParseStored(after)) && after == Print(ParseStored(after)))
  }

  lemma OneTagEdit(r: TxnRow, e: Edit)
    requires e.EditsTags() && !e.Skipped()
    ensures TagsDone(r.facts.tags, Edited(r, e).facts.tags, e)
    ensures Edited(r, e) == WithTags(r, Edited(r, e).facts.tags)
  {
    hide Parse, Print, Trim, Filter;
    var tags, target := ParseStored(r.facts.tags), e.Target();
    TrimIsIdempotent(e.value.GetOr(""));
    if r.facts.tags.Some? {
      ParseIsClean(r.facts.tags.value);
    }
    if e.action.AddTag? {
      AddIsInsertion(r.facts.tags, target);
      StorageRoundTrips(Insert(tags, target));
    } else {
      RemoveIsDeletion(r.facts.tags, target);
      FilterMembers((t: string) => t != target, tags);
    }
  }

  /** However often a row is named, its tags become the old ones with the target added, or taken away. */
  lemma {:induction false} BulkTagEdit(rows: Rows, ids: seq<string>, e: Edit, id: string)
    requires e.EditsTags() && !e.Skipped() && id in ids && Owned(rows, id, e.user)
    ensures Owned(AfterAll(rows, ids, e), id, e.user)
    ensures TagsDone(rows[id].facts.tags, AfterAll(rows, ids, e)[id].facts.tags, e)
    ensures AfterAll(rows, ids, e)[id] == WithTags(rows[id], AfterAll(rows, ids, e)[id].facts.tags)
  {
    hide Edited, TagSet;
    var last := |ids| - 1;
    var mid := AfterAll(rows, ids[..last], e);
    OwnershipStays(rows, ids[..last], e, id);
    if id in ids[..last] {
      BulkTagEdit(rows, ids[..last], e, id);
    } else {
      OthersStay(rows, ids[..last], e);
    }
    OneTagEdit(mid[id], e);
  }

  // ---- The tag filter after a bulk edit ----

  /** Piece by piece, the printed list with the target behind it. */
  lemma SplitAfterInsert(tags: seq<string>, target: string)
    requires Clean(tags)
    ensures target !in tags ==>
              Split(Print(Insert(tags, target)).GetOr(""), ',') == tags + Split(target, ',')
    ensures target in tags ==>
              Split(Print(Insert(tags, target)).GetOr(""), ',') == tags && Split(target, ',') == [target]
  {
    hide Split, Trim;
    if target in tags {
      ParseOfJoin(tags);
      TagQuery.SplitOfPiece(target);
    } else if tags == [] {
      assert Join([target], ',') == target;
    } else {
      ParseOfJoin(tags);
      JoinSnoc(tags, target, ',');
      SplitOfTwo(Join(tags, ','), target, ',');
    }
  }

  /** The filter on a row edited once: a target with commas adds its bare pieces. */
  lemma FilterAfterOneEdit(r: TxnRow, e: Edit, tag: string)
    requires e.EditsTags() && !e.Skipped() && IsTag(tag) && Literal(tag)
    ensures TransactionSearch.TagClause(Edited(r, e).facts.tags, tag)
            <==> if e.action.AddTag? then tag in ParseStored(r.facts.tags) || tag in Split(e.Target(), ',')
                 else tag in ParseStored(r.facts.tags) && tag != e.Target()
  {
    var tags, target := ParseStored(r.facts.tags), e.Target();
    if r.facts.tags.Some? {
      ParseIsClean(r.facts.tags.value);
    }
    hide Split, Trim, TransactionSearch.TagClause, Filter, Parse;
    if e.action.AddTag? {
      SplitAfterInsert(tags, target);
      TagQuery.TagClauseIsPiece(Print(Insert(tags, target)), tag);
    } else {
      FilterMembers((t: string) => t != target, tags);
      TagQuery.TagFilterIsMembership(Delete(tags, target), tag);
    }
  }

  /** A bare piece that is a tag is one of the tags its text parses to. */
  lemma BarePieceIsParsed(text: string, tag: string)
    requires IsTag(tag) && tag in Split(text, ',')
    ensures tag in Parse(text)
  {
    hide Split, Trim, Filter;
    var pieces := Split(text, ',');
    var i :| 0 <= i < |pieces| && pieces[i] == tag;
    assert Map(Trim, pieces)[i] == tag;
    FilterMembers((t: string) => t != "", Map(Trim, pieces));
  }

  lemma {:induction false} TimesNamed(ids: seq<string>, id: string)
    ensures id in ids <==> multiset(ids)[id] >= 1
    ensures ids != [] ==> multiset(ids)[id] == multiset(ids[..|ids| - 1])[id] + if ids[|ids| - 1] == id then 1 else 0
  {
    if ids != [] {
      assert ids == ids[..|ids| - 1] + [ids[|ids| - 1]];
    }
  }

  /**
   * After a bulk edit the filter finds the row by its old tags and the target's bare pieces, and
   * by all tags of the target if the row was named again; after a removal by the others.
   */
  lemma {:induction false} FilterAfterBulkEdit(rows: Rows, ids: seq<string>, e: Edit, id: string, tag: string)
    requires e.EditsTags() && !e.Skipped()
    requires id in ids && Owned(rows, id, e.user)
    requires IsTag(tag) && Literal(tag)
    ensures id in AfterAll(rows, ids, e)
    ensures TransactionSearch.TagClause(AfterAll(rows, ids, e)[id].facts.tags, tag)
            <==> if e.action.AddTag? then
                   || tag in ParseStored(rows[id].facts.tags) || tag in Split(e.Target(), ',')
                   || (multiset(ids)[id] > 1 && tag in Parse(e.Target()))
                 else tag in ParseStored(rows[id].facts.tags) && tag != e.Target()
  {
    hide Edited, TransactionSearch.TagClause, ParseStored, Parse, Split, Trim, Literal, IsTag;
    var last := |ids| - 1;
    var mid := AfterAll(rows, ids[..last], e);
    TimesNamed(ids, id);
    OwnershipStays(rows, ids[..last], e, id);
    if ids[last] != id {
      FilterAfterBulkEdit(rows, ids[..last], e, id, tag);
    } else {
      FilterAfterOneEdit(mid[id], e, tag);
      if id in ids[..last] {
        TimesNamed(ids[..last], id);
        BulkTagEdit(rows, ids[..last], e, id);
        ParsedAfterBulkEdit(rows[id].facts.tags, mid[id].facts.tags, e, tag);
        if tag in Split(e.Target(), ',') {
          BarePieceIsParsed(e.Target(), tag);
        }
      } else {
        OthersStay(rows, ids[..last], e);
        assert id !in multiset(ids[..last]);
      }
    }
  }

  lemma ParsedAfterBulkEdit(before: Option<string>, after: Option<string>, e: Edit, tag: string)
    requires TagsDone(before, after, e)
    ensures tag in ParseStored(after)
            <==> if e.action.AddTag? then tag in ParseStored(before) || tag in Parse(e.Target())
                 else tag in ParseStored(before) && tag != e.Target()
  {
    hide Parse, Print, Trim, Clean;
    assert tag in TagSet(after) <==> tag in ParseStored(after);
    assert tag in TagSet(before) <==> tag in ParseStored(before);
    assert tag in TagSet(Some(e.Target())) <==> tag in Parse(e.Target());
  }

  /** Filter and parser find the same tags, of those the filter can express. */
  ghost predicate FilterAgrees(tags: Option<string>) {
    forall tag :: IsTag(tag) && Literal(tag) ==> (TransactionSearch.TagClause(tags, tag) <==> tag in ParseStored(tags))
  }

  /** Each tag the target parses to is there already or stands bare between its commas. */
  predicate PiecesAreBare(tags: seq<string>, target: string) {
    forall p :: p in Split(target, ',') && Trim(p) != "" && Literal(Trim(p)) ==>
      Trim(p) in tags || Trim(p) in Split(target, ',')
  }

  lemma ParsedFromPiece(text: string, tag: string)
    ensures tag in Parse(text) <==> tag != "" && exists p :: p in Split(text, ',') && Trim(p) == tag
  {
    hide Split, Trim, Filter;
    var pieces := Split(text, ',');
    FilterMembers((t: string) => t != "", Map(Trim, pieces));
    if tag in Map(Trim, pieces) {
      var i :| 0 <= i < |pieces| && Map(Trim, pieces)[i] == tag;
      assert pieces[i] in pieces;
    }
    if p :| p in pieces && Trim(p) == tag {
      var i :| 0 <= i < |pieces| && pieces[i] == p;
      assert Map(Trim, pieces)[i] == tag;
    }
  }

  /**
   * After a bulk edit filter and parser agree on the row, unless it was named once only and the
   * target has a tag with white space at its commas that is not otherwise there.
   */
  lemma FilterAgreesAfterBulkEditExactlyWhen(rows: Rows, ids: seq<string>, e: Edit, id: string)
    requires e.EditsTags() && !e.Skipped() && id in ids && Owned(rows, id, e.user)
    ensures id in AfterAll(rows, ids, e)
    ensures FilterAgrees(AfterAll(rows, ids, e)[id].facts.tags)
            <==> e.action.RemoveTag? || multiset(ids)[id] > 1
                 || PiecesAreBare(ParseStored(rows[id].facts.tags), e.Target())
  {
    BulkTagEdit(rows, ids, e, id);
    var before, after, target := rows[id].facts.tags, AfterAll(rows, ids, e)[id].facts.tags, e.Target();
    hide AfterAll, TransactionSearch.TagClause, ParseStored, Parse, Split, Trim, Literal, TagsDone;
    forall tag | IsTag(tag) && Literal(tag)
      ensures (TransactionSearch.TagClause(after, tag) <==> tag in ParseStored(after))
              <==> e.action.RemoveTag? || multiset(ids)[id] > 1
                   || (tag in Parse(target) ==> tag in ParseStored(before) || tag in Split(target, ','))
    {
      FilterAfterBulkEdit(rows, ids, e, id, tag);
      ParsedAfterBulkEdit(before, after, e, tag);
      if tag in Split(target, ',') {
        BarePieceIsParsed(target, tag);
      }
    }
    ParsedPieces(ParseStored(before), target);
  }

  lemma ParsedPieces(tags: seq<string>, target: string)
    ensures PiecesAreBare(tags, target)
            <==> forall tag :: IsTag(tag) && Literal(tag) && tag in Parse(target) ==> tag in tags || tag in Split(target, ',')
  {
    ParseIsClean(target);
    hide Parse, Split, Trim, Literal, IsTag;
    forall tag ensures tag in Parse(target) <==> tag != "" && exists p :: p in Split(target, ',') && Trim(p) == tag {
      ParsedFromPiece(target, tag);
    }
  }

  /** The editor stores "a, b" as given: the parser finds "b" in it and the filter does not. */
  lemma SpacedTargetIsMissed(r: TxnRow, e: Edit)
    requires e.action.AddTag? && e.value == Some("a, b") && r.facts.tags == None
    ensures Edited(r, e).facts.tags == Some("a, b")
    ensures "b" in ParseStored(Edited(r, e).facts.tags) && !TransactionSearch.TagClause(Edited(r, e).facts.tags, "b")
  {
    SpacedTarget();
    assert Join(["a, b"], ',') == "a, b";
    FilterAfterOneEdit(r, e, "b");
    ParsedFromPiece("a, b", "b");
    assert " b" in ["a", " b"];
  }

  lemma SpacedTarget()
    ensures Trim("a, b") == "a, b" && Trim(" b") == "b" && IsTag("b")
    ensures Split("a, b", ',') == ["a", " b"]
  {
    assert "a" + [','] + " b" == "a, b";
    SplitOfTwo("a", " b", ',');
    TagQuery.SplitOfPiece("a");
    TagQuery.SplitOfPiece(" b");
    assert " b"[1..] == "b" && "b"[..1] == "b";
  }

  /** A note set in bulk is what its owner then reads in every row named. */
  lemma {:induction false} BulkNoteReadsBack(rows: Rows, ids: seq<string>, e: Edit, id: string)
    requires (e.action.SetNote? || e.action.ClearNote?) && IsOwner(e.crypto)
    requires id in ids && Owned(rows, id, e.user)
    ensures Owned(AfterAll(rows, ids, e), id, e.user)
    ensures var r := AfterAll(rows, ids, e)[id];
            && r == rows[id].(note := r.note, noteEnc := r.noteEnc)
            && OpenIntoOpt(r.note, r.noteEnc, e.crypto) == (if e.action.SetNote? then e.value else None)
            && (!e.crypto.Plaintext? ==> r.note == None)
  {
    var last := |ids| - 1;
    OwnershipStays(rows, ids[..last], e, id);
    if id in ids[..last] {
      BulkNoteReadsBack(rows, ids[..last], e, id);
    } else {
      OthersStay(rows, ids[..last], e);
    }
    SealedFieldsReadBack(e.crypto, "", e.value);
  }
}
