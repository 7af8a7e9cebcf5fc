/** Tags: printed into one column, parsed back, edited in bulk, and searched inside the column. */
module TagStorage {
  import opened Seqs
  import opened Text

  function Parse(text: string): seq<string> {
    Filter((t: string) => t != "", Map(Trim, Split(text, ',')))
  }

  function ParseStored(tags: Option<string>): seq<string> {
    if tags.Some? then Parse(tags.value) else []
  }

  function Print(tags: seq<string>): Option<string> {
    if tags == [] then None else Some(Join(tags, ','))
  }

  predicate IsTag(t: string) {
    t != "" && ',' !in t && Trim(t) == t
  }

  predicate Clean(tags: seq<string>) {
    forall t :: t in tags ==> IsTag(t)
  }

  // ---- The parser and the printer ----

  lemma ParseIsClean(text: string)
    ensures Clean(Parse(text))
  {
    hide Trim, Filter, Split;
    var pieces := Split(text, ',');
    FilterMembers((t: string) => t != "", Map(Trim, pieces));
    forall t | t in Parse(text) ensures IsTag(t) {
      var i :| 0 <= i < |pieces| && Map(Trim, pieces)[i] == t;
      assert pieces[i] in pieces;
      TrimIsIdempotent(pieces[i]);
    }
  }

  lemma ParseOfJoin(tags: seq<string>)
    requires tags != [] && Clean(tags)
    ensures Split(Join(tags, ','), ',') == tags && Parse(Join(tags, ',')) == tags
  {
    hide Trim, Filter, Split;
    SplitOfJoin(tags, ',');
    forall i | 0 <= i < |tags| ensures Trim(tags[i]) == tags[i] {
      assert tags[i] in tags;
    }
    assert Map(Trim, tags) == tags;
    FilterAll((t: string) => t != "", tags);
  }

  /** Storage gives back exactly the lists of trimmed, nonempty, comma-free tags. */
  lemma StorageRoundTrips(tags: seq<string>)
    ensures ParseStored(Print(tags)) == tags <==> Clean(tags)
  {
    hide Parse, Join;
    if tags != [] {
      ParseIsClean(Join(tags, ','));
      if Clean(tags) {
        ParseOfJoin(tags);
      }
    }
  }

  /** Printing what was parsed loses nothing more. */
  lemma StorageSettles(stored: Option<string>)
    ensures ParseStored(Print(ParseStored(stored))) == ParseStored(stored)
  {
    hide Parse, Print;
    if stored.Some? {
      ParseIsClean(stored.value);
    }
    StorageRoundTrips(ParseStored(stored));
  }

  // ---- Adding and removing ----

  function Insert(tags: seq<string>, target: string): seq<string> {
    if target in tags then tags else tags + [target]
  }

  function Delete(tags: seq<string>, target: string): seq<string> {
    Filter((t: string) => t != target, tags)
  }

  lemma ParseOfTwo(a: string, b: string)
    ensures Parse(a + [','] + b) == Parse(a) + Parse(b)
  {
    hide Trim, Filter, Split;
    SplitOfTwo(a, b, ',');
    MapAppend(Trim, Split(a, ','), Split(b, ','));
    FilterAppend((t: string) => t != "", Map(Trim, Split(a, ',')), Map(Trim, Split(b, ',')));
  }

  /** What is stored after adding: the tags named by the target, behind those already there. */
  lemma StoredAfterInsert(tags: seq<string>, target: string)
    requires Clean(tags)
    ensures ParseStored(Print(Insert(tags, target))) == if target in tags then tags else tags + Parse(target)
  {
    hide Parse;
    if target in tags {
      StorageRoundTrips(tags);
    } else if tags == [] {
      assert Join([target], ',') == target;
    } else {
      JoinSnoc(tags, target, ',');
      ParseOfTwo(Join(tags, ','), target);
      ParseOfJoin(tags);
    }
  }

  lemma ParseOfTag(t: string)
    requires IsTag(t)
    ensures Parse(t) == [t]
  {
    assert Join([t], ',') == t;
    ParseOfJoin([t]);
  }

  function TagSet(stored: Option<string>): set<string> {
    set t | t in ParseStored(stored)
  }

  /** Adding is union with what the target parses to, set insertion for a single tag. */
  lemma AddIsInsertion(stored: Option<string>, target: string)
    ensures var after := Print(Insert(ParseStored(stored), target));
            TagSet(after) == TagSet(stored) + TagSet(Some(target))
    ensures IsTag(target) ==> TagSet(Some(target)) == {target}
  {
    hide Parse, Print, IsTag;
    var tags := ParseStored(stored);
    if stored.Some? {
      ParseIsClean(stored.value);
    }
    StoredAfterInsert(tags, target);
    if IsTag(target) {
      ParseOfTag(target);
    }
    if target in tags {
      assert IsTag(target);
    }
  }

  /** Removing is set deletion; the other tags keep their order. */
  lemma RemoveIsDeletion(stored: Option<string>, target: string)
    ensures var after := Print(Delete(ParseStored(stored), target));
            && ParseStored(after) == Delete(ParseStored(stored), target)
            && TagSet(after) == TagSet(stored) - {target}
  {
    hide Parse, Print, Filter, IsTag;
    var tags := ParseStored(stored);
    if stored.Some? {
      ParseIsClean(stored.value);
    }
    FilterMembers((t: string) => t != target, tags);
    assert Clean(Delete(tags, target));
    StorageRoundTrips(Delete(tags, target));
  }

  /** Removing undoes adding a tag that was not there. */
  lemma RemoveUndoesAdd(stored: Option<string>, target: string)
    requires IsTag(target) && target !in ParseStored(stored)
    ensures var added := Print(Insert(ParseStored(stored), target));
            ParseStored(Print(Delete(ParseStored(added), target))) == ParseStored(stored)
  {
    var tags := ParseStored(stored);
    if stored.Some? {
      ParseIsClean(stored.value);
    }
    StoredAfterInsert(tags, target);
    ParseOfTag(target);
    hide Parse, Print, IsTag, Trim;
    RemoveIsDeletion(Print(Insert(tags, target)), target);
    var keep := (t: string) => t != target;
    FilterSnoc(keep, tags, target);
    FilterAll(keep, tags);
  }
}
