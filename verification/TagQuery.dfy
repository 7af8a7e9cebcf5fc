/** Searching for a tag inside the printed list. */
module TagQuery {
  import opened Seqs
  import opened Text
  import opened SqlLike
  import opened TransactionSearch
  import opened TagStorage

  /** `run` occurs in `pieces` without gaps. */
  ghost predicate RunAt(pieces: seq<string>, run: seq<string>, j: nat) {
    j + |run| <= |pieces| && pieces[j..j + |run|] == run
  }

  ghost predicate HasRun(pieces: seq<string>, run: seq<string>) {
    exists j: nat :: RunAt(pieces, run, j)
  }

  function Delimited(s: string): string {
    "," + s + ","
  }

  lemma SameFront<T>(front: seq<T>, a: seq<T>, b: seq<T>)
    ensures front + a <= front + b <==> a <= b
  {
    if front + a <= front + b {
      assert a == (front + a)[|front|..];
      assert b[..|a|] == (front + b)[|front|..|front| + |a|];
    }
  }

  lemma {:induction false} HeadAndRest(s: string, k: nat)
    requires k == Cut(s, ',')
    ensures s + "," == (s[..k] + ",") + (if k == |s| then "" else s[k + 1..] + ",")
    ensures Split(s, ',') == [s[..k]] + (if k == |s| then [] else Split(s[k + 1..], ','))
  {
    if k < |s| {
      assert s == s[..k] + "," + s[k + 1..];
    } else {
      assert s[..k] == s;
    }
  }

  /** A list read from its front, delimiters included, is the list of the first pieces. */
  lemma {:induction false} PrefixIsRun(s: string, t: string)
    ensures t + "," <= s + "," <==> Split(t, ',') <= Split(s, ',')
    decreases |t|
  {
    var k, m := Cut(s, ','), Cut(t, ',');
    HeadAndRest(s, k);
    HeadAndRest(t, m);
    if t + "," <= s + "," {
      SameCut(s, t);
    }
    if s[..k] == t[..m] && m < |t| && k < |s| {
      PrefixIsRun(s[k + 1..], t[m + 1..]);
      hide Split;
      SameFront(s[..k] + ",", t[m + 1..] + ",", s[k + 1..] + ",");
      SameFront([s[..k]], Split(t[m + 1..], ','), Split(s[k + 1..], ','));
    } else if s[..k] == t[..m] {
      hide Split;
      assert m == |t| ==> s[..k] + "," <= s + ",";
      assert m < |t| ==> |t + ","| > |s + ","|;
    } else {
      hide Split;
      assert Split(t, ',')[0] == t[..m] && Split(s, ',')[0] == s[..k];
    }
  }

  /** A list that is a prefix, delimiter included, has its first delimiter in the same place. */
  lemma SameCut(s: string, t: string)
    requires t + "," <= s + ","
    ensures Cut(s, ',') == Cut(t, ',') && s[..Cut(s, ',')] == t[..Cut(t, ',')]
  {
    var k, m := Cut(s, ','), Cut(t, ',');
    forall i | 0 <= i <= |t| ensures (t + ",")[i] == (s + ",")[i] {
    }
    assert (t + ",")[m] == ',' && (s + ",")[m] == ',';
    forall i | 0 <= i < m ensures t[i] != ',' && s[i] == t[i] {
      assert (t + ",")[i] == (s + ",")[i];
    }
    assert (s + ",")[k] == ',';
    assert k <= m;
    assert m <= k;
  }

  lemma OccursBehind(front: string, rest: string, needle: string, j: nat)
    ensures OccursAt(front + rest, needle, |front| + j) <==> OccursAt(rest, needle, j)
  {
    if j + |needle| <= |rest| {
      assert (front + rest)[|front| + j..|front| + j + |needle|] == rest[j..j + |needle|];
    }
  }

  lemma OccursInFront(s: string, t: string)
    ensures OccursAt(Delimited(s), Delimited(t), 0) <==> RunAt(Split(s, ','), Split(t, ','), 0)
  {
    PrefixIsRun(s, t);
    hide Split;
    var pieces, run := Split(s, ','), Split(t, ',');
    SameFront(",", t + ",", s + ",");
    assert Delimited(s) == "," + (s + ",") && Delimited(t) == "," + (t + ",");
    assert run <= pieces <==> |run| <= |pieces| && pieces[0..|run|] == run;
  }

  lemma DelimitedTail(s: string, k: nat)
    requires k < |s| && s[k] == ','
    ensures Delimited(s) == ("," + s[..k]) + Delimited(s[k + 1..])
  {
    assert s == s[..k] + "," + s[k + 1..];
  }

  lemma FirstDelimiter(s: string, i: nat)
    requires 0 < i < |Delimited(s)| && Delimited(s)[i] == ','
    ensures Cut(s, ',') < i
  {
    var k := Cut(s, ',');
    assert forall j :: 1 <= j <= |s| ==> Delimited(s)[j] == s[j - 1];
  }

  lemma ContainsBehind(front: string, rest: string, needle: string)
    requires front != "" && forall i :: 0 < i < |front| ==> !OccursAt(front + rest, needle, i)
    ensures Contains(front + rest, needle) <==> OccursAt(front + rest, needle, 0) || Contains(rest, needle)
  {
    if i: nat :| |front| <= i && i <= |front + rest| && OccursAt(front + rest, needle, i) {
      OccursBehind(front, rest, needle, i - |front|);
    }
    if j: nat :| j <= |rest| && OccursAt(rest, needle, j) {
      OccursBehind(front, rest, needle, j);
    }
  }

  lemma NotInside(s: string, t: string, i: nat)
    requires 0 < i && OccursAt(Delimited(s), Delimited(t), i)
    ensures Cut(s, ',') < i <= |s|
  {
    assert Delimited(s)[i] == Delimited(s)[i..i + |Delimited(t)|][0] == Delimited(t)[0] == ',';
    FirstDelimiter(s, i);
  }

  /** An occurrence not at the front lies in the list without its first piece. */
  lemma ContainsLater(s: string, t: string, k: nat)
    requires k == Cut(s, ',')
    ensures Contains(Delimited(s), Delimited(t))
            <==> OccursAt(Delimited(s), Delimited(t), 0) || (k < |s| && Contains(Delimited(s[k + 1..]), Delimited(t)))
  {
    forall i | 0 < i && OccursAt(Delimited(s), Delimited(t), i) ensures k < i <= |s| {
      NotInside(s, t, i);
    }
    if k < |s| {
      DelimitedTail(s, k);
      hide OccursAt, Contains, Delimited;
      ContainsBehind("," + s[..k], Delimited(s[k + 1..]), Delimited(t));
    }
  }

  lemma RunLater(pieces: seq<string>, run: seq<string>)
    requires pieces != []
    ensures HasRun(pieces, run) <==> RunAt(pieces, run, 0) || HasRun(pieces[1..], run)
  {
    if j: nat :| RunAt(pieces, run, j) && j > 0 {
      assert RunAt(pieces[1..], run, j - 1);
    }
    if j: nat :| RunAt(pieces[1..], run, j) {
      assert RunAt(pieces, run, j + 1);
    }
  }

  /** The delimited list contains the delimited text exactly if the pieces of the text are a run of its pieces. */
  lemma {:induction false} DelimitedSearchIsRun(s: string, t: string)
    ensures Contains(Delimited(s), Delimited(t)) <==> HasRun(Split(s, ','), Split(t, ','))
    decreases |s|
  {
    var k := Cut(s, ',');
    HeadAndRest(s, k);
    OccursInFront(s, t);
    ContainsLater(s, t, k);
    RunLater(Split(s, ','), Split(t, ','));
    hide Contains, OccursAt, RunAt;
    if k < |s| {
      DelimitedSearchIsRun(s[k + 1..], t);
    }
  }

  // ---- The tag filter of the listing query ----

  /** For a tag without LIKE metacharacters the filter looks for the tag's pieces among the stored ones. */
  lemma TagClauseIsRun(tags: Option<string>, tag: string)
    requires Literal(tag)
    ensures TagClause(tags, tag) <==> HasRun(Split(tags.GetOr(""), ','), Split(tag, ','))
  {
    var stored := tags.GetOr("");
    assert "%," + tag + ",%" == "%" + Delimited(tag) + "%";
    assert forall i :: 0 <= i < |tag| ==> Delimited(tag)[i + 1] == tag[i];
    LikeAround(Delimited(stored), Delimited(tag));
    DelimitedSearchIsRun(stored, tag);
  }

  lemma SplitOfPiece(t: string)
    requires ',' !in t
    ensures Split(t, ',') == [t]
  {
    CutOfPiece(t, "", ',');
  }

  lemma RunOfOne(pieces: seq<string>, t: string)
    ensures HasRun(pieces, [t]) <==> t in pieces
  {
    if j: nat :| RunAt(pieces, [t], j) {
      assert pieces[j] == pieces[j..j + 1][0];
    }
    if t in pieces {
      var j: nat :| j < |pieces| && pieces[j] == t;
      assert RunAt(pieces, [t], j);
    }
  }

  lemma TagClauseIsPiece(tags: Option<string>, tag: string)
    requires Literal(tag) && ',' !in tag
    ensures TagClause(tags, tag) <==> tag in Split(tags.GetOr(""), ',')
  {
    TagClauseIsRun(tags, tag);
    SplitOfPiece(tag);
    hide Split, TagClause, HasRun;
    RunOfOne(Split(tags.GetOr(""), ','), tag);
  }

  /** On printed clean lists the filter is membership. */
  lemma TagFilterIsMembership(tags: seq<string>, tag: string)
    requires Clean(tags) && Literal(tag) && ',' !in tag && tag != ""
    ensures TagClause(Print(tags), tag) <==> tag in tags
  {
    TagClauseIsPiece(Print(tags), tag);
    if tags == [] {
      SplitOfPiece("");
    } else {
      ParseOfJoin(tags);
    }
  }

  /**
   * On any stored text: the filter finds every tag that parsing finds, and no other, exactly if
   * each tag that is stored with white space around it is also stored without.
   */
  lemma FilterAgreesWithParserExactlyWhen(stored: string)
    ensures (forall tag :: IsTag(tag) && Literal(tag) ==> (TagClause(Some(stored), tag) <==> tag in Parse(stored)))
            <==> (forall p :: p in Split(stored, ',') && Trim(p) != "" && Literal(Trim(p)) ==> Trim(p) in Split(stored, ','))
  {
    hide Trim, Filter, Split, TagClause;
    var pieces := Split(stored, ',');
    var trimmed := Map(Trim, pieces);
    FilterMembers((t: string) => t != "", trimmed);
    forall p | p in pieces ensures Trim(p) in trimmed && Trim(Trim(p)) == Trim(p) && ',' !in Trim(p) {
      var i :| 0 <= i < |pieces| && pieces[i] == p;
      assert trimmed[i] == Trim(p);
      TrimIsIdempotent(p);
    }
    forall tag | IsTag(tag) && Literal(tag) ensures TagClause(Some(stored), tag) <==> tag in pieces {
      TagClauseIsPiece(Some(stored), tag);
    }
    assert forall t :: t in trimmed ==> exists p :: p in pieces && Trim(p) == t;
  }

  /** A text that the filter for the tag, between its delimiters, lets pass. */
  lemma {:induction false} SampleOfTag(tag: string) returns (x: string)
    requires ',' !in tag
    ensures ',' !in x && Sample(tag + ",") == x + ","
    decreases |tag|
  {
    var s := tag + ",";
    if tag == "" {
      x := "";
    } else if tag == "\\" {
      assert s[2..] == "";
      x := "";
    } else if tag[0] == '\\' {
      assert s[2..] == tag[2..] + "," && s[1] == tag[1];
      var y := SampleOfTag(tag[2..]);
      x := [tag[1]] + y;
    } else {
      assert s[1..] == tag[1..] + ",";
      var y := SampleOfTag(tag[1..]);
      x := if tag[0] == '%' then y else if tag[0] == '_' then "x" + y else [tag[0]] + y;
    }
  }

  /** The filter is exact on every stored text exactly for tags without LIKE metacharacters. */
  lemma TagFilterIsExactOnlyForLiterals(tag: string)
    requires ',' !in tag
    ensures (forall stored :: TagClause(Some(stored), tag) <==> tag in Split(stored, ',')) <==> Literal(tag)
  {
    if Literal(tag) {
      forall stored ensures TagClause(Some(stored), tag) <==> tag in Split(stored, ',') {
        TagClauseIsPiece(Some(stored), tag);
      }
    } else {
      var n := Delimited(tag);
      var i :| 0 <= i < |tag| && IsMeta(tag[i]);
      assert IsMeta(n[i + 1]);
      var x := SampleOfTag(tag);
      assert n[1..] == tag + ",";
      assert Sample(n) == Delimited(x);
      SampleMatches(n);
      SampleIsShorterOrDifferent(n);
      assert "%," + tag + ",%" == "%" + n + "%" && ("%" + n + "%")[1..] == n + "%";
      assert TagClause(Some(x), tag);
      SplitOfPiece(x);
    }
  }
}
