/** LIKE and ILIKE patterns, and when a pattern built around a text is a substring test. */
module SqlLike {
  import opened Text

  /** `%` matches any run, `_` any character, and a backslash takes the next character as it is. */
  predicate Like(text: string, pattern: string)
    decreases |text| + |pattern|
  {
    if pattern == "" then text == ""
    else if pattern[0] == '%' then Like(text, pattern[1..]) || (text != "" && Like(text[1..], pattern))
    else if pattern[0] == '_' then text != "" && Like(text[1..], pattern[1..])
    else if pattern[0] == '\\' then
      |pattern| >= 2 && text != "" && text[0] == pattern[1] && Like(text[1..], pattern[2..])
    else text != "" && text[0] == pattern[0] && Like(text[1..], pattern[1..])
  }

  function LowerChar(c: char): char {
    if 'A' <= c <= 'Z' then ((c as int) + 32) as char else c
  }

  function Lower(s: string): (t: string)
    ensures |t| == |s| && forall i :: 0 <= i < |s| ==> t[i] == LowerChar(s[i])
  {
    seq(|s|, i requires 0 <= i < |s| => LowerChar(s[i]))
  }

  predicate ILike(text: string, pattern: string) {
    Like(Lower(text), Lower(pattern))
  }

  predicate IsMeta(c: char) {
    c == '%' || c == '_' || c == '\\'
  }

  predicate Literal(s: string) {
    forall i :: 0 <= i < |s| ==> !IsMeta(s[i])
  }

  lemma {:induction false} AnyTextLikePercent(text: string)
    ensures Like(text, "%")
  {
    if text == "" {
    } else {
      AnyTextLikePercent(text[1..]);
    }
  }

  lemma {:induction false} LikePrefix(text: string, literal: string)
    requires Literal(literal)
    ensures Like(text, literal + "%") <==> literal <= text
  {
    if literal == "" {
      assert literal + "%" == "%";
      AnyTextLikePercent(text);
    } else {
      assert (literal + "%")[1..] == literal[1..] + "%";
      if text != "" {
        LikePrefix(text[1..], literal[1..]);
        assert text == [text[0]] + text[1..];
        assert literal == [literal[0]] + literal[1..];
      }
    }
  }

  lemma OccursLater(text: string, needle: string)
    requires text != "" && !(needle <= text)
    ensures Contains(text, needle) <==> Contains(text[1..], needle)
  {
    forall i: nat | i < |text| ensures OccursAt(text, needle, i + 1) <==> OccursAt(text[1..], needle, i) {
      OccursOneOn(text, needle, i);
    }
    if Contains(text[1..], needle) {
      var i: nat :| i <= |text[1..]| && OccursAt(text[1..], needle, i);
      assert OccursAt(text, needle, i + 1);
    }
    if Contains(text, needle) {
      var i: nat :| i <= |text| && OccursAt(text, needle, i);
      assert i > 0;
      assert OccursAt(text[1..], needle, i - 1);
    }
  }

  lemma OccursOneOn(text: string, needle: string, i: nat)
    requires i < |text|
    ensures OccursAt(text, needle, i + 1) <==> OccursAt(text[1..], needle, i)
  {
    if i + 1 + |needle| <= |text| {
      assert text[i + 1..i + 1 + |needle|] == text[1..][i..i + |needle|];
    }
  }

  /** Around a literal, `%` on both sides is the substring test. */
  lemma {:induction false} LikeAround(text: string, literal: string)
    requires Literal(literal)
    ensures Like(text, "%" + literal + "%") <==> Contains(text, literal)
    decreases |text|
  {
    var pattern := "%" + literal + "%";
    assert pattern[1..] == literal + "%";
    LikePrefix(text, literal);
    if literal <= text {
      assert OccursAt(text, literal, 0);
    } else if text != "" {
      LikeAround(text[1..], literal);
      OccursLater(text, literal);
    }
  }

  // ---- Case-insensitive search ----

  /** Lower-casing makes equal just the two cases of each letter. */
  lemma CasesFold(a: char, b: char)
    ensures LowerChar(a) == LowerChar(b)
       <==> a == b || ('A' <= a <= 'Z' && b as int == a as int + 32) || ('A' <= b <= 'Z' && a as int == b as int + 32)
  {
  }

  lemma LowerKeepsMeta(s: string)
    ensures Literal(Lower(s)) <==> Literal(s)
    ensures Lower(Lower(s)) == Lower(s)
  {
    assert forall c: char :: IsMeta(LowerChar(c)) <==> IsMeta(c);
    if !Literal(s) {
      var i :| 0 <= i < |s| && IsMeta(s[i]);
      assert IsMeta(Lower(s)[i]);
    }
  }

  lemma LowerAround(s: string)
    ensures Lower("%" + s + "%") == "%" + Lower(s) + "%"
  {
  }

  /** ILIKE against a needle between percent signs. */
  predicate SqlFinds(text: string, needle: string) {
    ILike(text, "%" + needle + "%")
  }

  /** The substring test on lower-cased text. */
  predicate AppFinds(text: string, needle: string) {
    Contains(Lower(text), Lower(needle))
  }

  /** A text that the pattern `s` followed by a percent sign matches. */
  function Sample(s: string): string {
    if s == "" then ""
    else if s[0] == '%' then Sample(s[1..])
    else if s[0] == '_' then "x" + Sample(s[1..])
    else if s[0] == '\\' then (if |s| == 1 then "%" else [s[1]] + Sample(s[2..]))
    else [s[0]] + Sample(s[1..])
  }

  lemma {:induction false} SampleMatches(s: string)
    ensures Like(Sample(s), s + "%")
    decreases |s|
  {
    if s == "" {
      assert s + "%" == "%";
      AnyTextLikePercent("");
    } else if s[0] == '\\' && |s| >= 2 {
      assert (s + "%")[2..] == s[2..] + "%";
      SampleMatches(s[2..]);
    } else if s[0] == '\\' {
      assert s + "%" == "\\%";
      assert (s + "%")[2..] == "" && "%"[1..] == "";
    } else {
      assert (s + "%")[1..] == s[1..] + "%";
      SampleMatches(s[1..]);
    }
  }

  lemma {:induction false} SampleIsShorterOrDifferent(s: string)
    ensures |Sample(s)| <= |s|
    ensures !Literal(s) && |Sample(s)| == |s| ==> Sample(s) != s
    decreases |s|
  {
    if s == "" {
    } else {
      if s[0] == '\\' && |s| >= 2 {
        SampleIsShorterOrDifferent(s[2..]);
      } else if s[0] != '\\' {
        SampleIsShorterOrDifferent(s[1..]);
        assert s == [s[0]] + s[1..];
      }
    }
  }

  lemma {:induction false} SampleIsLower(s: string)
    requires Lower(s) == s
    ensures Lower(Sample(s)) == Sample(s)
    decreases |s|
  {
    if s == "" {
    } else {
      assert LowerChar(s[0]) == s[0];
      if s[0] == '\\' && |s| >= 2 {
        assert LowerChar(s[1]) == s[1];
        assert Lower(s[2..]) == s[2..] by {
          assert forall i :: 0 <= i < |s[2..]| ==> s[2..][i] == Lower(s)[i + 2];
        }
        SampleIsLower(s[2..]);
      } else if s[0] != '\\' {
        assert Lower(s[1..]) == s[1..] by {
          assert forall i :: 0 <= i < |s[1..]| ==> s[1..][i] == Lower(s)[i + 1];
        }
        SampleIsLower(s[1..]);
      }
    }
  }

  lemma LiteralSearchesAgree(text: string, needle: string)
    requires Literal(needle)
    ensures SqlFinds(text, needle) <==> AppFinds(text, needle)
  {
    LowerKeepsMeta(needle);
    LowerAround(needle);
    LikeAround(Lower(text), Lower(needle));
  }

  /** The two searches agree on every text exactly for the needles without LIKE metacharacters. */
  lemma SearchesAgreeExactlyOnLiterals(needle: string)
    ensures (forall text :: SqlFinds(text, needle) <==> AppFinds(text, needle)) <==> Literal(needle)
  {
    if Literal(needle) {
      forall text ensures SqlFinds(text, needle) <==> AppFinds(text, needle) {
        LiteralSearchesAgree(text, needle);
      }
    } else {
      var n := Lower(needle);
      var text := Sample(n);
      LowerKeepsMeta(needle);
      LowerAround(needle);
      SampleMatches(n);
      SampleIsLower(n);
      SampleIsShorterOrDifferent(n);
      assert ("%" + n + "%")[1..] == n + "%";
      assert SqlFinds(text, needle);
      assert text[0..|text|] == text;
    }
  }
}
