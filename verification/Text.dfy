/** Strings: substrings, splitting and joining, trimming, and order. */
module Text {
  predicate OccursAt(text: string, needle: string, i: nat) {
    i + |needle| <= |text| && text[i..i + |needle|] == needle
  }

  predicate Contains(text: string, needle: string) {
    exists i: nat :: i <= |text| && OccursAt(text, needle, i)
  }

  // ---- Splitting and joining ----

  /** Index of the first `sep`, or the length. */
  function Cut(s: string, sep: char): (k: nat)
    ensures k <= |s| && sep !in s[..k] && (k < |s| ==> s[k] == sep)
    ensures forall i :: 0 <= i < k ==> s[i] != sep
  {
    if s == "" || s[0] == sep then 0
    else
      var k := 1 + Cut(s[1..], sep);
      assert s[..k] == [s[0]] + s[1..][..k - 1];
      assert forall i :: 1 <= i < k ==> s[i] == s[1..][i - 1];
      k
  }

  function Split(s: string, sep: char): (pieces: seq<string>)
    ensures pieces != [] && forall p :: p in pieces ==> sep !in p
    decreases |s|
  {
    var k := Cut(s, sep);
    if k == |s| then
      assert s[..k] == s;
      [s]
    else [s[..k]] + Split(s[k + 1..], sep)
  }

  function Join(pieces: seq<string>, sep: char): string {
    if pieces == [] then ""
    else if |pieces| == 1 then pieces[0]
    else pieces[0] + [sep] + Join(pieces[1..], sep)
  }

  lemma CutOfPiece(a: string, b: string, sep: char)
    requires sep !in a
    ensures Cut(a + [sep] + b, sep) == |a|
    ensures Cut(a, sep) == |a|
  {
    var s := a + [sep] + b;
    assert forall i :: 0 <= i < |a| ==> s[i] == a[i] && a[i] in a;
    assert s[|a|] == sep;
  }

  lemma {:induction false} SplitOfTwo(a: string, b: string, sep: char)
    ensures Split(a + [sep] + b, sep) == Split(a, sep) + Split(b, sep)
    decreases |a|
  {
    hide Split, Cut;
    var k := Cut(a, sep);
    if k == |a| {
      assert a[..k] == a;
      SplitWhole(a, sep);
      SplitAtFirst(a, b, sep);
    } else {
      var first, rest := a[..k], a[k + 1..];
      assert a == first + [sep] + rest;
      SplitAtFirst(first, rest, sep);
      assert a + [sep] + b == first + [sep] + (rest + [sep] + b);
      SplitAtFirst(first, rest + [sep] + b, sep);
      SplitOfTwo(rest, b, sep);
    }
  }

  lemma SplitWhole(a: string, sep: char)
    requires sep !in a
    ensures Split(a, sep) == [a]
  {
    CutOfPiece(a, "", sep);
  }

  lemma SplitAtFirst(a: string, b: string, sep: char)
    requires sep !in a
    ensures Split(a + [sep] + b, sep) == [a] + Split(b, sep)
  {
    var s := a + [sep] + b;
    CutOfPiece(a, b, sep);
    assert s[..|a|] == a && s[|a| + 1..] == b;
  }

  /** Splitting undoes joining. */
  lemma {:induction false} SplitOfJoin(pieces: seq<string>, sep: char)
    requires pieces != [] && forall p :: p in pieces ==> sep !in p
    ensures Split(Join(pieces, sep), sep) == pieces
  {
    var p := pieces[0];
    CutOfPiece(p, "", sep);
    if |pieces| == 1 {
      assert Split(p, sep) == [p];
    } else {
      SplitOfJoin(pieces[1..], sep);
      SplitOfTwo(p, Join(pieces[1..], sep), sep);
      assert Split(p, sep) == [p];
    }
  }

  lemma {:induction false} JoinSnoc(pieces: seq<string>, last: string, sep: char)
    requires pieces != []
    ensures Join(pieces + [last], sep) == Join(pieces, sep) + [sep] + last
  {
    if |pieces| > 1 {
      JoinSnoc(pieces[1..], last, sep);
      assert (pieces + [last])[1..] == pieces[1..] + [last];
    } else {
      assert (pieces + [last])[1..] == [last];
    }
  }

  // ---- Trimming ----

  /** Unicode white space. */
  predicate IsWhitespace(c: char) {
    var n := c as int;
    9 <= n <= 13 || n == 0x20 || n == 0x85 || n == 0xA0 || n == 0x1680 || 0x2000 <= n <= 0x200A
    || n == 0x2028 || n == 0x2029 || n == 0x202F || n == 0x205F || n == 0x3000
  }

  function TrimStart(s: string): (t: string)
    ensures t != "" ==> !IsWhitespace(t[0])
    ensures forall c :: c in t ==> c in s
  {
    if s != "" && IsWhitespace(s[0]) then TrimStart(s[1..]) else s
  }

  function TrimEnd(s: string): (t: string)
    ensures t <= s && (t != "" ==> !IsWhitespace(t[|t| - 1]))
  {
    if s != "" && IsWhitespace(s[|s| - 1]) then TrimEnd(s[..|s| - 1]) else s
  }

  function Trim(s: string): (t: string)
    ensures forall c :: c in t ==> c in s
  {
    TrimEnd(TrimStart(s))
  }

  lemma TrimIsIdempotent(s: string)
    ensures Trim(Trim(s)) == Trim(s)
  {
    var t := TrimStart(s);
    if Trim(s) != "" {
      assert Trim(s)[0] == t[0];
    }
  }

  // ---- Order ----

  /** Strict lexicographic order by code point, as Rust compares strings of one width. */
  predicate LexBefore(a: string, b: string) {
    if a == "" then b != ""
    else b != "" && (a[0] < b[0] || (a[0] == b[0] && LexBefore(a[1..], b[1..])))
  }

  // ---- What trimming cuts ----

  /** The code points of Unicode's property White_Space. */
  const SPACES := [0x09, 0x0A, 0x0B, 0x0C, 0x0D, 0x20, 0x85, 0xA0, 0x1680, 0x2000, 0x2001, 0x2002, 0x2003, 0x2004,
                   0x2005, 0x2006, 0x2007, 0x2008, 0x2009, 0x200A, 0x2028, 0x2029, 0x202F, 0x205F, 0x3000]

  lemma SpacesAreWhitespace(c: char)
    ensures IsWhitespace(c) <==> c as int in SPACES
  {
    var n := c as int;
    if 9 <= n <= 13 {
      assert SPACES[n - 9] == n;
    } else if 0x2000 <= n <= 0x200A {
      assert SPACES[n - 0x2000 + 9] == n;
    } else {
      assert SPACES[5] == 0x20 && SPACES[6] == 0x85 && SPACES[7] == 0xA0 && SPACES[8] == 0x1680 && SPACES[20] == 0x2028
             && SPACES[21] == 0x2029 && SPACES[22] == 0x202F && SPACES[23] == 0x205F && SPACES[24] == 0x3000;
    }
  }

  predicate Blank(s: string) {
    forall i :: 0 <= i < |s| ==> s[i] as int in SPACES
  }

  /** Trimming cuts the white space at both ends and nothing else. */
  lemma TrimCutsEnds(left: string, core: string, right: string)
    requires Blank(left) && Blank(right)
    requires core != "" ==> core[0] as int !in SPACES && core[|core| - 1] as int !in SPACES
    ensures Trim(left + core + right) == core
  {
    hide Blank, TrimStart, TrimEnd, IsWhitespace;
    BlankStartIsCut(left, core + right);
    assert left + core + right == left + (core + right);
    if core == "" {
      BlankStartIsCut(right, "");
      assert right + "" == right && core + right == right;
      EdgesStay("");
    } else {
      SpacesAreWhitespace(core[0]);
      assert (core + right)[0] == core[0];
      EdgesStay(core + right);
      BlankEndIsCut(core, right);
      SpacesAreWhitespace(core[|core| - 1]);
      EdgesStay(core);
    }
  }

  lemma EdgesStay(s: string)
    ensures s == "" || !IsWhitespace(s[0]) ==> TrimStart(s) == s
    ensures s == "" || !IsWhitespace(s[|s| - 1]) ==> TrimEnd(s) == s
  {
  }

  lemma TrimStartUnfolds(s: string)
    requires s != "" && IsWhitespace(s[0])
    ensures TrimStart(s) == TrimStart(s[1..])
  {
  }

  lemma {:induction false} BlankStartIsCut(left: string, rest: string)
    requires Blank(left)
    ensures TrimStart(left + rest) == TrimStart(rest)
    decreases |left|
  {
    hide IsWhitespace, TrimStart, Blank;
    if left == "" {
      assert left + rest == rest;
    } else {
      var s := left + rest;
      BlankParts(left);
      assert s[0] == left[0] && s[1..] == left[1..] + rest;
      TrimStartUnfolds(s);
      BlankStartIsCut(left[1..], rest);
    }
  }

  lemma BlankParts(s: string)
    requires Blank(s) && s != ""
    ensures IsWhitespace(s[0]) && Blank(s[1..]) && IsWhitespace(s[|s| - 1]) && Blank(s[..|s| - 1])
  {
    hide IsWhitespace;
    SpacesAreWhitespace(s[0]);
    SpacesAreWhitespace(s[|s| - 1]);
  }

  lemma TrimEndUnfolds(s: string)
    requires s != "" && IsWhitespace(s[|s| - 1])
    ensures TrimEnd(s) == TrimEnd(s[..|s| - 1])
  {
  }

  lemma {:induction false} BlankEndIsCut(rest: string, right: string)
    requires Blank(right)
    ensures TrimEnd(rest + right) == TrimEnd(rest)
    decreases |right|
  {
    hide IsWhitespace, TrimEnd, Blank;
    if right == "" {
      assert rest + right == rest;
    } else {
      var s, n := rest + right, |right| - 1;
      BlankParts(right);
      assert s[|s| - 1] == right[n];
      assert s[..|s| - 1] == rest + right[..n];
      TrimEndUnfolds(s);
      BlankEndIsCut(rest, right[..n]);
    }
  }
}
