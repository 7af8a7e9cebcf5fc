/** Redirect URIs: parameters appended by the server, and read back by the client. */
module RedirectUri {
  import opened Seqs
  import opened Text

  /** Texts are taken byte by byte: one character is one byte of the UTF-8 form. */
  predicate IsBytes(s: string) {
    forall i :: 0 <= i < |s| ==> s[i] as int < 256
  }

  // ---- Building ----

  predicate Unreserved(c: char) {
    'A' <= c <= 'Z' || 'a' <= c <= 'z' || '0' <= c <= '9' || c == '-' || c == '.' || c == '_' || c == '~'
  }

  function HexDigit(n: nat): char
    requires n < 16
  {
    if n < 10 then (48 + n) as char else (55 + n) as char
  }

  function EncodeByte(b: char): string
    requires b as int < 256
  {
    if Unreserved(b) then [b] else ['%', HexDigit(b as int / 16), HexDigit(b as int % 16)]
  }

  function Encoded(s: string): string
    requires IsBytes(s)
  {
    if s == "" then "" else Encoded(s[..|s| - 1]) + EncodeByte(s[|s| - 1])
  }

  method PctEncode(s: string) returns (out: string)
    requires IsBytes(s)
    ensures out == Encoded(s)
  {
    out := "";
    for i := 0 to |s|
      invariant out == Encoded(s[..i])
    {
      assert s[..i + 1][..i] == s[..i];
      if Unreserved(s[i]) {
        out := out + [s[i]];
      } else {
        out := out + ['%', HexDigit(s[i] as int / 16), HexDigit(s[i] as int % 16)];
      }
    }
    assert s[..|s|] == s;
  }

  datatype Param = Param(key: string, value: string)

  predicate AreParams(params: seq<Param>) {
    forall p :: p in params ==> IsBytes(p.value)
  }

  function Printed(p: Param): string
    requires IsBytes(p.value)
  {
    p.key + "=" + Encoded(p.value)
  }

  function PrintedAll(params: seq<Param>): seq<string>
    requires AreParams(params)
  {
    seq(|params|, i requires 0 <= i < |params| => Printed(params[i]))
  }

  /** The URI with the parameters behind it: after `&` if there is a query already, else after `?`. */
  function WithParams(uri: string, params: seq<Param>): string
    requires AreParams(params)
  {
    if params == [] then uri
    else uri + [if '?' in uri then '&' else '?'] + Join(PrintedAll(params), '&')
  }

  method RedirectWith(uri: string, params: seq<Param>) returns (url: string)
    requires AreParams(params)
    ensures url == WithParams(uri, params)
  {
    hide WithParams, Encoded, PrintedAll;
    url := uri;
    NoParams(uri);
    var sep := if '?' in url then '&' else '?';
    for i := 0 to |params|
      invariant url == WithParams(uri, params[..i])
      invariant sep == if i == 0 && '?' !in uri then '?' else '&'
    {
      OneMoreParam(uri, params, i);
      assert params[i] in params;
      url := url + [sep] + params[i].key + "=";
      var value := PctEncode(params[i].value);
      url := url + value;
      sep := '&';
    }
    assert params[..|params|] == params;
  }

  lemma NoParams(uri: string)
    ensures WithParams(uri, []) == uri
  {
  }

  lemma OneMoreParam(uri: string, params: seq<Param>, i: nat)
    requires AreParams(params) && i < |params|
    ensures params[i] in params
    ensures WithParams(uri, params[..i + 1])
            == WithParams(uri, params[..i]) + [if i == 0 && '?' !in uri then '?' else '&'] + Printed(params[i])
  {
    hide Encoded;
    assert params[..i + 1] == params[..i] + [params[i]];
    assert PrintedAll(params[..i + 1]) == PrintedAll(params[..i]) + [Printed(params[i])];
    if i > 0 {
      JoinSnoc(PrintedAll(params[..i]), Printed(params[i]), '&');
    }
  }

  // ---- Reading ----

  function HexValue(c: char): Option<int> {
    if '0' <= c <= '9' then Some(c as int - 48)
    else if 'A' <= c <= 'F' then Some(c as int - 55)
    else if 'a' <= c <= 'f' then Some(c as int - 87)
    else None
  }

  /** A percent sign that does not start a triplet stands for itself. */
  function Decoded(s: string): string {
    if s == "" then ""
    else if s[0] == '%' && |s| >= 3 && HexValue(s[1]).Some? && HexValue(s[2]).Some? then
      [(16 * HexValue(s[1]).value + HexValue(s[2]).value) as char] + Decoded(s[3..])
    else [s[0]] + Decoded(s[1..])
  }

  function ReadParam(piece: string): Param {
    var k := Cut(piece, '=');
    if k == |piece| then Param(Decoded(piece), "") else Param(Decoded(piece[..k]), Decoded(piece[k + 1..]))
  }

  /** What stands between the first `?` and the fragment. */
  function QueryOf(url: string): Option<string> {
    var hier := url[..Cut(url, '#')];
    var k := Cut(hier, '?');
    if k == |hier| then None else Some(hier[k + 1..])
  }

  function ReadParams(query: string): seq<Param> {
    Map(ReadParam, Filter((piece: string) => piece != "", Split(query, '&')))
  }

  function ParseQuery(url: string): seq<Param> {
    var query := QueryOf(url);
    if query.Some? then ReadParams(query.value) else []
  }

  // ---- Reading undoes building ----

  lemma {:induction false} EncodedFromFront(s: string)
    requires IsBytes(s) && s != ""
    ensures Encoded(s) == EncodeByte(s[0]) + Encoded(s[1..])
  {
    hide EncodeByte;
    var last := |s| - 1;
    if last > 0 {
      EncodedFromFront(s[..last]);
      assert s[..last][1..] == s[1..][..last - 1] && s[1..][last - 1] == s[last];
    }
  }

  lemma HexDigitsReadBack(n: nat)
    requires n < 16
    ensures HexValue(HexDigit(n)) == Some(n)
  {
  }

  lemma {:induction false} DecodedByte(b: char, rest: string)
    requires b as int < 256
    ensures Decoded(EncodeByte(b) + rest) == [b] + Decoded(rest)
  {
    var s := EncodeByte(b) + rest;
    if Unreserved(b) {
      assert s[1..] == rest;
    } else {
      HexDigitsReadBack(b as int / 16);
      HexDigitsReadBack(b as int % 16);
      assert s[3..] == rest;
      assert s[0] == '%' && s[1] == HexDigit(b as int / 16) && s[2] == HexDigit(b as int % 16);
    }
  }

  /** Percent-decoding undoes percent-encoding for every sequence of bytes. */
  lemma {:induction false} DecodingUndoesEncoding(s: string)
    requires IsBytes(s)
    ensures Decoded(Encoded(s)) == s
  {
    if s == "" {
    } else {
      EncodedFromFront(s);
      DecodedByte(s[0], Encoded(s[1..]));
      DecodingUndoesEncoding(s[1..]);
    }
  }

  /** What encoding produces is unreserved, but for percent signs. */
  lemma {:induction false} EncodedIsSafe(s: string)
    requires IsBytes(s)
    ensures forall c :: c in Encoded(s) ==> Unreserved(c) || c == '%'
  {
    if s == "" {
    } else {
      EncodedIsSafe(s[..|s| - 1]);
    }
  }

  /** Letters, digits and four marks. */
  predicate IsKept(c: char) {
    ('0' <= c <= '9') || ('A' <= c <= 'Z') || ('a' <= c <= 'z') || c in "-._~"
  }

  /** The byte as it is, or a percent sign and two upper-case hexadecimal digits. */
  predicate IsEncodedByte(out: string, b: char) {
    if IsKept(b) then out == [b]
    else |out| == 3 && out[0] == '%' && forall i :: 1 <= i <= 2 ==> '0' <= out[i] <= '9' || 'A' <= out[i] <= 'F'
  }

  lemma ByteIsEncoded(b: char)
    requires b as int < 256
    ensures IsBytes([b]) && IsEncodedByte(Encoded([b]), b)
  {
    assert [b][..0] == "";
    assert Encoded([b]) == EncodeByte(b);
  }

  /** Encoding goes byte by byte, and encodes just the bytes that are not kept. */
  lemma {:induction false} EncodingIsBytewise(s: string, t: string, b: char)
    requires IsBytes(s) && IsBytes(t) && b as int < 256
    ensures IsBytes(s + t) && Encoded(s + t) == Encoded(s) + Encoded(t)
    ensures IsBytes([b]) && IsEncodedByte(Encoded([b]), b)
  {
    hide EncodeByte, IsEncodedByte;
    ByteIsEncoded(b);
    if t == "" {
      assert s + t == s;
    } else {
      var n := |t| - 1;
      assert (s + t)[..|s + t| - 1] == s + t[..n];
      EncodingIsBytewise(s, t[..n], b);
    }
  }

  lemma {:induction false} PlainDecodes(s: string)
    requires '%' !in s
    ensures Decoded(s) == s
  {
    if s == "" {
    } else {
      PlainDecodes(s[1..]);
    }
  }

  predicate AreKeys(params: seq<Param>) {
    forall p :: p in params ==> forall c :: c in p.key ==> Unreserved(c)
  }

  /** A text that can stand in a query without being cut. */
  predicate IsPiece(s: string) {
    s != "" && '&' !in s && '#' !in s && '?' !in s
  }

  lemma PrintedIsPiece(p: Param)
    requires IsBytes(p.value) && forall c :: c in p.key ==> Unreserved(c)
    ensures IsPiece(Printed(p))
  {
    EncodedIsSafe(p.value);
    hide Encoded;
    assert forall c :: c in Printed(p) ==> c in p.key || c == '=' || c in Encoded(p.value);
  }

  lemma ParamReadsBack(p: Param)
    requires IsBytes(p.value) && forall c :: c in p.key ==> Unreserved(c)
    ensures ReadParam(Printed(p)) == p
  {
    var s := Printed(p);
    DecodingUndoesEncoding(p.value);
    PlainDecodes(p.key);
    CutOfPiece(p.key, Encoded(p.value), '=');
    assert s[..|p.key|] == p.key && s[|p.key| + 1..] == Encoded(p.value);
  }

  lemma {:induction false} JoinIsSafe(pieces: seq<string>, c: char)
    requires c != '&' && forall p :: p in pieces ==> c !in p
    ensures c !in Join(pieces, '&')
  {
    if |pieces| > 1 {
      JoinIsSafe(pieces[1..], c);
    }
  }

  lemma ParamsReadBack(params: seq<Param>)
    requires AreParams(params) && AreKeys(params)
    ensures Map(ReadParam, PrintedAll(params)) == params
    ensures forall piece :: piece in PrintedAll(params) ==> IsPiece(piece)
  {
    hide Printed, ReadParam, IsPiece;
    forall i | 0 <= i < |params| ensures ReadParam(PrintedAll(params)[i]) == params[i] && IsPiece(PrintedAll(params)[i]) {
      assert params[i] in params;
      ParamReadsBack(params[i]);
      PrintedIsPiece(params[i]);
    }
  }

  /** Parameters behind an existing query, or on their own. */
  lemma ReadAppended(query: string, params: seq<Param>)
    requires AreParams(params) && AreKeys(params) && params != []
    ensures ReadParams(query + "&" + Join(PrintedAll(params), '&')) == ReadParams(query) + params
    ensures ReadParams(Join(PrintedAll(params), '&')) == params
  {
    var pieces := PrintedAll(params);
    ParamsReadBack(params);
    hide Split, Filter, PrintedAll, ReadParam;
    var keep := (piece: string) => piece != "";
    SplitOfJoin(pieces, '&');
    SplitOfTwo(query, Join(pieces, '&'), '&');
    FilterAll(keep, pieces);
    FilterAppend(keep, Split(query, '&'), pieces);
    MapAppend(ReadParam, Filter(keep, Split(query, '&')), pieces);
  }

  lemma QueryBehind(front: string, query: string)
    requires '?' !in front && '#' !in front && '#' !in query
    ensures QueryOf(front + "?" + query) == Some(query)
    ensures QueryOf(front) == None
  {
    var url := front + "?" + query;
    CutOfPiece(url, "", '#');
    CutOfPiece(front, "", '#');
    CutOfPiece(front, query, '?');
    assert url[..|url|] == url && front[..|front|] == front;
    assert url[|front| + 1..] == query;
  }

  lemma QueryOfAppended(uri: string, tail: string)
    requires '#' !in uri && '#' !in tail && '?' !in tail
    ensures QueryOf(uri + [if '?' in uri then '&' else '?'] + tail)
            == if '?' in uri then Some(QueryOf(uri).GetOr("") + "&" + tail) else Some(tail)
    ensures QueryOf(uri).Some? <==> '?' in uri
  {
    var k := Cut(uri, '?');
    if '?' in uri {
      var front, query := uri[..k], uri[k + 1..];
      assert uri == front + "?" + query;
      hide QueryOf, Cut;
      QueryBehind(front, query);
      QueryBehind(front, query + "&" + tail);
      assert uri + "&" + tail == front + "?" + (query + "&" + tail);
    } else {
      hide QueryOf, Cut;
      QueryBehind(uri, tail);
    }
  }

  /** Whatever is added behind a fragment sign is not part of the query. */
  lemma QueryOfFragment(uri: string, tail: string)
    requires '#' in uri
    ensures QueryOf(uri + tail) == QueryOf(uri)
  {
    var k := Cut(uri, '#');
    assert uri == uri[..k] + "#" + uri[k + 1..];
    assert uri + tail == uri[..k] + "#" + (uri[k + 1..] + tail);
    CutOfPiece(uri[..k], uri[k + 1..] + tail, '#');
    assert (uri + tail)[..k] == uri[..k];
  }

  lemma TailIsSafe(params: seq<Param>)
    requires AreParams(params) && AreKeys(params)
    ensures '#' !in Join(PrintedAll(params), '&') && '?' !in Join(PrintedAll(params), '&')
  {
    ParamsReadBack(params);
    hide Join, PrintedAll;
    JoinIsSafe(PrintedAll(params), '#');
    JoinIsSafe(PrintedAll(params), '?');
  }

  lemma ReadWithoutFragment(uri: string, params: seq<Param>)
    requires AreParams(params) && AreKeys(params) && params != [] && '#' !in uri
    ensures ParseQuery(WithParams(uri, params)) == ParseQuery(uri) + params
  {
    TailIsSafe(params);
    QueryOfAppended(uri, Join(PrintedAll(params), '&'));
    hide Join, PrintedAll, QueryOf, ReadParams;
    ReadAppended(QueryOf(uri).GetOr(""), params);
    assert [] + params == params;
  }

  lemma ReadWithFragment(uri: string, params: seq<Param>)
    requires AreParams(params) && params != [] && '#' in uri
    ensures ParseQuery(WithParams(uri, params)) == ParseQuery(uri)
  {
    var sep, tail := [if '?' in uri then '&' else '?'], Join(PrintedAll(params), '&');
    assert WithParams(uri, params) == uri + (sep + tail);
    QueryOfFragment(uri, sep + tail);
  }

  /**
   * The client reads back the base URI's own parameters followed by exactly the appended ones, for
   * values of any bytes, if and only if they do not end up behind a fragment sign.
   */
  lemma ClientReadsParamsExactlyWhen(uri: string, params: seq<Param>)
    requires AreParams(params) && AreKeys(params)
    ensures ParseQuery(WithParams(uri, params)) == ParseQuery(uri) + params <==> '#' !in uri || params == []
  {
    hide ParseQuery, AreParams, AreKeys;
    if params == [] {
      assert ParseQuery(uri) + params == ParseQuery(uri);
    } else if '#' !in uri {
      ReadWithoutFragment(uri, params);
    } else {
      ReadWithFragment(uri, params);
      assert |ParseQuery(uri) + params| > |ParseQuery(uri)|;
    }
  }
}
