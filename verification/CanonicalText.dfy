/** The whole canonical request: when it exists, and that it determines the request it was built from. */
module CanonicalText {
  import opened Options
  import opened Separators
  import opened TextOrder
  import opened Sorting
  import opened CanonicalRequest

  type Header = (string, string)

  /** A target with `bucket` is addressed by path, one without by its host. */
  datatype Parts = Parts(
    httpMethod: string, host: string, bucket: Option<string>, key: string,
    query: seq<Pair>, headers: seq<Header>)

  // ---------------------------------------------------------------- headers

  predicate IsHeaderChar(c: char) {
    'a' <= c <= 'z' || '0' <= c <= '9' || c == '-'
  }

  predicate IsControl(c: char) {
    c as int < 32 || c as int == 127
  }

  predicate HeaderAllowed(h: Header) {
    && h.0 != "" && h.0 != "host" && (forall i :: 0 <= i < |h.0| ==> IsHeaderChar(h.0[i]))
    && h.1 != "" && (forall i :: 0 <= i < |h.1| ==> !IsControl(h.1[i]))
  }

  const NAME_ORDER: Order<Header> := (a: Header, b: Header) => AtMost(a.0, b.0)

  function SortByName(headers: seq<Header>): seq<Header> {
    Sort(NAME_ORDER, headers)
  }

  lemma NameOrderIsTotal()
    ensures IsTotalOrder(NAME_ORDER)
  {
    hide Before;
    forall a: Header, b: Header ensures NAME_ORDER(a, b) || NAME_ORDER(b, a) { Total(a.0, b.0); }
    forall a: Header, b: Header, c: Header | NAME_ORDER(a, b) && NAME_ORDER(b, c) ensures NAME_ORDER(a, c) {
      if a.0 != b.0 && b.0 != c.0 { Transitive(a.0, b.0, c.0); }
    }
  }

  /** The `windows(2)` scan over the sorted headers. */
  predicate HasEqualNeighbours(headers: seq<Header>) {
    exists i :: 0 <= i < |headers| - 1 && headers[i].0 == headers[i + 1].0
  }

  method ScanNeighbours(headers: seq<Header>) returns (found: bool)
    ensures found <==> HasEqualNeighbours(headers)
  {
    for i := 0 to |headers| - (if headers == [] then 0 else 1)
      invariant forall j :: 0 <= j < i ==> headers[j].0 != headers[j + 1].0
    {
      if headers[i].0 == headers[i + 1].0 { return true; }
    }
    return false;
  }

  predicate NamesCoincide(headers: seq<Header>) {
    exists i, j :: 0 <= i < j < |headers| && headers[i].0 == headers[j].0
  }

  function NameCount(headers: seq<Header>, name: string): nat {
    if headers == [] then 0 else (if headers[0].0 == name then 1 else 0) + NameCount(headers[1..], name)
  }

  lemma {:induction false} InsertKeepsCount(h: Header, headers: seq<Header>, name: string)
    ensures NameCount(Insert(NAME_ORDER, h, headers), name) == NameCount([h] + headers, name)
  {
    assert ([h] + headers)[1..] == headers;
    if headers != [] {
      InsertKeepsCount(h, headers[1..], name);
      assert ([h] + headers[1..])[1..] == headers[1..];
      var r := [headers[0]] + Insert(NAME_ORDER, h, headers[1..]);
      assert r[1..] == Insert(NAME_ORDER, h, headers[1..]);
    }
  }

  lemma {:induction false} SortKeepsCount(headers: seq<Header>, name: string)
    ensures NameCount(SortByName(headers), name) == NameCount(headers, name)
  {
    if headers != [] {
      SortKeepsCount(headers[1..], name);
      InsertKeepsCount(headers[0], SortByName(headers[1..]), name);
      var all := [headers[0]] + SortByName(headers[1..]);
      assert all[1..] == SortByName(headers[1..]);
    }
  }

  lemma {:induction false} CountPositive(headers: seq<Header>, name: string)
    ensures NameCount(headers, name) > 0 <==> exists i :: 0 <= i < |headers| && headers[i].0 == name
  {
    if headers != [] {
      CountPositive(headers[1..], name);
      if NameCount(headers[1..], name) > 0 {
        var i :| 0 <= i < |headers[1..]| && headers[1..][i].0 == name;
        assert headers[i + 1].0 == name;
      }
      if i :| 0 <= i < |headers| && headers[i].0 == name {
        if i > 0 { assert headers[1..][i - 1].0 == name; }
      }
    }
  }

  ghost predicate CountsTwice(headers: seq<Header>) {
    exists name: string :: NameCount(headers, name) > 1
  }

  /** Names coincide exactly when some name counts twice. */
  lemma {:induction false} CoincideByCount(headers: seq<Header>)
    ensures NamesCoincide(headers) <==> CountsTwice(headers)
  {
    if headers != [] {
      var rest := headers[1..];
      CoincideByCount(rest);
      CountPositive(rest, headers[0].0);
      if NamesCoincide(headers) {
        var i, j :| 0 <= i < j < |headers| && headers[i].0 == headers[j].0;
        if i == 0 {
          assert rest[j - 1].0 == headers[0].0;
          assert NameCount(headers, headers[0].0) > 1;
        } else {
          assert rest[i - 1].0 == rest[j - 1].0;
          var name: string :| NameCount(rest, name) > 1;
          assert NameCount(headers, name) > 1;
        }
      }
      if name: string :| NameCount(headers, name) > 1 {
        if NameCount(rest, name) > 1 {
          assert NamesCoincide(rest);
          var i, j :| 0 <= i < j < |rest| && rest[i].0 == rest[j].0;
          assert headers[i + 1].0 == headers[j + 1].0;
        } else {
          var i :| 0 <= i < |rest| && rest[i].0 == name;
          assert headers[0].0 == headers[i + 1].0;
        }
      }
    }
  }

  lemma NeighboursByCoincidence(headers: seq<Header>)
    requires IsSorted(NAME_ORDER, headers)
    ensures HasEqualNeighbours(headers) <==> NamesCoincide(headers)
  {
    hide Before;
    if NamesCoincide(headers) {
      var i, j :| 0 <= i < j < |headers| && headers[i].0 == headers[j].0;
      assert NAME_ORDER(headers[i], headers[i + 1]);
      if headers[i].0 != headers[i + 1].0 {
        assert i + 1 < j;
        assert NAME_ORDER(headers[i + 1], headers[j]);
        Asymmetric(headers[i].0, headers[i + 1].0);
      }
    }
  }

  /** The scan of neighbours refuses a header set exactly when two of its names coincide, `host` included. */
  lemma ScanIsExact(headers: seq<Header>)
    ensures HasEqualNeighbours(SortByName(headers)) <==> NamesCoincide(headers)
  {
    NameOrderIsTotal();
    SortSorts(NAME_ORDER, headers);
    NeighboursByCoincidence(SortByName(headers));
    CoincideByCount(SortByName(headers));
    CoincideByCount(headers);
    forall name: string ensures NameCount(SortByName(headers), name) == NameCount(headers, name) {
      SortKeepsCount(headers, name);
    }
  }

  // ---------------------------------------------------------------- the text

  /** Trimming only removes; in particular it brings no line break. */
  predicate Trims(trim: string -> string, value: string) {
    Lacks(value, '\n') ==> Lacks(trim(value), '\n')
  }

  function Lines(trim: string -> string, headers: seq<Header>): seq<Header> {
    if headers == [] then [] else [(headers[0].0, trim(headers[0].1))] + Lines(trim, headers[1..])
  }

  function Rendered(lines: seq<Header>): string {
    if lines == [] then "" else LineText(lines[0]) + ['\n'] + Rendered(lines[1..])
  }

  function LineText(line: Header): string {
    line.0 + [':'] + line.1
  }

  function SignedHeaders(lines: seq<Header>): string {
    if lines == [] then ""
    else if |lines| == 1 then lines[0].0
    else lines[0].0 + [';'] + SignedHeaders(lines[1..])
  }

  function CanonicalUri(bucket: Option<string>, key: string): string {
    if bucket.Some? then ['/'] + (Encoded(bucket.value, true) + ['/'] + Encoded(key, false))
    else ['/'] + Encoded(key, false)
  }

  function HeaderLines(trim: string -> string, r: Parts): seq<Header> {
    Lines(trim, SortByName([("host", r.host)] + r.headers))
  }

  predicate HostAllowed(host: string) {
    host != "" && Lacks(host, '/') && Lacks(host, '?') && Lacks(host, '#') && Lacks(host, '@')
  }

  /** The checks of `presign_target_at` that concern the request itself. */
  predicate Accepted(r: Parts) {
    && (r.httpMethod == "GET" || r.httpMethod == "HEAD" || r.httpMethod == "PUT" || r.httpMethod == "POST" || r.httpMethod == "DELETE")
    && HostAllowed(r.host) && (forall i :: 0 <= i < |r.headers| ==> HeaderAllowed(r.headers[i]))
    && !HasEqualNeighbours(SortByName([("host", r.host)] + r.headers))
  }

  function CanonicalText(trim: string -> string, r: Parts): string {
    r.httpMethod + ['\n'] + (CanonicalUri(r.bucket, r.key) + ['\n'] + (CanonicalQuery(r.query) + ['\n']
      + (Rendered(HeaderLines(trim, r)) + ['\n'] + (SignedHeaders(HeaderLines(trim, r)) + ['\n'] + "UNSIGNED-PAYLOAD"))))
  }

  // ---------------------------------------------------------------- what a text determines

  predicate LineOk(line: Header) {
    Lacks(line.0, ':') && Lacks(line.0, '\n') && Lacks(line.1, '\n')
  }

  predicate LinesOk(lines: seq<Header>) {
    forall i :: 0 <= i < |lines| ==> LineOk(lines[i])
  }

  lemma RenderedUnfolds(lines: seq<Header>, more: string)
    requires lines != []
    ensures Rendered(lines) + ['\n'] + more == LineText(lines[0]) + ['\n'] + (Rendered(lines[1..]) + ['\n'] + more)
    ensures lines == [lines[0]] + lines[1..]
  {
    Regroup(LineText(lines[0]), Rendered(lines[1..]), more);
  }

  lemma Regroup(a: string, b: string, c: string)
    ensures (a + ['\n'] + b) + ['\n'] + c == a + ['\n'] + (b + ['\n'] + c)
  {
  }

  lemma LineTextShape(line: Header)
    requires LineOk(line)
    ensures Lacks(LineText(line), '\n') && LineText(line) != ""
  {
  }

  /** The header block ends at its first empty line, and each line at its first colon has its name. */
  lemma {:induction false} RenderedIsInjective(a: seq<Header>, more: string, b: seq<Header>, rest: string)
    requires LinesOk(a) && LinesOk(b) && Rendered(a) + ['\n'] + more == Rendered(b) + ['\n'] + rest
    ensures a == b && more == rest
    decreases |a| + |b|
  {
    hide Rendered, Lacks;
    var ta, ma := CutOfBlock(a, more);
    var tb, mb := CutOfBlock(b, rest);
    CutsAgree(ta, ma, tb, mb, '\n');
    if a != [] && b != [] {
      CutsAgree(a[0].0, a[0].1, b[0].0, b[0].1, ':');
      RenderedIsInjective(a[1..], more, b[1..], rest);
    }
  }

  /** The first line of a header block, or the empty line that ends it. */
  lemma CutOfBlock(lines: seq<Header>, more: string) returns (first: string, behind: string)
    requires LinesOk(lines)
    ensures Rendered(lines) + ['\n'] + more == first + ['\n'] + behind && Lacks(first, '\n')
    ensures lines == [] ==> first == "" && behind == more
    ensures lines != [] ==>
              && first == lines[0].0 + [':'] + lines[0].1 && first != "" && Lacks(lines[0].0, ':')
              && behind == Rendered(lines[1..]) + ['\n'] + more && lines == [lines[0]] + lines[1..] && LinesOk(lines[1..])
  {
    if lines == [] {
      first, behind := "", more;
    } else {
      first, behind := LineText(lines[0]), Rendered(lines[1..]) + ['\n'] + more;
      RenderedUnfolds(lines, more);
      LineTextShape(lines[0]);
    }
  }

  lemma UriLacksNewline(bucket: Option<string>, key: string)
    ensures Lacks(CanonicalUri(bucket, key), '\n')
  {
    EncodedLacks(key, false, '\n');
    if bucket.Some? { EncodedLacks(bucket.value, true, '\n'); }
  }

  /** With the same addressing style, the path determines bucket and key. */
  lemma UriIsInjective(b: Option<string>, k: string, c: Option<string>, l: string)
    requires b.Some? == c.Some? && IsBytes(k) && IsBytes(l)
    requires b.Some? ==> IsBytes(b.value) && IsBytes(c.value)
    ensures CanonicalUri(b, k) == CanonicalUri(c, l) <==> b == c && k == l
  {
    hide Encoded, IsBytes;
    if CanonicalUri(b, k) == CanonicalUri(c, l) {
      assert CanonicalUri(b, k)[1..] == CanonicalUri(c, l)[1..];
      if b.Some? {
        EncodedLacks(b.value, true, '/');
        EncodedLacks(c.value, true, '/');
        CutsAgree(Encoded(b.value, true), Encoded(k, false), Encoded(c.value, true), Encoded(l, false), '/');
        EncodeIsInjective(b.value, c.value, true);
      } else {
        assert CanonicalUri(b, k)[1..] == Encoded(k, false) && CanonicalUri(c, l)[1..] == Encoded(l, false);
      }
      EncodeIsInjective(k, l, false);
    }
  }

  lemma {:induction false} EncodedOfConcat(a: string, b: string, encodeSlash: bool)
    ensures Encoded(a + b, encodeSlash) == Encoded(a, encodeSlash) + Encoded(b, encodeSlash)
  {
    if a == "" {
      assert a + b == b;
    } else {
      assert (a + b)[1..] == a[1..] + b;
      EncodedOfConcat(a[1..], b, encodeSlash);
    }
  }

  lemma SlashIsKept(key: string)
    ensures Encoded(['/'] + key, false) == ['/'] + Encoded(key, false)
  {
    assert (['/'] + key)[1..] == key;
  }

  lemma BytesOfRest(s: string)
    requires IsBytes(s) && s != ""
    ensures IsBytes(s[1..]) && s[0] as int < 256
  {
  }

  lemma {:induction false} DecodeAfterText(value: string, encodeSlash: bool, more: string)
    requires IsBytes(value)
    ensures Decoded(Encoded(value, encodeSlash) + more) == value + Decoded(more)
  {
    hide Encoded, EncodedByte, Decoded, IsBytes;
    if value == "" {
      EncodedNothing(encodeSlash);
      assert "" + more == more;
    } else {
      var first, rest := EncodedByte(value[0], encodeSlash), Encoded(value[1..], encodeSlash);
      EncodedSplits(value, 0, encodeSlash);
      assert value[0..] == value && first + rest + more == first + (rest + more);
      BytesOfRest(value);
      DecodeAfterByte(value[0], encodeSlash, rest + more);
      DecodeAfterText(value[1..], encodeSlash, more);
    }
  }

  /** The two encodings differ exactly on slashes. */
  lemma {:induction false} EncodingsAgree(s: string)
    ensures Encoded(s, true) == Encoded(s, false) <==> Lacks(s, '/')
  {
    if s != "" {
      EncodingsAgree(s[1..]);
      if s[0] == '/' {
        assert Encoded(s, true)[0] == '%' && Encoded(s, false)[0] == '/';
      } else {
        var first := EncodedByte(s[0], true);
        assert first == EncodedByte(s[0], false);
        assert Encoded(s, true)[|first|..] == Encoded(s[1..], true) && Encoded(s, false)[|first|..] == Encoded(s[1..], false);
        assert Lacks(s, '/') <==> Lacks(s[1..], '/') by { assert s == [s[0]] + s[1..]; }
      }
    }
  }

  /** Decoding the path gives a slash, the bucket and a slash where it is in the path, and the key. */
  lemma UriDecodes(bucket: Option<string>, key: string)
    requires IsBytes(key) && (bucket.Some? ==> IsBytes(bucket.value))
    ensures Decoded(CanonicalUri(bucket, key)) == "/" + (if bucket.Some? then bucket.value + "/" else "") + key
  {
    hide Encoded, Decoded, IsBytes;
    DecodeUndoesEncode(key, false);
    DecodeKept('/', Encoded(key, false));
    if bucket.Some? {
      var ending := ['/'] + Encoded(key, false);
      DecodeAfterText(bucket.value, true, ending);
      assert Encoded(bucket.value, true) + ['/'] + Encoded(key, false) == Encoded(bucket.value, true) + ending;
      DecodeKept('/', Encoded(bucket.value, true) + ending);
    }
  }

  lemma SameEnding(a: string, b: string, ending: string)
    requires a + ending == b + ending
    ensures a == b
  {
    assert |a| == |b|;
    assert a == (a + ending)[..|a|] && b == (b + ending)[..|b|];
  }

  /**
   Across styles the path is ambiguous exactly where one key in host style is a bucket without slashes, a slash
   and the other key.
   */
  lemma StylesCoincide(bucket: string, k: string, l: string)
    requires IsBytes(bucket) && IsBytes(k) && IsBytes(l)
    ensures CanonicalUri(Some(bucket), k) == CanonicalUri(None, l) <==> Lacks(bucket, '/') && l == bucket + "/" + k
  {
    hide Encoded, IsBytes, Lacks, Decoded;
    var ending := ['/'] + Encoded(k, false);
    var whole := bucket + (['/'] + k);
    SlashIsKept(k);
    EncodedOfConcat(bucket, ['/'] + k, false);
    assert Encoded(whole, false) == Encoded(bucket, false) + ending;
    EncodingsAgree(bucket);
    assert CanonicalUri(Some(bucket), k)[1..] == Encoded(bucket, true) + ending by {
      assert Encoded(bucket, true) + ['/'] + Encoded(k, false) == Encoded(bucket, true) + ending;
    }
    assert CanonicalUri(None, l)[1..] == Encoded(l, false);
    if CanonicalUri(Some(bucket), k) == CanonicalUri(None, l) {
      DecodeAfterText(bucket, true, ending);
      DecodeKept('/', Encoded(k, false));
      DecodeUndoesEncode(k, false);
      DecodeUndoesEncode(l, false);
      assert l == whole;
      SameEnding(Encoded(bucket, true), Encoded(bucket, false), ending);
    }
    assert whole == bucket + "/" + k;
  }

  /** Bucket and key agree, or one request names by path what the other names by host. */
  predicate SameTarget(b: Option<string>, k: string, c: Option<string>, l: string) {
    if b.Some? == c.Some? then b == c && k == l
    else if b.Some? then Lacks(b.value, '/') && l == b.value + "/" + k
    else Lacks(c.value, '/') && k == c.value + "/" + l
  }

  lemma UriIsTheTarget(b: Option<string>, k: string, c: Option<string>, l: string)
    requires IsBytes(k) && IsBytes(l) && (b.Some? ==> IsBytes(b.value)) && (c.Some? ==> IsBytes(c.value))
    ensures CanonicalUri(b, k) == CanonicalUri(c, l) <==> SameTarget(b, k, c, l)
  {
    hide CanonicalUri, IsBytes, Lacks;
    if b.Some? == c.Some? {
      UriIsInjective(b, k, c, l);
    } else if b.Some? {
      StylesCoincide(b.value, k, l);
    } else {
      StylesCoincide(c.value, l, k);
    }
  }

  lemma SortedFrom(headers: seq<Header>)
    ensures forall i :: 0 <= i < |SortByName(headers)| ==> SortByName(headers)[i] in headers
  {
    SortHolds(NAME_ORDER, headers);
    forall i | 0 <= i < |SortByName(headers)| ensures SortByName(headers)[i] in headers {
      assert SortByName(headers)[i] in multiset(SortByName(headers));
    }
  }

  lemma {:induction false} LinesAreOk(trim: string -> string, headers: seq<Header>)
    requires forall i :: 0 <= i < |headers| ==>
               Lacks(headers[i].0, ':') && Lacks(headers[i].0, '\n') && Lacks(headers[i].1, '\n')
    requires forall v :: Trims(trim, v)
    ensures LinesOk(Lines(trim, headers))
  {
    if headers != [] {
      assert Trims(trim, headers[0].1);
      LinesAreOk(trim, headers[1..]);
    }
  }

  lemma AcceptedLinesOk(trim: string -> string, r: Parts)
    requires Accepted(r) && Lacks(r.host, '\n') && forall v :: Trims(trim, v)
    ensures LinesOk(HeaderLines(trim, r))
  {
    var headers := [("host", r.host)] + r.headers;
    SortedFrom(headers);
    forall i | 0 <= i < |SortByName(headers)|
      ensures var h := SortByName(headers)[i]; Lacks(h.0, ':') && Lacks(h.0, '\n') && Lacks(h.1, '\n')
    {
      var h := SortByName(headers)[i];
      if h != headers[0] {
        assert h in r.headers;
        var j :| 0 <= j < |r.headers| && r.headers[j] == h;
        HeaderLacks(h);
      }
    }
    LinesAreOk(trim, SortByName(headers));
  }

  lemma HeaderLacks(h: Header)
    requires HeaderAllowed(h)
    ensures Lacks(h.0, ':') && Lacks(h.0, '\n') && Lacks(h.1, '\n')
  {
    forall i | 0 <= i < |h.0| ensures h.0[i] != ':' && h.0[i] != '\n' { assert IsHeaderChar(h.0[i]); }
    forall i | 0 <= i < |h.1| ensures h.1[i] != '\n' { assert !IsControl(h.1[i]); }
  }

  /**
   Two accepted requests have the same canonical text exactly when they agree on method, target, parameters
   with their multiplicities, and trimmed headers.
   */
  lemma TextIsTheRequest(trim: string -> string, a: Parts, b: Parts)
    requires Accepted(a) && Accepted(b) && Lacks(a.host, '\n') && Lacks(b.host, '\n') && forall v :: Trims(trim, v)
    requires IsBytes(a.key) && IsBytes(b.key) && PairBytes(a.query) && PairBytes(b.query)
    requires (a.bucket.Some? ==> IsBytes(a.bucket.value)) && (b.bucket.Some? ==> IsBytes(b.bucket.value))
    ensures CanonicalText(trim, a) == CanonicalText(trim, b) <==>
              && a.httpMethod == b.httpMethod && SameTarget(a.bucket, a.key, b.bucket, b.key)
              && multiset(a.query) == multiset(b.query) && HeaderLines(trim, a) == HeaderLines(trim, b)
  {
    hide CanonicalUri, CanonicalQuery, Rendered, HeaderLines, SignedHeaders, Lacks, Trims, PairBytes, IsBytes, Accepted, LinesOk, SameTarget;
    TextShape(trim, a);
    TextShape(trim, b);
    UriIsTheTarget(a.bucket, a.key, b.bucket, b.key);
    QueryIsTheMultiset(a.query, b.query);
    if CanonicalText(trim, a) == CanonicalText(trim, b) {
      TextCuts(trim, a, b);
    }
  }

  lemma TextShape(trim: string -> string, r: Parts)
    requires Accepted(r) && Lacks(r.host, '\n') && forall v :: Trims(trim, v)
    ensures Lacks(r.httpMethod, '\n') && Lacks(CanonicalUri(r.bucket, r.key), '\n')
    ensures Lacks(CanonicalQuery(r.query), '\n') && LinesOk(HeaderLines(trim, r))
  {
    AcceptedLinesOk(trim, r);
    UriLacksNewline(r.bucket, r.key);
    JoinedLacksNewline(Sort(PAIR_ORDER, r.query));
  }

  lemma TextCuts(trim: string -> string, a: Parts, b: Parts)
    requires CanonicalText(trim, a) == CanonicalText(trim, b)
    requires Lacks(a.httpMethod, '\n') && Lacks(b.httpMethod, '\n')
    requires Lacks(CanonicalUri(a.bucket, a.key), '\n') && Lacks(CanonicalUri(b.bucket, b.key), '\n')
    requires Lacks(CanonicalQuery(a.query), '\n') && Lacks(CanonicalQuery(b.query), '\n')
    requires LinesOk(HeaderLines(trim, a)) && LinesOk(HeaderLines(trim, b))
    ensures a.httpMethod == b.httpMethod && CanonicalUri(a.bucket, a.key) == CanonicalUri(b.bucket, b.key)
    ensures CanonicalQuery(a.query) == CanonicalQuery(b.query) && HeaderLines(trim, a) == HeaderLines(trim, b)
  {
    hide CanonicalUri, CanonicalQuery, Rendered, HeaderLines, SignedHeaders, Lacks, LinesOk;
    var ta := SignedHeaders(HeaderLines(trim, a)) + ['\n'] + "UNSIGNED-PAYLOAD";
    var tb := SignedHeaders(HeaderLines(trim, b)) + ['\n'] + "UNSIGNED-PAYLOAD";
    var ra, rb := Rendered(HeaderLines(trim, a)) + ['\n'] + ta, Rendered(HeaderLines(trim, b)) + ['\n'] + tb;
    var qa, qb := CanonicalQuery(a.query) + ['\n'] + ra, CanonicalQuery(b.query) + ['\n'] + rb;
    var ua, ub := CanonicalUri(a.bucket, a.key) + ['\n'] + qa, CanonicalUri(b.bucket, b.key) + ['\n'] + qb;
    CutsAgree(a.httpMethod, ua, b.httpMethod, ub, '\n');
    CutsAgree(CanonicalUri(a.bucket, a.key), qa, CanonicalUri(b.bucket, b.key), qb, '\n');
    CutsAgree(CanonicalQuery(a.query), ra, CanonicalQuery(b.query), rb, '\n');
    RenderedIsInjective(HeaderLines(trim, a), ta, HeaderLines(trim, b), tb);
  }

  // ---------------------------------------------------------------- the signed header names

  function NamesOf(lines: seq<Header>): (names: seq<string>)
    ensures |names| == |lines| && forall i :: 0 <= i < |lines| ==> names[i] == lines[i].0
  {
    seq(|lines|, i requires 0 <= i < |lines| => lines[i].0)
  }

  lemma {:induction false} SignedIsJoined(lines: seq<Header>)
    ensures SignedHeaders(lines) == JoinedBy(NamesOf(lines), ';')
  {
    if |lines| > 1 {
      SignedIsJoined(lines[1..]);
      assert NamesOf(lines)[1..] == NamesOf(lines[1..]);
    }
  }

  lemma {:induction false} LinesKeepNames(trim: string -> string, headers: seq<Header>)
    ensures NamesOf(Lines(trim, headers)) == NamesOf(headers)
  {
    if headers != [] {
      LinesKeepNames(trim, headers[1..]);
      assert NamesOf(headers)[1..] == NamesOf(headers[1..]);
      assert NamesOf(Lines(trim, headers))[1..] == NamesOf(Lines(trim, headers[1..]));
    }
  }

  lemma {:induction false} CountOfNames(headers: seq<Header>, name: string)
    ensures multiset(NamesOf(headers))[name] == NameCount(headers, name)
  {
    if headers != [] {
      CountOfNames(headers[1..], name);
      assert NamesOf(headers) == [headers[0].0] + NamesOf(headers[1..]);
    }
  }

  lemma SortKeepsNames(headers: seq<Header>)
    ensures multiset(NamesOf(SortByName(headers))) == multiset(NamesOf(headers))
  {
    forall name: string ensures multiset(NamesOf(SortByName(headers)))[name] == multiset(NamesOf(headers))[name] {
      SortKeepsCount(headers, name);
      CountOfNames(headers, name);
      CountOfNames(SortByName(headers), name);
    }
  }

  lemma NamesAscend(headers: seq<Header>)
    requires !HasEqualNeighbours(SortByName(headers))
    ensures var sorted := SortByName(headers);
            forall i, j :: 0 <= i < j < |sorted| ==> Before(sorted[i].0, sorted[j].0)
  {
    hide Before;
    var sorted := SortByName(headers);
    NameOrderIsTotal();
    SortSorts(NAME_ORDER, headers);
    NeighboursByCoincidence(sorted);
    forall i, j | 0 <= i < j < |sorted| ensures Before(sorted[i].0, sorted[j].0) {
      assert NAME_ORDER(sorted[i], sorted[j]) && sorted[i].0 != sorted[j].0;
    }
  }

  /** Cut at its semicolons, the list of signed headers is the names of all headers and `host`, each once, in ascending order. */
  lemma SignedHeadersAreTheNames(trim: string -> string, r: Parts)
    requires Accepted(r)
    ensures var names := CutAt(SignedHeaders(HeaderLines(trim, r)), ';');
            && multiset(names) == multiset(["host"] + NamesOf(r.headers))
            && forall i, j :: 0 <= i < j < |names| ==> Before(names[i], names[j])
  {
    hide HasEqualNeighbours, Before, SortByName, Lacks, SignedHeaders, JoinedBy;
    var all := [("host", r.host)] + r.headers;
    var sorted := SortByName(all);
    SortKeepsNames(all);
    NamesAscend(all);
    assert NamesOf(all) == ["host"] + NamesOf(r.headers);
    LinesKeepNames(trim, sorted);
    SignedIsJoined(HeaderLines(trim, r));
    SortedFrom(all);
    forall i | 0 <= i < |sorted| ensures Lacks(sorted[i].0, ';') { NameHasNoSemicolon(r, sorted[i]); }
    assert NamesOf(all)[0] in multiset(NamesOf(sorted));
    CutUndoesJoin(NamesOf(sorted), ';');
  }

  lemma NameHasNoSemicolon(r: Parts, h: Header)
    requires Accepted(r) && h in [("host", r.host)] + r.headers
    ensures Lacks(h.0, ';')
  {
    if h != ("host", r.host) {
      assert h in r.headers;
      var j :| 0 <= j < |r.headers| && r.headers[j] == h;
      assert HeaderAllowed(h);
      forall i | 0 <= i < |h.0| ensures h.0[i] != ';' { assert IsHeaderChar(h.0[i]); }
    }
  }

  // ---------------------------------------------------------------- the text line by line

  /** One line for each header: its name, a colon and its trimmed value. */
  function TextsOf(trim: string -> string, headers: seq<Header>): (texts: seq<string>)
    ensures |texts| == |headers| && forall i :: 0 <= i < |headers| ==> texts[i] == headers[i].0 + [':'] + trim(headers[i].1)
  {
    seq(|headers|, i requires 0 <= i < |headers| => headers[i].0 + [':'] + trim(headers[i].1))
  }

  lemma {:induction false} BlockIsJoined(trim: string -> string, headers: seq<Header>, behind: seq<string>)
    requires behind != []
    ensures Rendered(Lines(trim, headers)) + ['\n'] + JoinedBy(behind, '\n')
            == JoinedBy(TextsOf(trim, headers) + ([""] + behind), '\n')
  {
    if headers == [] {
      assert TextsOf(trim, headers) + ([""] + behind) == [""] + behind && ([""] + behind)[1..] == behind;
      assert Rendered([]) + ['\n'] + JoinedBy(behind, '\n') == "" + ['\n'] + JoinedBy(behind, '\n');
    } else {
      BlockIsJoined(trim, headers[1..], behind);
      var first := headers[0].0 + [':'] + trim(headers[0].1);
      assert TextsOf(trim, headers) == [first] + TextsOf(trim, headers[1..]);
      var parts, more := TextsOf(trim, headers) + ([""] + behind), TextsOf(trim, headers[1..]) + ([""] + behind);
      assert parts[0] == first && parts[1..] == more;
      var lines := Lines(trim, headers);
      assert lines[1..] == Lines(trim, headers[1..]) && LineText(lines[0]) == first;
      RenderedUnfolds(lines, JoinedBy(behind, '\n'));
    }
  }

  /** The lines of the text: method, path, query, the headers in the order of their names, a blank, their names, the payload mark. */
  function LinesOfText(trim: string -> string, r: Parts): seq<string> {
    [r.httpMethod, CanonicalUri(r.bucket, r.key), CanonicalQuery(r.query)]
    + (TextsOf(trim, SortByName([("host", r.host)] + r.headers))
       + ["", SignedHeaders(HeaderLines(trim, r)), "UNSIGNED-PAYLOAD"])
  }

  lemma TextIsJoined(trim: string -> string, r: Parts)
    ensures CanonicalText(trim, r) == JoinedBy(LinesOfText(trim, r), '\n')
  {
    hide CanonicalUri, CanonicalQuery, Rendered, SignedHeaders, SortByName, Lines;
    var signed := SignedHeaders(HeaderLines(trim, r));
    var behind := [signed, "UNSIGNED-PAYLOAD"];
    assert behind[1..] == ["UNSIGNED-PAYLOAD"];
    assert JoinedBy(behind, '\n') == signed + ['\n'] + "UNSIGNED-PAYLOAD";
    var sorted := SortByName([("host", r.host)] + r.headers);
    BlockIsJoined(trim, sorted, behind);
    assert [""] + behind == ["", signed, "UNSIGNED-PAYLOAD"];
    var block := TextsOf(trim, sorted) + ([""] + behind);
    var three := [r.httpMethod, CanonicalUri(r.bucket, r.key), CanonicalQuery(r.query)];
    assert three + block == LinesOfText(trim, r);
    JoinThree(three[0], three[1], three[2], block);
  }

  lemma JoinThree(a: string, b: string, c: string, more: seq<string>)
    requires more != []
    ensures JoinedBy([a, b, c] + more, '\n') == a + ['\n'] + (b + ['\n'] + (c + ['\n'] + JoinedBy(more, '\n')))
  {
    var two := [c] + more;
    var three := [b] + two;
    assert [a, b, c] + more == [a] + three;
    JoinOne(a, three);
    JoinOne(b, two);
    JoinOne(c, more);
  }

  lemma JoinOne(first: string, more: seq<string>)
    requires more != []
    ensures JoinedBy([first] + more, '\n') == first + ['\n'] + JoinedBy(more, '\n')
  {
    assert ([first] + more)[1..] == more;
  }

  /** An accepted request's text, cut at its line breaks, is these lines. */
  lemma TextHasTheseLines(trim: string -> string, r: Parts)
    requires Accepted(r) && Lacks(r.host, '\n') && forall v :: Trims(trim, v)
    ensures CutAt(CanonicalText(trim, r), '\n') == LinesOfText(trim, r)
  {
    hide CanonicalUri, CanonicalQuery, Rendered, SortByName, SignedHeaders, Lacks, Accepted, JoinedBy;
    TextShape(trim, r);
    TextIsJoined(trim, r);
    HeaderTextsLack(trim, r);
    SignedLacks(trim, r);
    assert Lacks("", '\n') && Lacks("UNSIGNED-PAYLOAD", '\n') by { PlainLacks(); }
    CutUndoesJoin(LinesOfText(trim, r), '\n');
  }

  lemma PlainLacks()
    ensures Lacks("", '\n') && Lacks("UNSIGNED-PAYLOAD", '\n')
  {
  }

  lemma HeaderTextsLack(trim: string -> string, r: Parts)
    requires LinesOk(HeaderLines(trim, r))
    ensures var texts := TextsOf(trim, SortByName([("host", r.host)] + r.headers));
            forall i :: 0 <= i < |texts| ==> Lacks(texts[i], '\n')
  {
    hide SortByName;
    var sorted := SortByName([("host", r.host)] + r.headers);
    LinesAt(trim, sorted);
    forall i | 0 <= i < |sorted| ensures Lacks(TextsOf(trim, sorted)[i], '\n') {
      assert LineOk(Lines(trim, sorted)[i]);
      LineTextShape(Lines(trim, sorted)[i]);
    }
  }

  lemma {:induction false} LinesAt(trim: string -> string, headers: seq<Header>)
    ensures |Lines(trim, headers)| == |headers|
    ensures forall i :: 0 <= i < |headers| ==> Lines(trim, headers)[i] == (headers[i].0, trim(headers[i].1))
  {
    if headers != [] { LinesAt(trim, headers[1..]); }
  }

  lemma SignedLacks(trim: string -> string, r: Parts)
    requires LinesOk(HeaderLines(trim, r))
    ensures Lacks(SignedHeaders(HeaderLines(trim, r)), '\n')
  {
    NamesLack(HeaderLines(trim, r));
  }

  lemma {:induction false} NamesLack(lines: seq<Header>)
    requires LinesOk(lines)
    ensures Lacks(SignedHeaders(lines), '\n')
  {
    if |lines| > 1 {
      NamesLack(lines[1..]);
      assert LineOk(lines[0]);
    } else if |lines| == 1 {
      assert LineOk(lines[0]);
    }
  }
}
