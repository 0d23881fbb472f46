/**
 The canonical request text of a presigned URL. A text is a sequence of bytes, written as characters
 below U+0100. The text is unambiguous: whoever computes the same text meant the same request.
 */
module CanonicalRequest {
  import opened Separators
  import opened TextOrder
  import opened Sorting

  predicate IsBytes(s: string) {
    forall i :: 0 <= i < |s| ==> s[i] as int < 256
  }

  // ---------------------------------------------------------------- percent encoding

  const HEX := "0123456789ABCDEF"

  /** The unreserved characters of section 2.3 of RFC 3986. */
  predicate IsUnreserved(c: char) {
    'a' <= c <= 'z' || 'A' <= c <= 'Z' || '0' <= c <= '9' || c == '-' || c == '_' || c == '.' || c == '~'
  }

  predicate Kept(c: char, encodeSlash: bool) {
    IsUnreserved(c) || (!encodeSlash && c == '/')
  }

  function EncodedByte(c: char, encodeSlash: bool): string {
    if Kept(c, encodeSlash) then [c] else ['%', HEX[c as int / 16 % 16], HEX[c as int % 16]]
  }

  function Encoded(value: string, encodeSlash: bool): string {
    if value == "" then "" else EncodedByte(value[0], encodeSlash) + Encoded(value[1..], encodeSlash)
  }

  method PercentEncode(value: string, encodeSlash: bool) returns (encoded: string)
    requires IsBytes(value)
    ensures encoded == Encoded(value, encodeSlash)
  {
    hide Encoded, Kept;
    encoded := "";
    assert value[0..] == value;
    for i := 0 to |value|
      invariant encoded + Encoded(value[i..], encodeSlash) == Encoded(value, encodeSlash)
    {
      var c := value[i];
      EncodedSplits(value, i, encodeSlash);
      ghost var before := encoded;
      if Kept(c, encodeSlash) {
        encoded := encoded + [c];
      } else {
        encoded := encoded + ['%', HEX[c as int / 16 % 16], HEX[c as int % 16]];
      }
      assert encoded == before + EncodedByte(c, encodeSlash);
    }
    EncodedNothing(encodeSlash);
    assert value[|value|..] == "";
  }

  lemma EncodedNothing(encodeSlash: bool)
    ensures Encoded("", encodeSlash) == ""
  {
  }

  lemma EncodedSplits(value: string, i: nat, encodeSlash: bool)
    requires i < |value|
    ensures Encoded(value[i..], encodeSlash) == EncodedByte(value[i], encodeSlash) + Encoded(value[i + 1..], encodeSlash)
  {
    assert value[i..][1..] == value[i + 1..];
  }

  function HexValue(c: char): int {
    if '0' <= c <= '9' then c as int - '0' as int else if 'A' <= c <= 'F' then c as int - 'A' as int + 10 else 0
  }

  /** Section 2.1 of RFC 3986: a percent sign and two hexadecimal digits stand for one byte. */
  function Decoded(s: string): string {
    if s == "" then ""
    else if s[0] == '%' && |s| >= 3 then [(16 * HexValue(s[1]) + HexValue(s[2])) as char] + Decoded(s[3..])
    else [s[0]] + Decoded(s[1..])
  }

  lemma HexDigits(n: int)
    requires 0 <= n < 16
    ensures HexValue(HEX[n]) == n && IsUnreserved(HEX[n])
  {
  }

  lemma NibblesRebuild(c: char)
    requires c as int < 256
    ensures var high, low := HEX[c as int / 16 % 16], HEX[c as int % 16];
            0 <= 16 * HexValue(high) + HexValue(low) < 256 && (16 * HexValue(high) + HexValue(low)) as char == c
  {
    HexDigits(c as int / 16 % 16);
    HexDigits(c as int % 16);
  }

  lemma DecodeEscape(high: char, low: char, more: string)
    ensures Decoded(['%', high, low] + more) == [(16 * HexValue(high) + HexValue(low)) as char] + Decoded(more)
  {
    var s := ['%', high, low] + more;
    assert s[3..] == more;
  }

  lemma DecodeKept(c: char, more: string)
    requires c != '%'
    ensures Decoded([c] + more) == [c] + Decoded(more)
  {
    assert ([c] + more)[1..] == more;
  }

  lemma DecodeAfterByte(c: char, encodeSlash: bool, more: string)
    requires c as int < 256
    ensures Decoded(EncodedByte(c, encodeSlash) + more) == [c] + Decoded(more)
  {
    hide Decoded, HexValue;
    if Kept(c, encodeSlash) {
      DecodeKept(c, more);
    } else {
      NibblesRebuild(c);
      DecodeEscape(HEX[c as int / 16 % 16], HEX[c as int % 16], more);
    }
  }

  /** Decoding undoes encoding, with or without slashes kept. */
  lemma {:induction false} DecodeUndoesEncode(value: string, encodeSlash: bool)
    requires IsBytes(value)
    ensures Decoded(Encoded(value, encodeSlash)) == value
  {
    if value != "" {
      DecodeAfterByte(value[0], encodeSlash, Encoded(value[1..], encodeSlash));
      DecodeUndoesEncode(value[1..], encodeSlash);
    }
  }

  lemma EncodeIsInjective(a: string, b: string, encodeSlash: bool)
    requires IsBytes(a) && IsBytes(b) && Encoded(a, encodeSlash) == Encoded(b, encodeSlash)
    ensures a == b
  {
    DecodeUndoesEncode(a, encodeSlash);
    DecodeUndoesEncode(b, encodeSlash);
  }

  /** What encoded text consists of; in particular none of the separators of the canonical request. */
  lemma {:induction false} EncodedAlphabet(value: string, encodeSlash: bool)
    ensures forall i :: 0 <= i < |Encoded(value, encodeSlash)| ==>
              var c := Encoded(value, encodeSlash)[i]; IsUnreserved(c) || c == '%' || (!encodeSlash && c == '/')
  {
    if value != "" {
      EncodedAlphabet(value[1..], encodeSlash);
      var c := value[0];
      if !Kept(c, encodeSlash) {
        HexDigits(c as int / 16 % 16);
        HexDigits(c as int % 16);
      }
      var first, rest := EncodedByte(c, encodeSlash), Encoded(value[1..], encodeSlash);
      forall i | 0 <= i < |first + rest|
        ensures var x := (first + rest)[i]; IsUnreserved(x) || x == '%' || (!encodeSlash && x == '/') {
        if i >= |first| { assert (first + rest)[i] == rest[i - |first|]; }
      }
    }
  }

  lemma EncodedLacks(value: string, encodeSlash: bool, c: char)
    requires !IsUnreserved(c) && c != '%' && (c == '/' ==> encodeSlash)
    ensures Lacks(Encoded(value, encodeSlash), c)
  {
    EncodedAlphabet(value, encodeSlash);
  }

  // ---------------------------------------------------------------- the query

  type Pair = (string, string)

  predicate PairBytes(pairs: seq<Pair>) {
    forall i :: 0 <= i < |pairs| ==> IsBytes(pairs[i].0) && IsBytes(pairs[i].1)
  }

  function EncodedPair(p: Pair): Pair {
    (Encoded(p.0, true), Encoded(p.1, true))
  }

  /** The order of the sort: by encoded name, then by encoded value. */
  predicate PairAtMost(p: Pair, q: Pair) {
    var a, b := EncodedPair(p), EncodedPair(q);
    Before(a.0, b.0) || (a.0 == b.0 && AtMost(a.1, b.1))
  }

  lemma PairTotal(p: Pair, q: Pair)
    ensures PairAtMost(p, q) || PairAtMost(q, p)
  {
    hide Encoded;
    Total(EncodedPair(p).0, EncodedPair(q).0);
    Total(EncodedPair(p).1, EncodedPair(q).1);
  }

  lemma PairTransitive(p: Pair, q: Pair, r: Pair)
    requires PairAtMost(p, q) && PairAtMost(q, r)
    ensures PairAtMost(p, r)
  {
    hide Encoded, Before;
    var a, b, c := EncodedPair(p), EncodedPair(q), EncodedPair(r);
    if Before(a.0, b.0) && Before(b.0, c.0) { Transitive(a.0, b.0, c.0); }
    if Before(a.1, b.1) && Before(b.1, c.1) { Transitive(a.1, b.1, c.1); }
  }

  lemma PairAntisymmetric(p: Pair, q: Pair)
    requires PairBytes([p, q]) && PairAtMost(p, q) && PairAtMost(q, p)
    ensures p == q
  {
    hide Encoded, Before;
    assert [p, q][0] == p && [p, q][1] == q;
    var a, b := EncodedPair(p), EncodedPair(q);
    Asymmetric(a.0, b.0);
    Asymmetric(a.1, b.1);
    Irreflexive(a.0);
    EncodeIsInjective(p.0, q.0, true);
    EncodeIsInjective(p.1, q.1, true);
  }

  const PAIR_ORDER: Order<Pair> := (p, q) => PairAtMost(p, q)

  lemma PairOrderIsTotal()
    ensures IsTotalOrder(PAIR_ORDER)
  {
    hide PairAtMost;
    forall p, q ensures PAIR_ORDER(p, q) || PAIR_ORDER(q, p) { PairTotal(p, q); }
    forall p, q, r | PAIR_ORDER(p, q) && PAIR_ORDER(q, r) ensures PAIR_ORDER(p, r) { PairTransitive(p, q, r); }
  }

  /** Equal parameters are the only ties. */
  lemma PairsHaveNoTies(pairs: seq<Pair>)
    requires PairBytes(pairs)
    ensures NoTies(PAIR_ORDER, pairs)
  {
    hide PairAtMost, IsBytes;
    forall i, j | 0 <= i < |pairs| && 0 <= j < |pairs| && PAIR_ORDER(pairs[i], pairs[j]) && PAIR_ORDER(pairs[j], pairs[i])
      ensures pairs[i] == pairs[j]
    {
      assert PairBytes([pairs[i], pairs[j]]);
      PairAntisymmetric(pairs[i], pairs[j]);
    }
  }

  function RenderedPair(p: Pair): string {
    Encoded(p.0, true) + "=" + Encoded(p.1, true)
  }

  function JoinedPairs(pairs: seq<Pair>): string {
    if pairs == [] then ""
    else if |pairs| == 1 then RenderedPair(pairs[0])
    else RenderedPair(pairs[0]) + ['&'] + JoinedPairs(pairs[1..])
  }

  function CanonicalQuery(query: seq<Pair>): string {
    JoinedPairs(Sort(PAIR_ORDER, query))
  }

  lemma RenderedPairShape(p: Pair)
    ensures Lacks(Encoded(p.0, true), '=') && Lacks(Encoded(p.1, true), '=')
    ensures Lacks(RenderedPair(p), '&') && Lacks(RenderedPair(p), '\n') && RenderedPair(p) != ""
  {
    EncodedLacks(p.0, true, '=');
    EncodedLacks(p.1, true, '=');
    EncodedLacks(p.0, true, '&');
    EncodedLacks(p.1, true, '&');
    EncodedLacks(p.0, true, '\n');
    EncodedLacks(p.1, true, '\n');
  }

  lemma RenderedPairIsInjective(p: Pair, q: Pair)
    requires IsBytes(p.0) && IsBytes(p.1) && IsBytes(q.0) && IsBytes(q.1) && RenderedPair(p) == RenderedPair(q)
    ensures p == q
  {
    RenderedPairShape(p);
    RenderedPairShape(q);
    CutsAgree(Encoded(p.0, true), Encoded(p.1, true), Encoded(q.0, true), Encoded(q.1, true), '=');
    EncodeIsInjective(p.0, q.0, true);
    EncodeIsInjective(p.1, q.1, true);
  }

  lemma {:induction false} JoinedLacksNewline(pairs: seq<Pair>)
    ensures Lacks(JoinedPairs(pairs), '\n')
  {
    if pairs != [] {
      RenderedPairShape(pairs[0]);
      if |pairs| > 1 { JoinedLacksNewline(pairs[1..]); }
    }
  }

  lemma JoinedUnfolds(pairs: seq<Pair>)
    requires pairs != []
    ensures |pairs| == 1 ==> JoinedPairs(pairs) == RenderedPair(pairs[0])
    ensures |pairs| > 1 ==> JoinedPairs(pairs) == RenderedPair(pairs[0]) + ['&'] + JoinedPairs(pairs[1..])
    ensures pairs == [pairs[0]] + pairs[1..]
  {
    hide RenderedPair;
  }

  lemma OneIsNotMany(one: string, first: string, more: string)
    requires Lacks(one, '&')
    ensures one != first + ['&'] + more
  {
    assert (first + ['&'] + more)[|first|] == '&';
  }

  /** The joined text can be taken apart in one way only. */
  lemma {:induction false} JoinedIsInjective(a: seq<Pair>, b: seq<Pair>)
    requires PairBytes(a) && PairBytes(b) && JoinedPairs(a) == JoinedPairs(b)
    ensures a == b
    decreases |a|
  {
    if a != [] { RenderedPairShape(a[0]); JoinedUnfolds(a); }
    if b != [] { RenderedPairShape(b[0]); JoinedUnfolds(b); }
    hide IsBytes, RenderedPair, Lacks;
    if a != [] && b != [] {
      var x, y := RenderedPair(a[0]), RenderedPair(b[0]);
      if |a| == 1 && |b| == 1 {
        RenderedPairIsInjective(a[0], b[0]);
      } else if |a| > 1 && |b| > 1 {
        CutsAgree(x, JoinedPairs(a[1..]), y, JoinedPairs(b[1..]), '&');
        RenderedPairIsInjective(a[0], b[0]);
        JoinedIsInjective(a[1..], b[1..]);
      } else if |a| > 1 {
        OneIsNotMany(y, x, JoinedPairs(a[1..]));
      } else {
        OneIsNotMany(x, y, JoinedPairs(b[1..]));
      }
    }
  }

  lemma SortBytes(pairs: seq<Pair>)
    requires PairBytes(pairs)
    ensures PairBytes(Sort(PAIR_ORDER, pairs)) && multiset(Sort(PAIR_ORDER, pairs)) == multiset(pairs)
  {
    SortHolds(PAIR_ORDER, pairs);
    var r := Sort(PAIR_ORDER, pairs);
    forall i | 0 <= i < |r| ensures IsBytes(r[i].0) && IsBytes(r[i].1) {
      assert r[i] in multiset(r);
      assert r[i] in pairs;
    }
  }

  /** Two parameter lists have the same canonical query exactly when they hold the same parameters as often. */
  lemma QueryIsTheMultiset(a: seq<Pair>, b: seq<Pair>)
    requires PairBytes(a) && PairBytes(b)
    ensures CanonicalQuery(a) == CanonicalQuery(b) <==> multiset(a) == multiset(b)
  {
    hide JoinedPairs, IsBytes, PairBytes, NoTies, IsTotalOrder, IsSorted, Sort;
    PairOrderIsTotal();
    SortSorts(PAIR_ORDER, a);
    SortSorts(PAIR_ORDER, b);
    SortBytes(a);
    SortBytes(b);
    PairsHaveNoTies(Sort(PAIR_ORDER, a));
    if multiset(a) == multiset(b) {
      SortedIsUnique(PAIR_ORDER, Sort(PAIR_ORDER, a), Sort(PAIR_ORDER, b));
    } else if CanonicalQuery(a) == CanonicalQuery(b) {
      JoinedIsInjective(Sort(PAIR_ORDER, a), Sort(PAIR_ORDER, b));
    }
  }

  // ---------------------------------------------------------------- parsing a query back

  function ParsedPair(s: string): Pair {
    var i := IndexOf(s, '=');
    (Decoded(s[..i]), if i < |s| then Decoded(s[i + 1..]) else "")
  }

  function ParsedQuery(s: string): seq<Pair>
    decreases |s|
  {
    if s == "" then []
    else
      var i := IndexOf(s, '&');
      [ParsedPair(s[..i])] + if i < |s| then ParsedQuery(s[i + 1..]) else []
  }

  lemma PairParsesBack(p: Pair)
    requires IsBytes(p.0) && IsBytes(p.1)
    ensures ParsedPair(RenderedPair(p)) == p
  {
    RenderedPairShape(p);
    IndexOfCut(Encoded(p.0, true), '=', Encoded(p.1, true));
    DecodeUndoesEncode(p.0, true);
    DecodeUndoesEncode(p.1, true);
  }

  lemma {:induction false} PairsParseBack(pairs: seq<Pair>)
    requires PairBytes(pairs)
    ensures ParsedQuery(JoinedPairs(pairs)) == pairs
    decreases |pairs|
  {
    if pairs != [] {
      JoinedUnfolds(pairs);
      RenderedPairShape(pairs[0]);
      PairParsesBack(pairs[0]);
      hide IsBytes, RenderedPair, ParsedPair, Lacks, JoinedPairs;
      if |pairs| == 1 {
        IndexOfNone(RenderedPair(pairs[0]), '&');
      } else {
        IndexOfCut(RenderedPair(pairs[0]), '&', JoinedPairs(pairs[1..]));
        PairsParseBack(pairs[1..]);
      }
    }
  }

  /** A canonical query parses back to its parameters, in canonical order, with their multiplicities. */
  lemma QueryParsesBack(query: seq<Pair>)
    requires PairBytes(query)
    ensures ParsedQuery(CanonicalQuery(query)) == Sort(PAIR_ORDER, query)
    ensures multiset(ParsedQuery(CanonicalQuery(query))) == multiset(query)
  {
    SortBytes(query);
    PairsParseBack(Sort(PAIR_ORDER, query));
  }

  // ---------------------------------------------------------------- what the encoding and the order are

  /** Unreserved text, and slashes where they are kept, stay as they are; every other byte becomes an escape. */
  lemma {:induction false} EncodedKeepsUnreserved(value: string, encodeSlash: bool)
    requires forall i :: 0 <= i < |value| ==> IsUnreserved(value[i]) || (value[i] == '/' && !encodeSlash)
    ensures Encoded(value, encodeSlash) == value
  {
    if value != "" { EncodedKeepsUnreserved(value[1..], encodeSlash); }
  }

  /** The parts of a canonical query ascend by encoded name, and by encoded value where names are equal. */
  lemma QueryAscends(query: seq<Pair>, i: nat, j: nat)
    requires PairBytes(query) && i < j < |ParsedQuery(CanonicalQuery(query))|
    ensures var p, q := ParsedQuery(CanonicalQuery(query))[i], ParsedQuery(CanonicalQuery(query))[j];
            || Before(Encoded(p.0, true), Encoded(q.0, true))
            || (p.0 == q.0 && (p.1 == q.1 || Before(Encoded(p.1, true), Encoded(q.1, true))))
  {
    hide Encoded, Before, CanonicalQuery, ParsedQuery;
    QueryParsesBack(query);
    PairOrderIsTotal();
    SortSorts(PAIR_ORDER, query);
    SortBytes(query);
    var sorted := Sort(PAIR_ORDER, query);
    assert PAIR_ORDER(sorted[i], sorted[j]);
    if Encoded(sorted[i].0, true) == Encoded(sorted[j].0, true) { EncodeIsInjective(sorted[i].0, sorted[j].0, true); }
    if Encoded(sorted[i].1, true) == Encoded(sorted[j].1, true) { EncodeIsInjective(sorted[i].1, sorted[j].1, true); }
  }
}
