/**
 Texts of Unicode scalars: the half-open range that a prefix query scans, and the agreement of scalar
 order with the order of UTF-8 bytes. A `char` is a Unicode scalar, so it skips the surrogates.
 */
module UnicodeText {
  import opened Options
  import opened TextOrder

  predicate StartsWith(s: string, p: string) {
    |p| <= |s| && s[..|p|] == p
  }

  // ---------------------------------------------------------------- the range of a prefix

  /** The next scalar, over the surrogate gap; there is none after U+10FFFF. */
  function NextScalar(c: char): Option<char> {
    if c as int == 0xD7FF then Some(0xE000 as char)
    else if c as int == 0x10FFFF then None
    else Some((c as int + 1) as char)
  }

  lemma NextIsSuccessor(c: char, d: char)
    ensures NextScalar(c).Some? ==> c < NextScalar(c).value && (d < NextScalar(c).value <==> d <= c)
    ensures NextScalar(c).None? ==> d <= c
  {
  }

  /** The least text after every text that starts with `p`. */
  function UpperBound(p: string): Option<string> {
    if p == "" then None
    else
      match UpperBound(p[1..])
      case Some(rest) => Some([p[0]] + rest)
      case None => match NextScalar(p[0]) case Some(next) => Some([next]) case None => None
  }

  lemma {:induction false} UpperBoundAt(p: string, i: nat)
    requires i < |p| && UpperBound(p[i + 1..]) == None
    ensures NextScalar(p[i]).Some? ==> UpperBound(p) == Some(p[..i] + [NextScalar(p[i]).value])
    ensures NextScalar(p[i]).None? ==> UpperBound(p[i..]) == None
    decreases i
  {
    assert p[i..][1..] == p[i + 1..];
    if NextScalar(p[i]).Some? {
      var next := NextScalar(p[i]).value;
      if i > 0 {
        assert p[1..][i - 1 + 1..] == p[i + 1..] && p[1..][i - 1] == p[i];
        UpperBoundAt(p[1..], i - 1);
        assert [p[0]] + (p[1..][..i - 1] + [next]) == p[..i] + [next];
      } else {
        assert p[..0] + [next] == [next];
      }
    }
  }

  /** The loop from the right: the last scalar that has a successor is replaced and the rest cut off. */
  method PrefixUpperBound(prefix: string) returns (bound: Option<string>)
    ensures bound == UpperBound(prefix)
  {
    var characters := prefix;
    var index := |characters|;
    while index > 0
      invariant 0 <= index <= |prefix| && characters == prefix && UpperBound(prefix[index..]) == None
    {
      index := index - 1;
      UpperBoundAt(prefix, index);
      var next := NextScalar(characters[index]);
      if next.Some? {
        characters := characters[index := next.value];
        characters := characters[..index + 1];
        assert characters == prefix[..index] + [next.value];
        return Some(characters);
      }
    }
    assert prefix[0..] == prefix;
    return None;
  }

  predicate InRange(s: string, p: string) {
    AtMost(p, s) && match UpperBound(p) case Some(bound) => Before(s, bound) case None => true
  }

  /** The range holds exactly the texts with the prefix. */
  lemma {:induction false} RangeIsPrefix(p: string, s: string)
    ensures StartsWith(s, p) <==> InRange(s, p)
    decreases |p|
  {
    if p == "" {
      assert s[..0] == "";
    } else if s != "" {
      RangeIsPrefix(p[1..], s[1..]);
      NextIsSuccessor(p[0], s[0]);
      assert StartsWith(s, p) <==> p[0] == s[0] && StartsWith(s[1..], p[1..]) by {
        if p[0] == s[0] && StartsWith(s[1..], p[1..]) { assert s[..|p|] == [s[0]] + s[1..][..|p| - 1]; }
        if StartsWith(s, p) { assert s[1..][..|p| - 1] == s[..|p|][1..] && s[0] == s[..|p|][0]; }
      }
      RangeUnfolds(p, s);
    }
  }

  lemma RangeUnfolds(p: string, s: string)
    requires p != "" && s != ""
    ensures InRange(s, p) <==> p[0] == s[0] && InRange(s[1..], p[1..])
  {
    NextIsSuccessor(p[0], s[0]);
    assert AtMost(p, s) <==> p[0] < s[0] || (p[0] == s[0] && AtMost(p[1..], s[1..])) by {
      if p[0] == s[0] && p[1..] == s[1..] { assert p == [p[0]] + p[1..] && s == [s[0]] + s[1..]; }
    }
    if UpperBound(p[1..]).Some? {
      var rest := UpperBound(p[1..]).value;
      assert ([p[0]] + rest)[1..] == rest;
    } else if NextScalar(p[0]).Some? {
      var next := NextScalar(p[0]).value;
      assert UpperBound(p) == Some([next]);
      assert Before(s, [next]) <==> s[0] < next by { assert [next][1..] == "" && [next][0] == next; }
    }
  }

  // ---------------------------------------------------------------- UTF-8

  type Bytes = seq<int>

  predicate BytesBefore(a: Bytes, b: Bytes) {
    if b == [] then false
    else if a == [] then true
    else a[0] < b[0] || (a[0] == b[0] && BytesBefore(a[1..], b[1..]))
  }

  /** Section 3 of RFC 3629. */
  function Utf8(c: char): Bytes {
    var n := c as int;
    if n < 0x80 then [n]
    else if n < 0x800 then [0xC0 + n / 64, 0x80 + n % 64]
    else if n < 0x10000 then [0xE0 + n / 4096, 0x80 + n / 64 % 64, 0x80 + n % 64]
    else [0xF0 + n / 262144, 0x80 + n / 4096 % 64, 0x80 + n / 64 % 64, 0x80 + n % 64]
  }

  predicate IsTail(b: int) {
    0x80 <= b <= 0xBF
  }

  /** The bytes decode to the scalar: a first byte that tells their number, and six bits in each of the others. */
  lemma Utf8Decodes(c: char)
    ensures var n, b := c as int, Utf8(c);
            && 1 <= |b| <= 4 && (forall i :: 1 <= i < |b| ==> IsTail(b[i]))
            && (|b| == 1 ==> 0 <= n <= 0x7F && n == b[0])
            && (|b| == 2 ==> 0x80 <= n <= 0x7FF && n == (b[0] - 0xC0) * 64 + (b[1] - 0x80))
            && (|b| == 3 ==> 0x800 <= n <= 0xFFFF && n == (b[0] - 0xE0) * 4096 + (b[1] - 0x80) * 64 + (b[2] - 0x80))
            && (|b| == 4 ==>
                  0x10000 <= n <= 0x10FFFF
                  && n == (b[0] - 0xF0) * 262144 + (b[1] - 0x80) * 4096 + (b[2] - 0x80) * 64 + (b[3] - 0x80))
  {
    var n := c as int;
    if n >= 0x10000 {
      assert n / 4096 == n / 262144 * 64 + n / 4096 % 64 && n / 64 == n / 4096 * 64 + n / 64 % 64;
    } else if n >= 0x800 {
      assert n / 64 == n / 4096 * 64 + n / 64 % 64;
    }
  }

  function Utf8Text(s: string): Bytes {
    if s == "" then [] else Utf8(s[0]) + Utf8Text(s[1..])
  }

  /** Two byte sequences first differ at `i`, the first being smaller there. */
  predicate DiffersAt(a: Bytes, b: Bytes, i: nat) {
    i < |a| && i < |b| && a[..i] == b[..i] && a[i] < b[i]
  }

  lemma {:induction false} DifferenceDecides(a: Bytes, x: Bytes, b: Bytes, y: Bytes, i: nat)
    requires DiffersAt(a, b, i)
    ensures BytesBefore(a + x, b + y) && !BytesBefore(b + y, a + x) && a + x != b + y
    decreases i
  {
    if i > 0 {
      assert a[0] == a[..i][0] == b[..i][0] == b[0];
      assert a[1..][..i - 1] == a[..i][1..] && b[1..][..i - 1] == b[..i][1..];
      DifferenceDecides(a[1..], x, b[1..], y, i - 1);
      assert (a + x)[1..] == a[1..] + x && (b + y)[1..] == b[1..] + y;
    }
  }

  /** Smaller scalars have smaller encodings, which are never prefixes of the larger ones. */
  lemma ScalarsKeepOrder(c: char, d: char)
    requires c < d
    ensures exists i :: DiffersAt(Utf8(c), Utf8(d), i)
  {
    var a, b := Utf8(c), Utf8(d);
    var n, m := c as int, d as int;
    if |a| < |b| {
      FirstByteGrows(c, d);
      assert DiffersAt(a, b, 0);
    } else {
      assert |a| == |b|;
      var i := FirstDifference(c, d);
      assert DiffersAt(a, b, i);
    }
  }

  lemma FirstByteGrows(c: char, d: char)
    requires c < d && |Utf8(c)| < |Utf8(d)|
    ensures Utf8(c)[0] < Utf8(d)[0]
  {
  }

  lemma FirstDifference(c: char, d: char) returns (i: nat)
    requires c < d && |Utf8(c)| == |Utf8(d)|
    ensures DiffersAt(Utf8(c), Utf8(d), i)
  {
    var n, m := c as int, d as int;
    if |Utf8(c)| == 1 {
      i := 0;
    } else if |Utf8(c)| == 2 {
      i := if n / 64 < m / 64 then 0 else 1;
      SameDigit(n, m);
    } else if |Utf8(c)| == 3 {
      i := FirstOfThree(n, m, 0xE0);
    } else {
      i := FirstOfFour(n, m);
    }
  }

  /** Below an equal higher part, the last base-64 digit decides. */
  lemma SameDigit(n: int, m: int)
    requires 0 <= n <= m
    ensures n / 64 <= m / 64
    ensures n / 64 == m / 64 ==> m - n == m % 64 - n % 64
  {
  }

  lemma FirstOfThree(n: int, m: int, mark: int) returns (i: nat)
    requires 0 <= n < m
    ensures DiffersAt([mark + n / 4096, 0x80 + n / 64 % 64, 0x80 + n % 64], [mark + m / 4096, 0x80 + m / 64 % 64, 0x80 + m % 64], i)
  {
    assert n / 64 / 64 == n / 4096 && m / 64 / 64 == m / 4096;
    SameDigit(n, m);
    SameDigit(n / 64, m / 64);
    SameDigit(n / 4096, m / 4096);
    i := if n / 4096 < m / 4096 then 0 else if n / 64 < m / 64 then 1 else 2;
  }

  lemma FirstOfFour(n: int, m: int) returns (i: nat)
    requires 0 <= n < m
    ensures DiffersAt([0xF0 + n / 262144, 0x80 + n / 4096 % 64, 0x80 + n / 64 % 64, 0x80 + n % 64],
                      [0xF0 + m / 262144, 0x80 + m / 4096 % 64, 0x80 + m / 64 % 64, 0x80 + m % 64], i)
  {
    assert n / 64 / 64 == n / 4096 && m / 64 / 64 == m / 4096;
    assert n / 4096 / 64 == n / 262144 && m / 4096 / 64 == m / 262144;
    SameDigit(n, m);
    SameDigit(n / 64, m / 64);
    SameDigit(n / 4096, m / 4096);
    i := if n / 262144 < m / 262144 then 0 else if n / 4096 < m / 4096 then 1 else if n / 64 < m / 64 then 2 else 3;
  }

  /** Scalar order of texts is byte order of their UTF-8, and UTF-8 loses nothing. */
  lemma {:induction false} Utf8KeepsOrder(s: string, t: string)
    ensures Before(s, t) <==> BytesBefore(Utf8Text(s), Utf8Text(t))
    ensures Utf8Text(s) == Utf8Text(t) ==> s == t
    decreases |s|
  {
    hide Utf8;
    if s != "" { EncodingNotEmpty(s[0]); }
    if t != "" { EncodingNotEmpty(t[0]); }
    if s != "" && t != "" {
      if s[0] == t[0] {
        Utf8KeepsOrder(s[1..], t[1..]);
        CommonFront(Utf8(s[0]), Utf8Text(s[1..]), Utf8Text(t[1..]));
        if Utf8Text(s) == Utf8Text(t) {
          assert Utf8Text(s[1..]) == Utf8Text(s)[|Utf8(s[0])|..] == Utf8Text(t[1..]);
          assert s == [s[0]] + s[1..] && t == [t[0]] + t[1..];
        }
      } else if s[0] < t[0] {
        ScalarsKeepOrder(s[0], t[0]);
        var i :| DiffersAt(Utf8(s[0]), Utf8(t[0]), i);
        DifferenceDecides(Utf8(s[0]), Utf8Text(s[1..]), Utf8(t[0]), Utf8Text(t[1..]), i);
      } else {
        ScalarsKeepOrder(t[0], s[0]);
        var i :| DiffersAt(Utf8(t[0]), Utf8(s[0]), i);
        DifferenceDecides(Utf8(t[0]), Utf8Text(t[1..]), Utf8(s[0]), Utf8Text(s[1..]), i);
      }
    }
  }

  lemma EncodingNotEmpty(c: char)
    ensures Utf8(c) != []
  {
  }

  lemma {:induction false} CommonFront(a: Bytes, x: Bytes, y: Bytes)
    ensures BytesBefore(a + x, a + y) <==> BytesBefore(x, y)
  {
    if a == [] {
      assert a + x == x && a + y == y;
    } else {
      assert (a + x)[1..] == a[1..] + x && (a + y)[1..] == a[1..] + y;
      CommonFront(a[1..], x, y);
    }
  }

  /** So the byte-wise range of the query is the set of names with the prefix. */
  lemma QueryRangeIsPrefix(p: string, s: string)
    ensures StartsWith(s, p) <==>
              && (Utf8Text(p) == Utf8Text(s) || BytesBefore(Utf8Text(p), Utf8Text(s)))
              && (UpperBound(p).Some? ==> BytesBefore(Utf8Text(s), Utf8Text(UpperBound(p).value)))
  {
    RangeIsPrefix(p, s);
    Utf8KeepsOrder(p, s);
    if UpperBound(p).Some? { Utf8KeepsOrder(s, UpperBound(p).value); }
  }
}
