/** Cutting a text at a separator, and joining parts with one. */
module Separators {
  predicate Lacks(s: string, c: char) {
    forall i :: 0 <= i < |s| ==> s[i] != c
  }

  // ---------------------------------------------------------------- the first separator

  /** Two texts cut at the first separator of each agree on both sides of the cut. */
  lemma CutsAgree(a: string, more: string, b: string, rest: string, c: char)
    requires Lacks(a, c) && Lacks(b, c) && a + [c] + more == b + [c] + rest
    ensures a == b && more == rest
  {
    var s := a + [c] + more;
    assert s == b + [c] + rest;
    FirstAt(a, more, c, |b|);
    FirstAt(b, rest, c, |a|);
    assert a == s[..|a|] && more == s[|a| + 1..];
    assert b == s[..|b|] && rest == s[|b| + 1..];
  }

  /** A separator at a position means the cut is not behind it. */
  lemma FirstAt(a: string, more: string, c: char, i: nat)
    requires Lacks(a, c) && i < |a + [c] + more|
    ensures (a + [c] + more)[i] == c ==> |a| <= i
    ensures |a| < |a + [c] + more| && (a + [c] + more)[|a|] == c
  {
    assert i < |a| ==> (a + [c] + more)[i] == a[i];
  }

  /** The position of the first `c`, or the end. */
  function IndexOf(s: string, c: char): (i: nat)
    ensures i <= |s| && Lacks(s[..i], c) && (i < |s| ==> s[i] == c)
  {
    if s == "" || s[0] == c then 0
    else
      var i := IndexOf(s[1..], c);
      assert s[..i + 1] == [s[0]] + s[1..][..i];
      i + 1
  }

  lemma IndexOfCut(a: string, c: char, more: string)
    requires Lacks(a, c)
    ensures IndexOf(a + [c] + more, c) == |a| && (a + [c] + more)[..|a|] == a && (a + [c] + more)[|a| + 1..] == more
  {
    var s := a + [c] + more;
    var i := IndexOf(s, c);
    FirstAt(a, more, c, if i < |s| then i else |a|);
    assert s[|a|] == c && |a| < |s|;
    if i > |a| { NotLacking(s, i, |a|, c); }
  }

  lemma NotLacking(s: string, i: nat, k: nat, c: char)
    requires k < i <= |s| && s[k] == c
    ensures !Lacks(s[..i], c)
  {
    assert s[..i][k] == c;
  }

  lemma IndexOfNone(a: string, c: char)
    requires Lacks(a, c)
    ensures IndexOf(a, c) == |a| && a[..|a|] == a
  {
  }

  // ---------------------------------------------------------------- all separators

  /** The parts with one `c` between each two. */
  function JoinedBy(parts: seq<string>, c: char): string {
    if parts == [] then "" else if |parts| == 1 then parts[0] else parts[0] + [c] + JoinedBy(parts[1..], c)
  }

  function CutAt(s: string, c: char): seq<string>
    decreases |s|
  {
    var i := IndexOf(s, c);
    [s[..i]] + if i < |s| then CutAt(s[i + 1..], c) else []
  }

  /** Parts without the separator are what cutting their join gives. */
  lemma {:induction false} CutUndoesJoin(parts: seq<string>, c: char)
    requires parts != [] && forall i :: 0 <= i < |parts| ==> Lacks(parts[i], c)
    ensures CutAt(JoinedBy(parts, c), c) == parts
    decreases |parts|
  {
    hide Lacks;
    if |parts| == 1 {
      IndexOfNone(parts[0], c);
    } else {
      IndexOfCut(parts[0], c, JoinedBy(parts[1..], c));
      CutUndoesJoin(parts[1..], c);
    }
  }

  lemma CutsOff(a: string, c: char, more: string)
    requires Lacks(a, c)
    ensures CutAt(a, c) == [a] && CutAt(a + [c] + more, c) == [a] + CutAt(more, c)
  {
    IndexOfNone(a, c);
    IndexOfCut(a, c, more);
  }

  /** The front of a text up to its first separator, and what comes behind it. */
  lemma SplitsAtFirst(s: string, c: char) returns (first: string, more: string)
    requires !Lacks(s, c)
    ensures Lacks(first, c) && s == first + [c] + more && |more| < |s|
  {
    var i := IndexOf(s, c);
    assert s[..|s|] == s;
    first, more := s[..i], s[i + 1..];
  }

  /** Joining the parts of a cut gives the text back. */
  lemma {:induction false} JoinUndoesCut(s: string, c: char)
    ensures JoinedBy(CutAt(s, c), c) == s && CutAt(s, c) != []
    decreases |s|
  {
    if Lacks(s, c) {
      CutsOff(s, c, "");
    } else {
      var first, more := SplitsAtFirst(s, c);
      CutsOff(first, c, more);
      JoinUndoesCut(more, c);
      assert ([first] + CutAt(more, c))[1..] == CutAt(more, c);
    }
  }

  lemma {:induction false} CutOfTwo(a: string, c: char, more: string)
    ensures CutAt(a + [c] + more, c) == CutAt(a, c) + CutAt(more, c)
    decreases |a|
  {
    hide Lacks, CutAt;
    if Lacks(a, c) {
      CutsOff(a, c, more);
    } else {
      var first, rest := SplitsAtFirst(a, c);
      CutOfTwo(rest, c, more);
      CutsOff(first, c, rest);
      CutsOff(first, c, rest + [c] + more);
      assert a + [c] + more == first + [c] + (rest + [c] + more);
      assert [first] + (CutAt(rest, c) + CutAt(more, c)) == [first] + CutAt(rest, c) + CutAt(more, c);
    }
  }

  /** All parts of all texts. */
  function CutEach(parts: seq<string>, c: char): seq<string> {
    if parts == [] then [] else CutAt(parts[0], c) + CutEach(parts[1..], c)
  }

  lemma {:induction false} CutOfJoin(parts: seq<string>, c: char)
    requires parts != []
    ensures CutAt(JoinedBy(parts, c), c) == CutEach(parts, c)
    decreases |parts|
  {
    if |parts| == 1 {
      assert CutEach(parts[1..], c) == [];
      assert CutAt(parts[0], c) + [] == CutAt(parts[0], c);
    } else {
      CutOfJoin(parts[1..], c);
      CutOfTwo(parts[0], c, JoinedBy(parts[1..], c));
    }
  }

  /** Two joins agree exactly when the parts do, once cut at the separators they have themselves. */
  lemma JoinsAgree(parts: seq<string>, others: seq<string>, c: char)
    requires parts != [] && others != []
    ensures JoinedBy(parts, c) == JoinedBy(others, c) <==> CutEach(parts, c) == CutEach(others, c)
  {
    CutOfJoin(parts, c);
    CutOfJoin(others, c);
    JoinUndoesCut(JoinedBy(parts, c), c);
    JoinUndoesCut(JoinedBy(others, c), c);
  }
}
