/** Binary order of texts, as `COLLATE BINARY` and byte-wise string comparison see it. */
module TextOrder {
  predicate Before(a: string, b: string) {
    if b == "" then false
    else if a == "" then true
    else a[0] < b[0] || (a[0] == b[0] && Before(a[1..], b[1..]))
  }

  predicate AtMost(a: string, b: string) {
    a == b || Before(a, b)
  }

  lemma {:induction false} Irreflexive(a: string)
    ensures !Before(a, a)
  {
    if a != "" { Irreflexive(a[1..]); }
  }

  lemma {:induction false} Transitive(a: string, b: string, c: string)
    requires Before(a, b) && Before(b, c)
    ensures Before(a, c)
  {
    if a != "" && a[0] == b[0] == c[0] { Transitive(a[1..], b[1..], c[1..]); }
  }

  lemma {:induction false} Total(a: string, b: string)
    ensures a == b || Before(a, b) || Before(b, a)
  {
    if a != "" && b != "" && a[0] == b[0] {
      Total(a[1..], b[1..]);
      assert a == [a[0]] + a[1..] && b == [b[0]] + b[1..];
    }
  }

  lemma Asymmetric(a: string, b: string)
    ensures !(Before(a, b) && Before(b, a))
  {
    if Before(a, b) && Before(b, a) {
      Transitive(a, b, a);
      Irreflexive(a);
    }
  }

  /** The first difference decides: a smaller character, or the end of the shorter text. */
  predicate FirstDiffersAt(a: string, b: string, i: nat) {
    i <= |a| && i < |b| && a[..i] == b[..i] && (i == |a| || a[i] < b[i])
  }

  lemma {:induction false} BeforeIsLexicographic(a: string, b: string)
    ensures Before(a, b) <==> exists i: nat :: FirstDiffersAt(a, b, i)
  {
    if b != "" && a == "" {
      assert FirstDiffersAt(a, b, 0);
    } else if b != "" {
      BeforeIsLexicographic(a[1..], b[1..]);
      if Before(a, b) {
        if a[0] < b[0] {
          assert FirstDiffersAt(a, b, 0);
        } else {
          var i: nat :| FirstDiffersAt(a[1..], b[1..], i);
          assert a[..i + 1] == [a[0]] + a[1..][..i] && b[..i + 1] == [b[0]] + b[1..][..i];
          assert FirstDiffersAt(a, b, i + 1);
        }
      }
      if i: nat :| FirstDiffersAt(a, b, i) {
        if i > 0 {
          assert a[..i][0] == b[..i][0];
          assert a[1..][..i - 1] == a[..i][1..] && b[1..][..i - 1] == b[..i][1..];
          assert FirstDiffersAt(a[1..], b[1..], i - 1);
        }
      }
    }
  }
}
