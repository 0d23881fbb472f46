/** Taking runs of the namespace protocol apart, for the concrete ones. */
module NamespaceRuns {
  import opened NamespaceProtocol

  lemma {:induction false} RunConcat(s: System, a: seq<Step>, b: seq<Step>)
    ensures Run(s, a + b) == Run(Run(s, a), b)
    decreases |b|
  {
    hide Execute;
    if b == [] {
      assert a + b == a;
    } else {
      var n := |b| - 1;
      RunConcat(s, a, b[..n]);
      assert (a + b)[..|a + b| - 1] == a + b[..n];
    }
  }

  lemma RunFirst(s: System, step: Step, more: seq<Step>)
    ensures Run(s, [step] + more) == Run(Execute(s, step), more)
  {
    hide Execute;
    RunConcat(s, [step], more);
    RunOne(s, step);
  }

  lemma RunOne(s: System, step: Step)
    ensures Run(s, [step]) == Execute(s, step)
  {
    hide Execute;
    assert [step][..0] == [];
  }

  lemma RunTwo(s: System, a: Step, b: Step)
    ensures Run(s, [a, b]) == Execute(Execute(s, a), b)
  {
    hide Execute, Run;
    RunFirst(s, a, [b]);
    RunOne(Execute(s, a), b);
    assert [a] + [b] == [a, b];
  }

  lemma RunThree(s: System, a: Step, b: Step, c: Step)
    ensures Run(s, [a, b, c]) == Execute(Execute(Execute(s, a), b), c)
  {
    hide Execute, Run;
    RunFirst(s, a, [b, c]);
    RunTwo(Execute(s, a), b, c);
    assert [a] + [b, c] == [a, b, c];
  }

  lemma GotoTwice(s: System, w: nat, p: Worker, q: Worker)
    ensures Goto(Goto(s, w, p), w, q) == Goto(s, w, q)
  {
  }
}
