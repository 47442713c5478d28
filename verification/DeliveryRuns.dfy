/** Continuing from a state. */
module DeliveryRuns {
  import opened Delivery

  /** From s the steps can be taken, with what the protocol relies on, and end in s'. */
  ghost predicate Leads(s: State, steps: seq<Step>, s': State)
    decreases steps
  {
    if steps == [] then s' == s
    else Enabled(s, steps[0]) && Assumed(s, steps[0]) && Leads(Apply(s, steps[0]), steps[1..], s')
  }

  lemma Taken(s: State, step: Step)
    requires Enabled(s, step) && Assumed(s, step)
    ensures Leads(s, [step], Apply(s, step))
  {
    assert [step][1..] == [];
  }

  lemma {:induction false} Onwards(s: State, a: seq<Step>, s1: State, b: seq<Step>, s2: State)
    requires Leads(s, a, s1) && Leads(s1, b, s2)
    ensures Leads(s, a + b, s2)
    decreases a
  {
    if a == [] {
      assert a + b == b;
    } else {
      Onwards(Apply(s, a[0]), a[1..], s1, b, s2);
      assert (a + b)[0] == a[0] && (a + b)[1..] == a[1..] + b;
    }
  }

  /** One more step after these. */
  lemma AndThen(s: State, a: seq<Step>, s1: State, step: Step) returns (b: seq<Step>, s2: State)
    requires Leads(s, a, s1) && Enabled(s1, step) && Assumed(s1, step)
    ensures Leads(s, b, s2) && s2 == Apply(s1, step)
  {
    Taken(s1, step);
    b, s2 := a + [step], Apply(s1, step);
    Onwards(s, a, s1, [step], s2);
  }

  lemma Regroup(steps: seq<Step>, step: Step, rest: seq<Step>)
    ensures (steps + [step]) + rest == steps + ([step] + rest)
  {
  }

  /** A behaviour goes on with what its last state allows. */
  lemma {:induction false} Continued(steps: seq<Step>, more: seq<Step>, s': State)
    requires Behaviour(steps) && Leads(After(steps), more, s')
    ensures Behaviour(steps + more) && After(steps + more) == s'
    decreases more
  {
    if more == [] {
      assert steps + more == steps;
    } else {
      var step, rest := more[0], more[1..];
      var s1 := Apply(After(steps), step);
      assert Leads(s1, rest, s');
      Then(steps, step);
      Continued(steps + [step], rest, s');
      Regroup(steps, step, rest);
      assert [step] + rest == more;
    }
  }

  lemma {:induction false} FreshId(used: set<nat>) returns (id: nat)
    ensures id !in used
    ensures forall x :: x in used ==> x < id
  {
    if used == {} {
      id := 0;
    } else {
      var x :| x in used;
      var rest := FreshId(used - {x});
      id := if x < rest then rest else x + 1;
      assert used == (used - {x}) + {x};
    }
  }
}
