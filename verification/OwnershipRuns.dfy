/** Runs of the ownership protocol put together from shorter ones. */
module OwnershipRuns {
  import opened Ownership

  ghost predicate Leads(s: State, run: seq<Step>, t: State) {
    IsRun(s, run) && Exec(s, run) == t
  }

  lemma Leads1(s: State, a: Step, t: State)
    requires Enabled(s, a) && After(s, a) == t
    ensures Leads(s, [a], t)
  {
    assert [a][1..] == [];
  }

  lemma Leads2(s: State, a: Step, t: State, b: Step, u: State)
    requires Enabled(s, a) && After(s, a) == t && Enabled(t, b) && After(t, b) == u
    ensures Leads(s, [a, b], u)
  {
    Leads1(t, b, u);
    assert [a, b][1..] == [b];
  }

  lemma {:induction false} Follows(s: State, run: seq<Step>, t: State, more: seq<Step>, u: State)
    requires Leads(s, run, t) && Leads(t, more, u)
    ensures Leads(s, run + more, u)
    decreases |run|
  {
    if run == [] {
      assert run + more == more;
    } else {
      Follows(After(s, run[0]), run[1..], t, more, u);
      assert (run + more)[0] == run[0] && (run + more)[1..] == run[1..] + more;
    }
  }

  lemma Follow2(s: State, a: seq<Step>, t: State, b: seq<Step>, u: State, c: seq<Step>, v: State)
    requires Leads(s, a, t) && Leads(t, b, u) && Leads(u, c, v)
    ensures Leads(s, a + b, u) && Leads(s, a + b + c, v)
  {
    Follows(s, a, t, b, u);
    Follows(s, a + b, u, c, v);
  }

  /** Without external writers a run keeps the invariant. */
  lemma {:induction false} LeadsInv(s: State, run: seq<Step>, t: State)
    requires Inv(s) && Leads(s, run, t) && forall step :: step in run ==> !step.External?
    ensures Inv(t)
    decreases |run|
  {
    if run != [] {
      InvStep(s, run[0]);
      LeadsInv(After(s, run[0]), run[1..], t);
    }
  }
}
