/** What a finalizer's release removes and what it leaves behind. */
module ReleaseTheorems {
  import opened Secrets
  import opened Targets
  import opened Ownership
  import opened OwnershipRuns

  function Times(step: Step, n: nat): seq<Step> {
    seq(n, _ => step)
  }

  /** The finalizer lists, deletes one by one, and lets the resource go. */
  function ReleaseRun(k: CRKey, listed: seq<Version>): seq<Step> {
    [ListOwned(k, listed)] + Times(DeleteNext(k), |listed| + 1) + [DropFinalizer(k)]
  }

  /** From `s` to `t` exactly the scheduled Secrets are gone, and nothing else changed but the finalizer's progress. */
  ghost predicate Cleared(s: State, t: State, k: CRKey, todo: seq<Version>) {
    && t.crs == s.crs && t.pastCrs == s.pastCrs && (forall other :: other != k ==> PcOf(t, other) == PcOf(s, other))
    && forall sk :: (sk in t.secrets <==> sk in s.secrets && !Scheduled(todo, k, sk))
        && (sk in t.secrets ==> t.secrets[sk] == s.secrets[sk])
  }

  lemma DeletesOne(s: State, k: CRKey, cr: CR, todo: seq<Version>, listed: seq<Version>) returns (t: State)
    requires PcOf(s, k) == Deleting(cr, todo, listed) && todo != []
    ensures Leads(s, [DeleteNext(k)], t) && PcOf(t, k) == Deleting(cr, todo[1..], listed)
    ensures Cleared(s, t, k, [todo[0]])
  {
    t := After(s, DeleteNext(k));
    Leads1(s, DeleteNext(k), t);
    forall sk ensures Scheduled([todo[0]], k, sk) <==> todo[0].sk == sk && OwnedBy(todo[0].stored.obj, k) {
      assert Scheduled([todo[0]], k, sk) ==> [todo[0]][0].sk == sk;
      assert [todo[0]][0] == todo[0];
    }
  }

  lemma ClearedOnwards(s: State, t: State, u: State, k: CRKey, todo: seq<Version>)
    requires todo != [] && Cleared(s, t, k, [todo[0]]) && Cleared(t, u, k, todo[1..])
    ensures Cleared(s, u, k, todo)
  {
    forall sk ensures Scheduled(todo, k, sk) <==> Scheduled([todo[0]], k, sk) || Scheduled(todo[1..], k, sk) {
      if Scheduled(todo, k, sk) {
        StillScheduled(todo, k, sk);
        assert [todo[0]][0] == todo[0];
      } else {
        assert forall i :: 0 <= i < |todo[1..]| ==> todo[1..][i] == todo[i + 1];
        assert [todo[0]][0] == todo[0];
      }
    }
  }

  lemma {:induction false} DeletesAll(s: State, k: CRKey, cr: CR, todo: seq<Version>, listed: seq<Version>)
    returns (t: State)
    requires PcOf(s, k) == Deleting(cr, todo, listed)
    ensures Leads(s, Times(DeleteNext(k), |todo| + 1), t)
    ensures PcOf(t, k) == DroppingFinalizer(cr, listed) && Cleared(s, t, k, todo)
    decreases |todo|
  {
    if todo == [] {
      t := After(s, DeleteNext(k));
      Leads1(s, DeleteNext(k), t);
      assert Times(DeleteNext(k), 1) == [DeleteNext(k)];
    } else {
      var next := DeletesOne(s, k, cr, todo, listed);
      t := DeletesAll(next, k, cr, todo[1..], listed);
      Follows(s, [DeleteNext(k)], next, Times(DeleteNext(k), |todo|), t);
      assert Times(DeleteNext(k), |todo| + 1) == [DeleteNext(k)] + Times(DeleteNext(k), |todo|);
      ClearedOnwards(s, next, t, k, todo);
    }
  }

  /**
   What a release strands, whatever its reads showed: of the Secrets a resource owns when its
   finalizer lists, exactly those outside the reach of the target it read, or missing from
   its listing, are left behind by an undisturbed release.
   */
  lemma ReleaseStrandsExactly(s: State, k: CRKey, listed: seq<Version>) returns (t: State)
    requires PcOf(s, k).Releasing? && Current(s, k, PcOf(s, k).cr) && MayList(s, k, PcOf(s, k).cr.spec.target, listed)
    ensures Leads(s, ReleaseRun(k, listed), t) && t.crs == s.crs - {k} && t.pastCrs == s.pastCrs && PcOf(t, k).Idle?
    ensures forall sk :: sk in t.secrets <==> sk in s.secrets && !Scheduled(listed, k, sk)
    ensures forall sk :: Owned(t, sk, k) <==>
      Owned(s, sk, k) && (!InReach(k, PcOf(s, k).cr.spec.target, sk) || !Scheduled(listed, k, sk))
  {
    var cr := PcOf(s, k).cr;
    var a := After(s, ListOwned(k, listed));
    Leads1(s, ListOwned(k, listed), a);
    var b := DeletesAll(a, k, cr, listed, listed);
    t := After(b, DropFinalizer(k));
    Leads1(b, DropFinalizer(k), t);
    Follows(s, [ListOwned(k, listed)], a, Times(DeleteNext(k), |listed| + 1), b);
    Follows(s, [ListOwned(k, listed)] + Times(DeleteNext(k), |listed| + 1), b, [DropFinalizer(k)], t);
    forall sk
      ensures Owned(t, sk, k) <==> Owned(s, sk, k) && (!InReach(k, cr.spec.target, sk) || !Scheduled(listed, k, sk))
    {
      assert Owned(t, sk, k) <==> Owned(b, sk, k);
      assert Scheduled(listed, k, sk) ==> InReach(k, cr.spec.target, sk);
    }
  }

  /** In every reachable state: whoever disturbs it, a release that goes through leaves nothing that it listed. */
  lemma ReleaseLeavesNothingListed(s: State, k: CRKey, sk: SKey)
    requires Inv(s) && PcOf(s, k).DroppingFinalizer? && Owned(s, sk, k)
    ensures !Scheduled(PcOf(s, k).listed, k, sk)
  {
    assert PcOk(s, k);
  }
}
