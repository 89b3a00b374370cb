/** Runs that show where the ownership guarantees end. */
module OwnershipLimits {
  import opened Wrappers
  import opened Secrets
  import opened Targets
  import opened Ownership
  import opened OwnershipRuns
  import opened OrphanTheorems
  import opened ReleaseTheorems
  import opened PassTheorems

  /** At rest: the resource exists with its finalizer, and no reconcile of it is under way. */
  ghost predicate AtRest(s: State, k: CRKey) {
    PcOf(s, k).Idle? && ValidKey(k) && Live(s, k) && !s.crs[k].deleting && CRVersion(k, s.crs[k]) in s.pastCrs
  }

  /** Nothing happened to the other resources and their reconciles. */
  ghost predicate OthersAsBefore(s: State, t: State, k: CRKey) {
    forall other :: other != k ==>
      && PcOf(t, other) == PcOf(s, other)
      && (other in t.crs <==> other in s.crs) && (other in s.crs ==> t.crs[other] == s.crs[other])
  }

  /** The user deletes the resource, and its controller reads that. */
  function DeletionRun(k: CRKey, seen: CR): seq<Step> {
    [UserDelete(k), ReadCR(k, Some(seen))]
  }

  lemma Deletion(s: State, k: CRKey) returns (seen: CR, t: State)
    requires AtRest(s, k)
    ensures Leads(s, DeletionRun(k, seen), t)
    ensures PcOf(t, k) == Releasing(seen) && k in t.crs && t.crs[k] == seen
    ensures seen.spec == s.crs[k].spec && seen.finalizer
    ensures t.secrets == s.secrets && s.past <= t.past && CRVersion(k, s.crs[k]) in t.pastCrs
    ensures OthersAsBefore(s, t, k)
    ensures s.pastCrs <= t.pastCrs && CRVersion(k, seen) in t.pastCrs && seen.deleting
  {
    var s1 := After(s, UserDelete(k));
    seen := s1.crs[k];
    t := After(s1, ReadCR(k, Some(seen)));
    Leads2(s, UserDelete(k), s1, ReadCR(k, Some(seen)), t);
  }

  // ---- a changed target --------------------------------------------------------------------

  /**
   A change of target strands a Secret: whenever the new target does not reach a Secret the
   resource owns, pointing it there and deleting it leaves that Secret behind, still naming
   an owner that no longer exists, however complete the finalizer's listing is.
   */
  lemma RetargetLeavesOrphan(s: State, k: CRKey, spec: Spec, listed: seq<Version>, sk: SKey)
    returns (seen: CR, t: State)
    requires AtRest(s, k) && Owned(s, sk, k) && !InReach(k, spec.target, sk) && MayList(s, k, spec.target, listed)
    ensures Leads(s, [UserEdit(k, spec)] + DeletionRun(k, seen) + ReleaseRun(k, listed), t)
    ensures k !in t.crs && Owned(t, sk, k) && !NoOrphans(t)
  {
    var edited := After(s, UserEdit(k, spec));
    Leads1(s, UserEdit(k, spec), edited);
    var b: State;
    seen, b := Deletion(edited, k);
    t := ReleaseStrandsExactly(b, k, listed);
    Follows(s, [UserEdit(k, spec)], edited, DeletionRun(k, seen), b);
    Follows(s, [UserEdit(k, spec)] + DeletionRun(k, seen), b, ReleaseRun(k, listed), t);
    Orphaned(t, k, sk);
  }

  lemma Orphaned(s: State, k: CRKey, sk: SKey)
    requires ValidKey(k) && Owned(s, sk, k) && k !in s.crs
    ensures !NoOrphans(s)
  {
    assert !Live(s, k);
  }

  // ---- listings that lag behind ------------------------------------------------------------

  /** A finalizer whose listing misses a Secret of its own strands it. */
  lemma LaggingListStrands(s: State, k: CRKey, sk: SKey) returns (seen: CR, t: State)
    requires AtRest(s, k) && Owned(s, sk, k)
    ensures Leads(s, DeletionRun(k, seen) + ReleaseRun(k, []), t)
    ensures k !in t.crs && Owned(t, sk, k) && !NoOrphans(t)
  {
    var b: State;
    seen, b := Deletion(s, k);
    t := ReleaseStrandsExactly(b, k, []);
    Follows(s, DeletionRun(k, seen), b, ReleaseRun(k, []), t);
    Orphaned(t, k, sk);
  }

  // ---- a resource read after it is gone ----------------------------------------------------

  /** The steps of an apply up to the write, for a version of the resource and of nothing at the target. */
  function StaleApply(k: CRKey, cr: CR, input: Input): seq<Step> {
    [ReadCR(k, Some(cr)), Derive(k, input)] + [GetSecret(k, None), Write(k)]
  }

  lemma AppliesStale(s: State, k: CRKey, cr: CR, input: Input, sk: SKey, want: Desired) returns (t: State)
    requires PcOf(s, k).Idle? && ValidKey(k) && CRVersion(k, cr) in s.pastCrs && cr.finalizer && !cr.deleting
    requires Derived(k, cr.spec, input) == Some((sk, want)) && sk !in s.secrets
    ensures Leads(s, StaleApply(k, cr, input), t) && Owned(t, sk, k) && t.crs == s.crs
  {
    var s1 := After(s, ReadCR(k, Some(cr)));
    assert PcOf(s1, k) == Deriving(cr);
    var s2 := After(s1, Derive(k, input));
    Leads2(s, ReadCR(k, Some(cr)), s1, Derive(k, input), s2);
    var s3 := After(s2, GetSecret(k, None));
    assert PcOf(s3, k) == Writing(cr, sk, want, None);
    t := After(s3, Write(k));
    StampedOwner(BLANK, k, cr.uid, want);
    Leads2(s2, GetSecret(k, None), s3, Write(k), t);
    Follows(s, [ReadCR(k, Some(cr)), Derive(k, input)], s2, [GetSecret(k, None), Write(k)], t);
  }

  /**
   A resource is deleted and released; its controller then reads an old version of it, with
   finalizer, and writes its Secret again, for an owner that is gone.
   */
  lemma StaleReadOrphans(s: State, k: CRKey, input: Input, sk: SKey, want: Desired) returns (seen: CR, t: State)
    requires AtRest(s, k) && Derived(k, s.crs[k].spec, input) == Some((sk, want)) && sk !in s.secrets
    ensures Leads(s, DeletionRun(k, seen) + ReleaseRun(k, []) + StaleApply(k, s.crs[k], input), t)
    ensures k !in t.crs && Owned(t, sk, k) && !NoOrphans(t)
  {
    var b: State;
    seen, b := Deletion(s, k);
    var c := ReleaseStrandsExactly(b, k, []);
    t := AppliesStale(c, k, s.crs[k], input, sk, want);
    Follows(s, DeletionRun(k, seen), b, ReleaseRun(k, []), c);
    Follows(s, DeletionRun(k, seen) + ReleaseRun(k, []), c, StaleApply(k, s.crs[k], input), t);
    Orphaned(t, k, sk);
  }

  // ---- listings with ghosts ----------------------------------------------------------------

  /** A finalizer lists one Secret and deletes it. */
  function DeleteListed(k: CRKey, v: Version): seq<Step> {
    [ListOwned(k, [v]), DeleteNext(k)]
  }

  lemma DeletesListed(s: State, k: CRKey, v: Version) returns (t: State)
    requires PcOf(s, k).Releasing? && v in s.past && InReach(k, PcOf(s, k).cr.spec.target, v.sk)
      && OwnedBy(v.stored.obj, k)
    ensures Leads(s, DeleteListed(k, v), t) && v.sk !in t.secrets && t.past == s.past && t.pastCrs == s.pastCrs
    ensures t.crs == s.crs && t.secrets == s.secrets - {v.sk} && !PcOf(t, k).Idle?
    ensures forall other :: other != k ==> PcOf(t, other) == PcOf(s, other)
  {
    var s1 := After(s, ListOwned(k, [v]));
    t := After(s1, DeleteNext(k));
    Leads2(s, ListOwned(k, [v]), s1, DeleteNext(k), t);
  }

  /** A deletion whose finalizer deletes the Secret and is then interrupted. */
  function InterruptedRun(k: CRKey, seen: CR, v: Version): seq<Step> {
    DeletionRun(k, seen) + DeleteListed(k, v) + [Abort(k)]
  }

  lemma Interrupted(s: State, k: CRKey, sk: SKey) returns (seen: CR, t: State)
    requires AtRest(s, k) && Owned(s, sk, k) && InReach(k, s.crs[k].spec.target, sk)
    requires Version(sk, s.secrets[sk]) in s.past
    ensures Leads(s, InterruptedRun(k, seen, Version(sk, s.secrets[sk])), t)
    ensures PcOf(t, k).Idle? && sk !in t.secrets && s.past <= t.past && s.pastCrs <= t.pastCrs
    ensures CRVersion(k, seen) in t.pastCrs && seen.deleting && seen.finalizer && seen.spec == s.crs[k].spec
    ensures OthersAsBefore(s, t, k)
  {
    var v := Version(sk, s.secrets[sk]);
    var a: State;
    seen, a := Deletion(s, k);
    var b := DeletesListed(a, k, v);
    t := After(b, Abort(k));
    Leads1(b, Abort(k), t);
    Follows(s, DeletionRun(k, seen), a, DeleteListed(k, v), b);
    Follows(s, DeletionRun(k, seen) + DeleteListed(k, v), b, [Abort(k)], t);
  }

  /** The finalizer starts again and deletes by an old listing. */
  function GhostRun(k: CRKey, seen: CR, v: Version): seq<Step> {
    [ReadCR(k, Some(seen))] + DeleteListed(k, v)
  }

  lemma GhostDeletes(s: State, k: CRKey, seen: CR, v: Version) returns (t: State)
    requires PcOf(s, k).Idle? && ValidKey(k) && CRVersion(k, seen) in s.pastCrs && seen.deleting && seen.finalizer
    requires v in s.past && InReach(k, seen.spec.target, v.sk) && OwnedBy(v.stored.obj, k)
    ensures Leads(s, GhostRun(k, seen, v), t) && v.sk !in t.secrets
  {
    var read := After(s, ReadCR(k, Some(seen)));
    assert PcOf(read, k) == Releasing(seen);
    Leads1(s, ReadCR(k, Some(seen)), read);
    t := DeletesListed(read, k, v);
    Follows(s, [ReadCR(k, Some(seen))], read, DeleteListed(k, v), t);
  }

  /**
   A finalizer is interrupted after it deleted its Secret, another resource creates the Secret
   anew for itself, and the finalizer starts again with a listing that still shows the old
   version: it deletes the Secret of the other, since Delete has no precondition.
   */
  lemma GhostListingBreaksOwnership(s: State, k: CRKey, other: CRKey, sk: SKey, input: Input, want: Desired)
    returns (seen: CR, pass: seq<Step>, before: State, t: State)
    requires Inv(s) && AtRest(s, k) && ReadyToPass(s, other) && other != k
    requires Owned(s, sk, k) && InReach(k, s.crs[k].spec.target, sk)
    requires Derived(other, s.crs[other].spec, input) == Some((sk, want))
    ensures var v := Version(sk, s.secrets[sk]);
      && Leads(s, InterruptedRun(k, seen, v) + pass, before) && Owned(before, sk, other)
      && Leads(s, InterruptedRun(k, seen, v) + pass + GhostRun(k, seen, v), t) && sk !in t.secrets
  {
    var v := Version(sk, s.secrets[sk]);
    var c: State;
    seen, c := Interrupted(s, k, sk);
    InterruptedInv(s, k, seen, v, c);
    pass, before := CreatesAnew(c, k, other, sk, input, want);
    t := GhostDeletes(before, k, seen, v);
    Follow2(s, InterruptedRun(k, seen, v), c, pass, before, GhostRun(k, seen, v), t);
  }

  lemma InterruptedInv(s: State, k: CRKey, seen: CR, v: Version, t: State)
    requires Inv(s) && Leads(s, InterruptedRun(k, seen, v), t)
    ensures Inv(t)
  {
    LeadsInv(s, InterruptedRun(k, seen, v), t);
  }

  lemma CreatesAnew(s: State, k: CRKey, other: CRKey, sk: SKey, input: Input, want: Desired)
    returns (pass: seq<Step>, t: State)
    requires Inv(s) && ReadyToPass(s, other) && other != k && sk !in s.secrets
    requires Derived(other, s.crs[other].spec, input) == Some((sk, want))
    ensures Leads(s, pass, t) && Owned(t, sk, other)
    ensures PcOf(t, k) == PcOf(s, k) && s.past <= t.past && s.pastCrs <= t.pastCrs
  {
    pass, t := Pass(s, other, sk, input), PassEnd(s, other, sk, want);
    PassRuns(s, other, input, sk, want);
    PassSettles(s, other, sk, want);
  }

  // ---- a delete by hand --------------------------------------------------------------------

  /** A deletion whose finalizer has listed its Secret and not yet deleted it. */
  function ListedRun(k: CRKey, seen: CR, v: Version): seq<Step> {
    DeletionRun(k, seen) + [ListOwned(k, [v])]
  }

  lemma Lists(s: State, k: CRKey, v: Version) returns (seen: CR, t: State)
    requires Inv(s) && AtRest(s, k) && v in s.past && InReach(k, s.crs[k].spec.target, v.sk) && OwnedBy(v.stored.obj, k)
    ensures Leads(s, ListedRun(k, seen, v), t) && Inv(t)
    ensures PcOf(t, k).Deleting? && PcOf(t, k).todo == [v] && t.secrets == s.secrets
    ensures OthersAsBefore(s, t, k)
  {
    var a: State;
    seen, a := Deletion(s, k);
    t := After(a, ListOwned(k, [v]));
    Leads1(a, ListOwned(k, [v]), t);
    Follows(s, DeletionRun(k, seen), a, [ListOwned(k, [v])], t);
    ListedInv(s, k, seen, v, t);
  }

  lemma ListedInv(s: State, k: CRKey, seen: CR, v: Version, t: State)
    requires Inv(s) && Leads(s, ListedRun(k, seen, v), t)
    ensures Inv(t)
  {
    LeadsInv(s, ListedRun(k, seen, v), t);
  }

  /** Somebody deletes the Secret by hand, and then `pass` runs. */
  function DeletedByHand(k: CRKey, seen: CR, v: Version, pass: seq<Step>): seq<Step> {
    ListedRun(k, seen, v) + [External(v.sk, None)] + pass
  }

  /**
   Exclusive ownership also needs the absence of external writers: a finalizer lists its
   Secret, somebody deletes that Secret by hand, another resource creates it anew for itself,
   and the finalizer then deletes the Secret of the other.
   */
  lemma ExternalDeleteBreaksOwnership(s: State, k: CRKey, other: CRKey, sk: SKey, input: Input, want: Desired)
    returns (seen: CR, pass: seq<Step>, before: State, t: State)
    requires Inv(s) && AtRest(s, k) && ReadyToPass(s, other) && other != k
    requires Owned(s, sk, k) && InReach(k, s.crs[k].spec.target, sk)
    requires Derived(other, s.crs[other].spec, input) == Some((sk, want))
    ensures var v := Version(sk, s.secrets[sk]);
      && Leads(s, DeletedByHand(k, seen, v, pass), before) && Owned(before, sk, other)
      && Leads(s, DeletedByHand(k, seen, v, pass) + [DeleteNext(k)], t) && sk !in t.secrets
  {
    var v := Version(sk, s.secrets[sk]);
    var a: State;
    seen, a := Lists(s, k, v);
    var b := After(a, External(sk, None));
    Leads1(a, External(sk, None), b);
    InvStep(a, External(sk, None));
    pass, before := CreatesAnew(b, k, other, sk, input, want);
    t := After(before, DeleteNext(k));
    Leads1(before, DeleteNext(k), t);
    Follow2(s, ListedRun(k, seen, v), a, [External(sk, None)], b, pass, before);
    Follows(s, DeletedByHand(k, seen, v, pass), before, [DeleteNext(k)], t);
  }
}
