/** Secrets without a resource that answers for them: exactly which steps make them, and when none does. */
module OrphanTheorems {
  import opened Wrappers
  import opened Secrets
  import opened Targets
  import opened Ownership

  /** Every managed Secret that names a resource has that resource, with its finalizer, answering for it. */
  ghost predicate NoOrphans(s: State) {
    forall k, sk | ValidKey(k) && Owned(s, sk, k) :: AnsweredBy(s, k, sk)
  }

  predicate AnsweredBy(s: State, k: CRKey, sk: SKey) {
    Live(s, k) && InReach(k, s.crs[k].spec.target, sk)
  }

  // ---- step by step, exactly ----------------------------------------------------------------

  /** The write creates or changes its Secret: the plan says so, and the server accepts it. */
  predicate Lands(s: State, k: CRKey)
    requires PcOf(s, k).Writing?
  {
    var pc := PcOf(s, k);
    match PlanOf(k, pc)
    case Create(_) => pc.sk !in s.secrets
    case Update(_) => pc.snap.Some? && pc.sk in s.secrets && s.secrets[pc.sk].rv == pc.snap.value.rv
    case _ => false
  }

  /** The step leaves nothing without a resource that answers for it. */
  ghost predicate Answers(s: State, step: Step)
    requires Enabled(s, step)
  {
    match step
    case Write(k) => Lands(s, k) ==> AnsweredBy(s, k, PcOf(s, k).sk)
    case DropFinalizer(k) => Current(s, k, PcOf(s, k).cr) ==> forall sk :: !Owned(s, sk, k)
    case UserEdit(k, spec) => forall sk :: Owned(s, sk, k) ==> InReach(k, spec.target, sk)
    case External(sk, value) =>
      value.Some? ==> forall k :: ValidKey(k) && OwnedBy(value.value, k) ==> AnsweredBy(s, k, sk)
    case _ => true
  }

  /**
   Orphans, exactly. One step makes an orphan if and only if it is: a write that lands for a
   resource that is gone, without finalizer or pointed elsewhere; the end of a resource that
   still owns something; a change of target away from what the resource owns; or an external
   write that names an owner which does not answer for it.
   */
  lemma NoOrphansStepExact(s: State, step: Step)
    requires Inv(s) && NoOrphans(s) && Enabled(s, step)
    ensures NoOrphans(After(s, step)) <==> Answers(s, step)
  {
    match step
    case Write(k) => WriteExact(s, k);
    case DropFinalizer(k) => DropExact(s, k);
    case UserEdit(k, spec) => EditExact(s, k, spec);
    case External(sk, value) => ExternalExact(s, sk, value);
    case _ => OthersAnswer(s, step);
  }

  lemma WriteExact(s: State, k: CRKey)
    requires Inv(s) && NoOrphans(s) && Enabled(s, Write(k))
    ensures NoOrphans(After(s, Write(k))) <==> Answers(s, Write(k))
  {
    var t, pc := After(s, Write(k)), PcOf(s, k);
    assert PcOk(s, k);
    WorkingKey(s, k);
    StampedOwner(if pc.snap.Some? then pc.snap.value.obj else BLANK, k, pc.cr.uid, pc.want);
    if Lands(s, k) {
      LandingExact(s, t, k, pc.sk);
    } else {
      StillAnswered(s, t);
    }
  }

  /** One Secret is new or changed, and belongs to `k`. */
  lemma LandingExact(s: State, t: State, k: CRKey, sk: SKey)
    requires NoOrphans(s) && ValidKey(k) && t.crs == s.crs && Owned(t, sk, k)
    requires forall other :: ValidKey(other) && Owned(t, sk, other) ==> other == k
    requires forall other, own :: Owned(t, own, other) && own != sk ==> Owned(s, own, other)
    ensures NoOrphans(t) <==> AnsweredBy(s, k, sk)
  {
    forall other, own | ValidKey(other) && Owned(t, own, other) && own != sk ensures AnsweredBy(t, other, own) {
      assert Owned(s, own, other);
    }
    assert AnsweredBy(t, k, sk) <==> AnsweredBy(s, k, sk);
  }

  lemma DropExact(s: State, k: CRKey)
    requires Inv(s) && NoOrphans(s) && Enabled(s, DropFinalizer(k))
    ensures NoOrphans(After(s, DropFinalizer(k))) <==> Answers(s, DropFinalizer(k))
  {
    var t := After(s, DropFinalizer(k));
    assert PcOk(s, k);
    WorkingKey(s, k);
    if Current(s, k, PcOf(s, k).cr) {
      assert !Live(t, k);
      forall other, sk | ValidKey(other) && Owned(t, sk, other) && other != k ensures AnsweredBy(t, other, sk) {
        assert Owned(s, sk, other);
      }
      assert forall sk :: Owned(t, sk, k) <==> Owned(s, sk, k);
    } else {
      StillAnswered(s, t);
    }
  }

  lemma EditExact(s: State, k: CRKey, spec: Spec)
    requires Inv(s) && NoOrphans(s) && Enabled(s, UserEdit(k, spec))
    ensures NoOrphans(After(s, UserEdit(k, spec))) <==> Answers(s, UserEdit(k, spec))
  {
    var t := After(s, UserEdit(k, spec));
    assert CRVersion(k, s.crs[k]) in s.pastCrs;
    forall other, sk | ValidKey(other) && Owned(t, sk, other)
      ensures Owned(s, sk, other) && (if other == k then AnsweredBy(t, k, sk) <==> InReach(k, spec.target, sk)
        else AnsweredBy(t, other, sk))
    {
      assert Owned(s, sk, other);
    }
    assert forall sk :: Owned(t, sk, k) <==> Owned(s, sk, k);
  }

  lemma ExternalExact(s: State, sk: SKey, value: Option<SecretValue>)
    requires Inv(s) && NoOrphans(s) && Enabled(s, External(sk, value))
    ensures NoOrphans(After(s, External(sk, value))) <==> Answers(s, External(sk, value))
  {
    var t := After(s, External(sk, value));
    if value.Some? {
      forall k, other | ValidKey(k) && Owned(t, other, k) && other != sk ensures AnsweredBy(t, k, other) {
        assert Owned(s, other, k);
      }
      assert forall k :: Owned(t, sk, k) <==> OwnedBy(value.value, k);
      assert forall k :: AnsweredBy(t, k, sk) <==> AnsweredBy(s, k, sk);
    } else {
      StillAnswered(s, t);
    }
  }

  /** A resource with its finalizer keeps finalizer and target. */
  predicate KeepsLive(s: State, t: State, k: CRKey) {
    Live(s, k) ==> Live(t, k) && t.crs[k].spec.target == s.crs[k].spec.target
  }

  lemma StillAnswered(s: State, t: State)
    requires NoOrphans(s) && forall k :: KeepsLive(s, t, k)
    requires forall k, sk :: Owned(t, sk, k) ==> Owned(s, sk, k)
    ensures NoOrphans(t)
  {
    forall k, sk | ValidKey(k) && Owned(t, sk, k) ensures AnsweredBy(t, k, sk) {
      assert Owned(s, sk, k) && KeepsLive(s, t, k);
    }
  }

  lemma OthersAnswer(s: State, step: Step)
    requires Inv(s) && NoOrphans(s) && Enabled(s, step)
    requires !step.Write? && !step.DropFinalizer? && !step.UserEdit? && !step.External?
    ensures NoOrphans(After(s, step))
  {
    OthersShrink(s, step);
    OthersKeepLive(s, step);
    StillAnswered(s, After(s, step));
  }

  lemma OthersKeepLive(s: State, step: Step)
    requires Inv(s) && Enabled(s, step)
    requires !step.Write? && !step.DropFinalizer? && !step.UserEdit? && !step.External?
    ensures forall k :: KeepsLive(s, After(s, step), k)
  {
    forall k ensures KeepsLive(s, After(s, step), k) {
      if !About(step, k) {
        OthersKeepCr(s, step, k);
      } else if step.AddFinalizer? || step.Report? {
        assert PcOk(s, k);
        StoresOwnCopy(s, step, k);
      } else {
        OwnKeepsLive(s, step, k);
      }
    }
  }

  /** A step about this resource, by its controller or its user. */
  predicate About(step: Step, k: CRKey) {
    !step.External? && step.k == k
  }

  lemma OthersKeepCr(s: State, step: Step, k: CRKey)
    requires Enabled(s, step) && !About(step, k)
    ensures k in After(s, step).crs <==> k in s.crs
    ensures k in s.crs ==> After(s, step).crs[k] == s.crs[k]
  {
  }

  lemma StoresOwnCopy(s: State, step: Step, k: CRKey)
    requires KeysOk(s) && PcOk(s, k) && Enabled(s, step) && (step.AddFinalizer? || step.Report?) && step.k == k
    ensures KeepsLive(s, After(s, step), k)
  {
    if Current(s, k, PcOf(s, k).cr) {
      assert CRVersion(k, s.crs[k]) == CRVersion(k, PcOf(s, k).cr);
    }
  }

  lemma OwnKeepsLive(s: State, step: Step, k: CRKey)
    requires Enabled(s, step) && About(step, k) && !step.AddFinalizer? && !step.Report?
    requires !step.Write? && !step.DropFinalizer? && !step.UserEdit?
    ensures KeepsLive(s, After(s, step), k)
  {
  }

  // ---- over runs, exactly -------------------------------------------------------------------

  ghost predicate NeverOrphans(s: State, run: seq<Step>)
    requires IsRun(s, run)
    decreases |run|
  {
    NoOrphans(s) && (run == [] || NeverOrphans(After(s, run[0]), run[1..]))
  }

  ghost predicate AnswersAlong(s: State, run: seq<Step>)
    requires IsRun(s, run)
    decreases |run|
  {
    run == [] || (Answers(s, run[0]) && AnswersAlong(After(s, run[0]), run[1..]))
  }

  /** A run without forged owners passes through no state with an orphan if and only if no step of it makes one. */
  lemma {:induction false} NoOrphansExact(s: State, run: seq<Step>)
    requires Inv(s) && NoOrphans(s) && IsRun(s, run) && Unforged(s, run)
    ensures NeverOrphans(s, run) <==> AnswersAlong(s, run)
    decreases |run|
  {
    if run != [] {
      InvStep(s, run[0]);
      NoOrphansStepExact(s, run[0]);
      if Answers(s, run[0]) {
        NoOrphansExact(After(s, run[0]), run[1..]);
      } else {
        assert !NeverOrphans(After(s, run[0]), run[1..]);
      }
    }
  }

  // ---- what is enough -----------------------------------------------------------------------

  predicate UsesTarget(pc: Pc) {
    pc.Deriving? || pc.Applying? || pc.Writing?
  }

  /** Applies under way work for a resource that has its finalizer, and for the target it still has. */
  ghost predicate Attended(s: State) {
    forall k :: UsesTarget(PcOf(s, k)) ==> AttendedBy(s, k, PcOf(s, k).cr)
  }

  predicate AttendedBy(s: State, k: CRKey, cr: CR) {
    Live(s, k) && s.crs[k].spec.target == cr.spec.target
  }

  /**
   The user changes a target only while no apply for the old one is under way, and to one
   that reaches what the resource owns. Every edit that keeps the target is of this kind.
   */
  ghost predicate KeepsReach(s: State, step: Step) {
    step.UserEdit? ==>
      && (UsesTarget(PcOf(s, step.k)) ==> step.spec.target == PcOf(s, step.k).cr.spec.target)
      && forall sk :: Owned(s, sk, step.k) ==> InReach(step.k, step.spec.target, sk)
  }

  lemma SameTargetKeepsReach(s: State, k: CRKey, spec: Spec)
    requires Inv(s) && NoOrphans(s) && Attended(s) && k in s.crs && spec.target == s.crs[k].spec.target
    ensures KeepsReach(s, UserEdit(k, spec))
  {
    assert CRVersion(k, s.crs[k]) in s.pastCrs;
    forall sk | Owned(s, sk, k) ensures InReach(k, spec.target, sk) {
      assert AnsweredBy(s, k, sk);
    }
  }

  /**
   A read that an apply starts from shows a resource that is there, with its finalizer and
   that target. Its other fields may be old, and reads of deleting resources may show anything.
   */
  predicate FreshRead(s: State, step: Step) {
    step.ReadCR? && step.seen.Some? && Start(step.seen.value).Deriving? ==> AttendedBy(s, step.k, step.seen.value)
  }

  /** A listing for the version of the resource that is current misses nothing it owns within reach. */
  ghost predicate CompleteListing(s: State, step: Step) {
    step.ListOwned? && PcOf(s, step.k).Releasing? && Current(s, step.k, PcOf(s, step.k).cr) ==>
      forall sk :: Owned(s, sk, step.k) && InReach(step.k, PcOf(s, step.k).cr.spec.target, sk) ==>
        Scheduled(step.todo, step.k, sk)
  }

  /** What is left to delete for a finalizer that can still drop itself is on its list. */
  ghost predicate Covered(s: State) {
    forall k :: CoveredBy(s, k, PcOf(s, k))
  }

  ghost predicate CoveredBy(s: State, k: CRKey, pc: Pc) {
    match pc
    case Deleting(cr, todo, _) =>
      Current(s, k, cr) ==>
        forall sk :: Owned(s, sk, k) && InReach(k, cr.spec.target, sk) ==> Scheduled(todo, k, sk)
    case DroppingFinalizer(cr, _) =>
      Current(s, k, cr) ==> forall sk :: Owned(s, sk, k) ==> !InReach(k, cr.spec.target, sk)
    case _ => true
  }

  lemma CoveredOwn(s: State, step: Step, k: CRKey)
    requires Enabled(s, step) && step.By(k) && CoveredBy(s, k, PcOf(s, k)) && CompleteListing(s, step)
    ensures CoveredBy(After(s, step), k, PcOf(After(s, step), k))
  {
    if step.DeleteNext? && Current(s, k, PcOf(s, k).cr) {
      var s', pc := After(s, step), PcOf(s, k);
      forall sk | Owned(s', sk, k) && InReach(k, pc.cr.spec.target, sk)
        ensures pc.todo != [] && Scheduled(pc.todo[1..], k, sk)
      {
        assert Owned(s, sk, k) && Scheduled(pc.todo, k, sk);
        StillScheduled(pc.todo, k, sk);
      }
    }
  }

  /** A copy that is not the current version never becomes it. */
  lemma NeverCurrentAgain(s: State, step: Step, k: CRKey, cr: CR)
    requires KeysOk(s) && CopyOk(s, k, cr) && Enabled(s, step) && !step.By(k)
    ensures Current(After(s, step), k, cr) ==> Current(s, k, cr)
  {
    if !About(step, k) {
      OthersKeepCr(s, step, k);
    }
  }

  lemma CoveredStep(s: State, step: Step)
    requires Inv(s) && Covered(s) && Enabled(s, step) && NotForged(s, step) && CompleteListing(s, step)
    ensures Covered(After(s, step))
  {
    var s' := After(s, step);
    forall k ensures CoveredBy(s', k, PcOf(s', k)) {
      assert CoveredBy(s, k, PcOf(s, k)) && PcOk(s, k);
      if step.By(k) {
        CoveredOwn(s, step, k);
      } else {
        OtherKeeps(s, step, k);
        if !PcOf(s, k).Idle? {
          WorkingKey(s, k);
          NeverCurrentAgain(s, step, k, PcOf(s, k).cr);
          forall sk | Owned(s', sk, k) ensures Owned(s, sk, k) {
            if !Owned(s, sk, k) {
              WriteOwner(s, step, sk, k);
            }
          }
        }
      }
    }
  }

  lemma AttendedOwn(s: State, step: Step, k: CRKey)
    requires Enabled(s, step) && step.By(k) && FreshRead(s, step)
    requires UsesTarget(PcOf(s, k)) ==> AttendedBy(s, k, PcOf(s, k).cr)
    ensures UsesTarget(PcOf(After(s, step), k)) ==> AttendedBy(After(s, step), k, PcOf(After(s, step), k).cr)
  {
  }

  lemma AttendedOther(s: State, step: Step, k: CRKey)
    requires Enabled(s, step) && !step.By(k) && KeepsReach(s, step)
    requires UsesTarget(PcOf(s, k)) && AttendedBy(s, k, PcOf(s, k).cr)
    ensures AttendedBy(After(s, step), k, PcOf(s, k).cr)
  {
    if !About(step, k) {
      OthersKeepCr(s, step, k);
    }
  }

  lemma AttendedStep(s: State, step: Step)
    requires Attended(s) && Enabled(s, step) && KeepsReach(s, step) && FreshRead(s, step)
    ensures Attended(After(s, step))
  {
    var s' := After(s, step);
    forall k ensures UsesTarget(PcOf(s', k)) ==> AttendedBy(s', k, PcOf(s', k).cr) {
      if step.By(k) {
        AttendedOwn(s, step, k);
      } else {
        OtherKeeps(s, step, k);
        if UsesTarget(PcOf(s, k)) {
          AttendedOther(s, step, k);
        }
      }
    }
  }

  /** Targets move only within reach, owners are not forged, and applies and final releases see what there is. */
  ghost predicate Tidy(s: State, step: Step) {
    KeepsReach(s, step) && NotForged(s, step) && FreshRead(s, step) && CompleteListing(s, step)
  }

  lemma TidyAnswers(s: State, step: Step)
    requires Inv(s) && NoOrphans(s) && Attended(s) && Covered(s) && Enabled(s, step) && Tidy(s, step)
    ensures Answers(s, step)
  {
    match step
    case Write(k) =>
      assert PcOk(s, k) && UsesTarget(PcOf(s, k));
    case DropFinalizer(k) =>
      assert PcOk(s, k) && CoveredBy(s, k, PcOf(s, k));
      WorkingKey(s, k);
      if Current(s, k, PcOf(s, k).cr) {
        assert CRVersion(k, s.crs[k]) == CRVersion(k, PcOf(s, k).cr);
        forall sk ensures !Owned(s, sk, k) {
          assert Owned(s, sk, k) ==> AnsweredBy(s, k, sk);
        }
      }
    case External(sk, value) =>
      if value.Some? {
        forall k | ValidKey(k) && OwnedBy(value.value, k) ensures AnsweredBy(s, k, sk) {
          assert Owned(s, sk, k);
        }
      }
    case _ =>
  }

  ghost predicate TidyRun(s: State, run: seq<Step>)
    requires IsRun(s, run)
    decreases |run|
  {
    run == [] || (Tidy(s, run[0]) && TidyRun(After(s, run[0]), run[1..]))
  }

  lemma {:induction false} NoOrphansOverRun(s: State, run: seq<Step>)
    requires Inv(s) && NoOrphans(s) && Attended(s) && Covered(s) && IsRun(s, run) && TidyRun(s, run)
    ensures NeverOrphans(s, run) && NoOrphans(Exec(s, run))
    decreases |run|
  {
    if run != [] {
      TidyAnswers(s, run[0]);
      NoOrphansStepExact(s, run[0]);
      InvStep(s, run[0]);
      AttendedStep(s, run[0]);
      CoveredStep(s, run[0]);
      NoOrphansOverRun(After(s, run[0]), run[1..]);
    }
  }

  /**
   No orphans. From any cluster without orphans, in every state reachable while targets move
   only within reach and applies and final releases see what there is, under any interleaving,
   failure, stale Get, stale read of a deleting resource, concurrent edit or deletion, and
   whatever names the manifests took during the run: a managed Secret that names a resource
   as owner has that resource alive with its finalizer, and within the finalizer's reach.
   */
  lemma NoOrphansFromInit(s: State, run: seq<Step>)
    requires Init(s) && NoOrphans(s) && IsRun(s, run) && TidyRun(s, run)
    ensures NeverOrphans(s, run) && NoOrphans(Exec(s, run))
  {
    InitInv(s);
    NoOrphansOverRun(s, run);
  }
}
