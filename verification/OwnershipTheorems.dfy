/** What every run of the ownership protocol keeps, and exactly where the guarantees end. */
module OwnershipTheorems {
  import opened Secrets
  import opened Targets
  import opened Ownership

  // ---- exclusive ownership ----------------------------------------------------------------

  predicate SameSecret(s: State, s': State, sk: SKey) {
    (sk in s.secrets <==> sk in s'.secrets) && (sk in s.secrets ==> s'.secrets[sk] == s.secrets[sk])
  }

  /** The controller of `k` is about to delete `sk`, which it saw as its own. */
  predicate AboutToDelete(s: State, k: CRKey, sk: SKey) {
    var pc := PcOf(s, k);
    pc.Deleting? && pc.todo != [] && pc.todo[0].sk == sk && OwnedBy(pc.todo[0].stored.obj, k)
  }

  /**
   Exactly one kind of step of another controller can disturb a Secret owned by `k`: the
   unconditional delete of a Secret that controller had read as its own. No write can, however
   stale the read it is based on.
   */
  lemma ForeignStepExact(s: State, step: Step, k: CRKey, other: CRKey, sk: SKey)
    requires Inv(s) && Enabled(s, step) && step.By(other) && other != k
    requires ValidKey(k) && Owned(s, sk, k)
    ensures !SameSecret(s, After(s, step), sk) <==> step.DeleteNext? && AboutToDelete(s, other, sk)
  {
    match step
    case Write(_) => ForeignWrite(s, other, k, sk);
    case DeleteNext(_) => ForeignDelete(s, other, sk);
    case _ => ForeignOther(s, step, other, sk);
  }

  lemma ForeignWrite(s: State, other: CRKey, k: CRKey, sk: SKey)
    requires Inv(s) && Enabled(s, Write(other)) && other != k && ValidKey(k) && Owned(s, sk, k)
    ensures SameSecret(s, After(s, Write(other)), sk)
  {
    var pc := PcOf(s, other);
    assert PcOk(s, other);
    WorkingKey(s, other);
    if pc.sk == sk && pc.snap.Some? && s.secrets[sk].rv == pc.snap.value.rv {
      var mine, theirs := Version(sk, s.secrets[sk]), Version(sk, pc.snap.value);
      assert mine in s.past && theirs in s.past;
      assert mine == theirs;
      GuardProtectsOwner(s.secrets[sk].obj, pc.cr.spec.adopt, k, other);
    }
  }

  lemma ForeignDelete(s: State, other: CRKey, sk: SKey)
    requires Enabled(s, DeleteNext(other)) && sk in s.secrets
    ensures !SameSecret(s, After(s, DeleteNext(other)), sk) <==> AboutToDelete(s, other, sk)
  {
  }

  lemma ForeignOther(s: State, step: Step, other: CRKey, sk: SKey)
    requires Enabled(s, step) && step.By(other) && !step.Write? && !step.DeleteNext?
    ensures SameSecret(s, After(s, step), sk)
  {
  }

  /** No external writer touches a Secret that carries the operator's label, or adds the label. */
  predicate Quiet(s: State, step: Step) {
    step.External? ==>
      (step.sk in s.secrets ==> !Managed(s.secrets[step.sk].obj))
      && (step.value.Some? ==> !Managed(step.value.value))
  }

  /**
   A listing shows no ghosts: what it shows as the resource's own is the resource's own, in
   whatever version. It may be old and may miss anything.
   */
  ghost predicate NoGhosts(s: State, step: Step) {
    step.ListOwned? ==>
      forall i | 0 <= i < |step.todo| && OwnedBy(step.todo[i].stored.obj, step.k) :: Owned(s, step.todo[i].sk, step.k)
  }

  /** What a finalizer is about to delete as its resource's own is its resource's own. */
  ghost predicate ListingsHonest(s: State) {
    forall k, cr, todo: seq<Version>, listed: seq<Version> | PcOf(s, k) == Deleting(cr, todo, listed) ::
      ListingHonest(s, k, todo)
  }

  ghost predicate ListingHonest(s: State, k: CRKey, todo: seq<Version>) {
    && (forall i, j :: 0 <= i < j < |todo| ==> todo[i].sk != todo[j].sk)
    && (forall i | 0 <= i < |todo| && OwnedBy(todo[i].stored.obj, k) :: Owned(s, todo[i].sk, k))
  }

  /** In a quiet run nobody but its owner's controller changes a Secret. */
  lemma OthersLeaveAlone(s: State, step: Step, k: CRKey, sk: SKey)
    requires Inv(s) && ListingsHonest(s) && Enabled(s, step) && Quiet(s, step)
    requires ValidKey(k) && Owned(s, sk, k) && !step.By(k)
    ensures SameSecret(s, After(s, step), sk)
  {
    if !step.UserCreate? && !step.UserEdit? && !step.UserDelete? && !step.External? {
      ForeignStepExact(s, step, k, step.k, sk);
      if AboutToDelete(s, step.k, sk) && step.DeleteNext? {
        var pc := PcOf(s, step.k);
        assert ListingHonest(s, step.k, pc.todo) && PcOk(s, step.k);
        WorkingKey(s, step.k);
        OneOwner(s.secrets[sk].obj, k, step.k);
      }
    }
  }

  /** The owner's finalizer deletes this very Secret. */
  predicate DeletesOwn(s: State, step: Step, k: CRKey, sk: SKey) {
    step == DeleteNext(k) && AboutToDelete(s, k, sk)
  }

  /** Short of deleting it, the owner's own steps keep it the owner. */
  lemma OwnStepKeepsOwner(s: State, step: Step, k: CRKey, sk: SKey)
    requires Inv(s) && Enabled(s, step) && ValidKey(k) && Owned(s, sk, k)
    requires step.By(k) && !DeletesOwn(s, step, k, sk)
    ensures Owned(After(s, step), sk, k)
  {
    if step.Write? {
      var pc := PcOf(s, k);
      var base := if pc.snap.Some? then pc.snap.value.obj else BLANK;
      StampedOwner(base, k, pc.cr.uid, pc.want);
    }
  }

  lemma ListingOwn(s: State, step: Step, k: CRKey, cr: CR, todo: seq<Version>, listed: seq<Version>)
    requires ListingsHonest(s) && Enabled(s, step) && NoGhosts(s, step) && step.By(k)
    requires PcOf(After(s, step), k) == Deleting(cr, todo, listed)
    ensures ListingHonest(After(s, step), k, todo)
  {
    if step.DeleteNext? {
      assert ListingHonest(s, k, PcOf(s, k).todo);
    }
  }

  lemma ListingsStep(s: State, step: Step)
    requires Inv(s) && ListingsHonest(s) && Enabled(s, step) && Quiet(s, step) && NoGhosts(s, step)
    ensures ListingsHonest(After(s, step))
  {
    var s' := After(s, step);
    forall k, cr, todo: seq<Version>, listed: seq<Version> | PcOf(s', k) == Deleting(cr, todo, listed)
      ensures ListingHonest(s', k, todo)
    {
      if step.By(k) {
        ListingOwn(s, step, k, cr, todo, listed);
      } else {
        ListingOther(s, step, k, cr, todo, listed);
      }
    }
  }

  lemma ListingOther(s: State, step: Step, k: CRKey, cr: CR, todo: seq<Version>, listed: seq<Version>)
    requires Inv(s) && ListingsHonest(s) && Enabled(s, step) && Quiet(s, step)
    requires !step.By(k) && PcOf(After(s, step), k) == Deleting(cr, todo, listed)
    ensures ListingHonest(After(s, step), k, todo)
  {
    OtherKeeps(s, step, k);
    assert ListingHonest(s, k, todo) && PcOk(s, k);
    WorkingKey(s, k);
    forall i | 0 <= i < |todo| && OwnedBy(todo[i].stored.obj, k) ensures SameSecret(s, After(s, step), todo[i].sk) {
      OthersLeaveAlone(s, step, k, todo[i].sk);
    }
  }

  lemma QuietNotForged(s: State, step: Step)
    requires Quiet(s, step)
    ensures NotForged(s, step)
  {
  }

  /** External writers leave managed Secrets alone, and listings show no ghosts. */
  ghost predicate QuietRun(s: State, run: seq<Step>)
    requires IsRun(s, run)
    decreases |run|
  {
    run == [] || (Quiet(s, run[0]) && NoGhosts(s, run[0]) && QuietRun(After(s, run[0]), run[1..]))
  }

  /** Along the run, only steps of `k`'s controller change `sk`, and `k` owns it throughout. */
  ghost predicate OnlyOwnerTouches(s: State, run: seq<Step>, k: CRKey, sk: SKey)
    requires IsRun(s, run)
    decreases |run|
  {
    Owned(s, sk, k) &&
    (run == [] ||
      ((run[0].By(k) || SameSecret(s, After(s, run[0]), sk)) && OnlyOwnerTouches(After(s, run[0]), run[1..], k, sk)))
  }

  /** The finalizer of `k` does not get to `sk`; it may delete anything else. */
  ghost predicate Spared(s: State, run: seq<Step>, k: CRKey, sk: SKey)
    requires IsRun(s, run)
    decreases |run|
  {
    run == [] || (!DeletesOwn(s, run[0], k, sk) && Spared(After(s, run[0]), run[1..], k, sk))
  }

  // Exactly when.

  /** An external writer, or a finalizer that once read it as its own, changes the Secret of `k`. */
  predicate Disturbs(s: State, step: Step, k: CRKey, sk: SKey) {
    if step.External? then step.sk == sk else step.DeleteNext? && step.k != k && AboutToDelete(s, step.k, sk)
  }

  lemma DisturbsExactly(s: State, step: Step, k: CRKey, sk: SKey)
    requires Inv(s) && Enabled(s, step) && ValidKey(k) && Owned(s, sk, k) && !step.By(k)
    ensures SameSecret(s, After(s, step), sk) <==> !Disturbs(s, step, k, sk)
  {
    if step.External? {
      assert Version(sk, s.secrets[sk]) in s.past;
    } else if !step.UserCreate? && !step.UserEdit? && !step.UserDelete? {
      ForeignStepExact(s, step, k, step.k, sk);
    }
  }

  ghost predicate Undisturbed(s: State, run: seq<Step>, k: CRKey, sk: SKey)
    requires IsRun(s, run)
    decreases |run|
  {
    run == [] || (!Disturbs(s, run[0], k, sk) && Undisturbed(After(s, run[0]), run[1..], k, sk))
  }

  /**
   Exclusive ownership, exactly. Whatever any reader sees, and whatever external writers do
   short of forging owners: as long as its own finalizer spares it, a Secret stays with its
   owner and is changed by nobody else, if and only if no external writer goes for this very
   Secret and no other finalizer deletes it from a listing that showed it as its own.
   */
  lemma {:induction false} ExclusiveOwnershipExact(s: State, run: seq<Step>, k: CRKey, sk: SKey)
    requires Inv(s) && IsRun(s, run) && Unforged(s, run)
    requires ValidKey(k) && Owned(s, sk, k) && Spared(s, run, k, sk)
    ensures OnlyOwnerTouches(s, run, k, sk) <==> Undisturbed(s, run, k, sk)
    decreases |run|
  {
    if run != [] {
      InvStep(s, run[0]);
      if run[0].By(k) {
        OwnStepKeepsOwner(s, run[0], k, sk);
      } else {
        DisturbsExactly(s, run[0], k, sk);
      }
      if run[0].By(k) || !Disturbs(s, run[0], k, sk) {
        ExclusiveOwnershipExact(After(s, run[0]), run[1..], k, sk);
      }
    }
  }

  /**
   Exclusive ownership over runs. Once `k` owns a Secret, every interleaving of the steps of
   any number of other resources, user edits and external writers of unmanaged Secrets leaves
   it owned by `k` and changed by nobody else, until the finalizer of `k` deletes it. Reads
   of resources and of Secrets may be stale; only a finalizer's listing must show no ghosts.
   */
  lemma {:induction false} ExclusiveOwnership(s: State, run: seq<Step>, k: CRKey, sk: SKey)
    requires Inv(s) && ListingsHonest(s) && IsRun(s, run) && QuietRun(s, run)
    requires ValidKey(k) && Owned(s, sk, k) && Spared(s, run, k, sk)
    ensures OnlyOwnerTouches(s, run, k, sk)
    ensures Owned(Exec(s, run), sk, k)
    decreases |run|
  {
    if run != [] {
      QuietNotForged(s, run[0]);
      InvStep(s, run[0]);
      ListingsStep(s, run[0]);
      if run[0].By(k) {
        OwnStepKeepsOwner(s, run[0], k, sk);
      } else {
        OthersLeaveAlone(s, run[0], k, sk);
      }
      ExclusiveOwnership(After(s, run[0]), run[1..], k, sk);
    }
  }

  lemma {:induction false} QuietReaches(s: State, run: seq<Step>)
    requires Inv(s) && ListingsHonest(s) && IsRun(s, run) && QuietRun(s, run)
    ensures Inv(Exec(s, run)) && ListingsHonest(Exec(s, run))
    decreases |run|
  {
    if run != [] {
      QuietNotForged(s, run[0]);
      InvStep(s, run[0]);
      ListingsStep(s, run[0]);
      QuietReaches(After(s, run[0]), run[1..]);
    }
  }

  /**
   From any cluster: whatever quiet run `past` brought a Secret into the hands of `k`, every
   quiet run from there leaves it with `k` until the finalizer of `k` deletes it.
   */
  lemma ExclusiveOwnershipFromInit(s: State, past: seq<Step>, run: seq<Step>, k: CRKey, sk: SKey)
    requires Init(s) && IsRun(s, past) && QuietRun(s, past)
    requires IsRun(Exec(s, past), run) && QuietRun(Exec(s, past), run)
    requires ValidKey(k) && Owned(Exec(s, past), sk, k) && Spared(Exec(s, past), run, k, sk)
    ensures OnlyOwnerTouches(Exec(s, past), run, k, sk)
    ensures Owned(Exec(Exec(s, past), run), sk, k)
  {
    InitInv(s);
    QuietReaches(s, past);
    ExclusiveOwnership(Exec(s, past), run, k, sk);
  }
}
