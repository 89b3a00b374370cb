/**
 What is published for a directory, and what it holds. The two are the same commit as long as
 the HEAD of every new clone can be read.
 */
module GitHeads {
  import opened Wrappers
  import opened ObjectEntries
  import opened GitCache
  import opened GitCoherence

  /** HEAD of a new clone can be read, or is the commit published before. */
  predicate HeadKnown(s: State, step: Step)
    requires Enabled(s, step)
  {
    step.Refresh? && step.f.CloneHeadless? ==> s.heap[WriterOf(s, step.k).eid].sha == Some(step.f.sha)
  }

  /** What is on disk is of the published commit, unless a writer is about to publish or has begun to write. */
  predicate InStep(w: Writer, files: Option<Files>, sha: Option<string>, held: Option<string>) {
    match w
    case Updating(_, _) => true
    case Cloning(_, _) => true
    case Leaving(_, _, result) => result.Some? || (files.Some? ==> sha == held)
    case Publishing(_, result) => result.Some? || (files.Some? ==> sha == held)
    case _ => files.Some? ==> sha == held
  }

  predicate EntryInStep(s: State, w: Writer, eid: nat)
    requires Exists(s, eid)
  {
    InStep(w, OnDisk(s, s.heap[eid].dir), s.heap[eid].sha, s.heap[eid].held)
  }

  predicate KeyInStep(s: State, k: ObjectKey) {
    var w := WriterOf(s, k);
    && (k in s.entries ==> Exists(s, s.entries[k]) && EntryInStep(s, w, s.entries[k]))
    && (w.Removing? ==> Exists(s, w.eid) && EntryInStep(s, w, w.eid))
  }

  ghost predicate AllInStep(s: State) {
    forall k :: KeyInStep(s, k)
  }

  lemma OtherInStep(s: State, t: State, l: ObjectKey)
    requires SameFor(s, t, l) && KeyOk(s, l) && InPlace(s, l) && KeyInStep(s, l)
    ensures KeyInStep(t, l)
  {
    if l in s.entries {
      assert Holds(s, l, s.heap[s.entries[l]].dir);
    }
    if WriterOf(s, l).Removing? {
      assert Holds(s, l, s.heap[WriterOf(s, l).eid].dir);
    }
  }

  lemma NewInStep(s: State, k: ObjectKey, dir: string)
    requires dir !in s.disk
    ensures KeyInStep(Install(s, k, dir), k)
  {
  }

  lemma WaitInStep(s: State, k: ObjectKey, mu: Option<ObjectKey>, w: Writer)
    requires KeyInStep(s, k) && WriterOf(s, k).Idle? && (w.Installed? || w.Evicting?)
    ensures KeyInStep(SetWriter(s.(mu := mu), k, w), k)
  {
  }

  lemma BeginInStep(s: State, k: ObjectKey, dir: string)
    requires MapEnabled(s, k, Begin(dir)) && WriterFacts(s, k) && KeyInStep(s, k) && Vacant(s, k, dir)
    ensures KeyInStep(AfterBegin(s, k, dir), k)
  {
    if k !in s.entries {
      NewInStep(s, k, dir);
    } else {
      WaitInStep(s, k, s.mu, Installed(s.entries[k]));
      WaitInStep(s, k, Some(k), Evicting(s.entries[k], dir));
    }
  }

  lemma EvictInStep(s: State, k: ObjectKey)
    requires MapEnabled(s, k, EvictDone) && WriterFacts(s, k) && KeyOk(s, k) && Vacant(s, k, WriterOf(s, k).dir)
    ensures KeyInStep(AfterMap(s, k, EvictDone), k)
  {
    var w := WriterOf(s, k);
    NewInStep(RemoveAll(s.(mu := None), s.heap[w.eid].dir), k, w.dir);
  }

  lemma RemovalInStep(s: State, k: ObjectKey, m: MapStep)
    requires MapEnabled(s, k, m) && WriterFacts(s, k) && KeyInStep(s, k)
    requires m.EvictFile? || m.RemoveFile? || m.RemoveDone? || m.Forget?
    ensures KeyInStep(AfterMap(s, k, m), k)
  {
  }

  lemma RefreshInStep(s: State, k: ObjectKey, f: RefreshStep)
    requires RefreshEnabled(s, k, f) && InPlace(s, k) && KeyOk(s, k) && KeyInStep(s, k)
    requires HeadKnown(s, Refresh(k, f))
    ensures KeyInStep(AfterRefresh(s, k, f), k)
  {
    if f.UpdateOk? || f.CloneOk? || f.CloneHeadless? {
      ReceiveInStep(s, k, f);
    } else {
      LockInStep(s, k, f);
    }
  }

  lemma ReceiveInStep(s: State, k: ObjectKey, f: RefreshStep)
    requires RefreshEnabled(s, k, f) && InPlace(s, k) && HeadKnown(s, Refresh(k, f))
    requires f.UpdateOk? || f.CloneOk? || f.CloneHeadless?
    ensures KeyInStep(AfterRefresh(s, k, f), k)
  {
  }

  lemma LockInStep(s: State, k: ObjectKey, f: RefreshStep)
    requires RefreshEnabled(s, k, f) && InPlace(s, k) && KeyOk(s, k) && KeyInStep(s, k)
    requires !f.UpdateOk? && !f.CloneOk? && !f.CloneHeadless?
    ensures KeyInStep(AfterRefresh(s, k, f), k)
  {
  }

  lemma InStepStep(s: State, step: Step, l: ObjectKey)
    requires Inv(s) && KeyInStep(s, l) && Enabled(s, step) && Free(s, step) && HeadKnown(s, step)
    ensures KeyInStep(After(s, step), l)
  {
    ActorFacts(s, step);
    assert KeyOk(s, l) && InPlace(s, l);
    if !step.By(l) {
      OtherSame(s, step, l);
      OtherInStep(s, After(s, step), l);
    } else if step.Refresh? {
      RefreshInStep(s, l, step.f);
    } else if step.m.Begin? {
      assert DirOk(s, step.m.dir);
      AskedVacant(s, l, step.m.dir);
      BeginInStep(s, l, step.m.dir);
    } else if step.m.EvictDone? {
      assert DirOk(s, WriterOf(s, l).dir) && Uses(s, l, WriterOf(s, l).dir);
      DirVacant(s, l, WriterOf(s, l).dir);
      EvictInStep(s, l);
    } else {
      RemovalInStep(s, l, step.m);
    }
  }

  /** A reader with the lock on its directory's latest entry reads from the published commit. */
  lemma PublishedIsHeld(s: State, r: nat, eid: nat)
    requires Inv(s) && AllInStep(s) && HoldsRead(s, r, eid) && Latest(s, eid) && s.heap[eid].dir in s.disk
    ensures s.heap[eid].sha == s.heap[eid].held
  {
    var dir := s.heap[eid].dir;
    assert LockOk(s, eid) && r in s.heap[eid].readers && DirOk(s, dir);
    var k :| Holds(s, k, dir);
    assert KeyOk(s, k) && KeyInStep(s, k) && InPlace(s, k) && HolderOk(s, k);
  }
}
