/** What reads of the git cache return, over every trace. */
module GitReads {
  import opened Wrappers
  import opened ObjectEntries
  import opened GitCache
  import opened GitCoherence
  import opened GitHeads
  import opened GitTheorems

  // ---- coherent reads ---------------------------------------------------------------------

  /** Two commits have the same file at the path. */
  predicate SameFile(a: Option<string>, b: Option<string>, path: string) {
    && a.Some? && path in Tree(a.value) && b.Some? && path in Tree(b.value)
    && Tree(a.value)[path] == Tree(b.value)[path]
  }

  /**
   Git read coherence. In every reachable state, a completed `Read` whose file was read while
   its directory was at rest has the bytes of exactly the commit it returned, if and only if
   the commit whose files the directory then held has the same file at that path. A read
   through the latest entry of its directory is always of this kind, across failed
   refreshes, wipes, clones, edits and `Forget`; and there it has the bytes of the commit it
   returned, unless a new clone was left behind whose HEAD could not be read.
   */
  lemma ReadCoherence(t: seq<State>, l: seq<Step>, n: nat, r: nat)
    requires IsHistory(t, l) && n < |t| && r in t[n].readers && t[n].readers[r].Done?
    ensures var q := t[n].readers[r];
      && (q.source.Some? ==> (Matches(q.sha, q.path, q.content) <==> SameFile(q.sha, q.source, q.path)))
      && (q.newest ==> q.source.Some? && (HeadsKnown(t, l, n) ==> Matches(q.sha, q.path, q.content)))
  {
    TraceInv(t, l, n);
    assert ReaderOk(t[n].readers[r]);
    if HeadsKnown(t, l, n) {
      TraceReads(t, l, n, r);
    }
  }

  /** What a read through its directory's latest entry read from is what was published for the entry. */
  predicate ReadInStep(s: State, q: Reader) {
    match q
    case HasContent(_, _, eid, _, source, newest) => newest ==> Exists(s, eid) && source == s.heap[eid].sha
    case Done(_, _, _, _, sha, source, newest) => newest ==> source == sha
    case _ => true
  }

  lemma ReadInStepStep(s: State, step: Step, r: nat)
    requires Inv(s) && AllInStep(s) && Enabled(s, step) && r in After(s, step).readers
    requires r in s.readers ==> ReadInStep(s, s.readers[r])
    ensures ReadInStep(After(s, step), After(s, step).readers[r])
  {
    if step.Read? && step.r == r {
      if r in s.readers {
        ReadsInStep(s, r, step.p);
      }
    } else {
      ReadersKept(s, step, r);
      ReaderOther(s, step, r);
      if s.readers[r].HasContent? {
        ShaKept(s, step, r, s.readers[r].eid);
      }
    }
  }

  lemma ReadsInStep(s: State, r: nat, p: ReadStep)
    requires Inv(s) && AllInStep(s) && ReadEnabled(s, r, p) && r in s.readers && ReadInStep(s, s.readers[r])
    ensures ReadInStep(AfterRead(s, r, p), AfterRead(s, r, p).readers[r])
  {
    if p.ReadFile? {
      var eid := s.readers[r].eid;
      assert LockOk(s, eid) && HoldsRead(s, r, eid) && r in s.heap[eid].readers;
      if Latest(s, eid) && s.heap[eid].dir in s.disk {
        PublishedIsHeld(s, r, eid);
      }
    }
  }

  lemma {:induction false} TraceReads(t: seq<State>, l: seq<Step>, n: nat, r: nat)
    requires IsHistory(t, l) && n < |t| && HeadsKnown(t, l, n) && r in t[n].readers
    ensures ReadInStep(t[n], t[n].readers[r])
  {
    if n > 0 {
      TraceInv(t, l, n - 1);
      TraceInStep(t, l, n - 1);
      if r in t[n - 1].readers {
        TraceReads(t, l, n - 1, r);
      }
      ReadInStepStep(t[n - 1], l[n - 1], r);
    }
  }

  /** What was recorded when the file was read. */
  lemma ReadRecords(s: State, r: nat)
    requires Enabled(s, Read(r, ReadFile))
    ensures var t, eid := After(s, Read(r, ReadFile)), s.readers[r].eid;
      t.readers[r].HasContent? ==>
        && t.readers[r].newest == Latest(s, eid)
        && t.readers[r].source == Settled(s, s.heap[eid].dir)
        && OnDisk(s, s.heap[eid].dir).Some? && t.readers[r].path in OnDisk(s, s.heap[eid].dir).value
        && t.readers[r].content == OnDisk(s, s.heap[eid].dir).value[t.readers[r].path]
  {
  }

  /** The step brings a commit into the directory of the entry: an update, or a clone with or without a HEAD. */
  predicate Brings(s: State, step: Step, eid: nat) {
    step.Refresh? && !WriterOf(s, step.k).Idle? && WriterOf(s, step.k).eid == eid
    && (step.f.UpdateOk? || step.f.CloneOk? || step.f.CloneHeadless?)
  }

  /** `held` is the commit that was last brought into the directory through the entry. */
  lemma HeldIsBrought(s: State, step: Step, eid: nat)
    requires Enabled(s, step) && Exists(s, eid)
    ensures Exists(After(s, step), eid)
    ensures if Brings(s, step, eid)
      then After(s, step).heap[eid].held == Some(step.f.sha)
        && OnDisk(After(s, step), s.heap[eid].dir) == Some(Tree(step.f.sha))
      else After(s, step).heap[eid].held == s.heap[eid].held
  {
    match step
    case AtMap(k, m) => MapFrames(s, k, m);
    case Refresh(k, f) =>
      if WriterOf(s, k).eid == eid {
        RefreshBrings(s, k, f);
      } else {
        RefreshFrames(s, k, f);
      }
    case Read(r, p) => ReadFrames(s, r, p);
  }

  lemma RefreshBrings(s: State, k: ObjectKey, f: RefreshStep)
    requires RefreshEnabled(s, k, f)
    ensures var t, eid := AfterRefresh(s, k, f), WriterOf(s, k).eid;
      Exists(t, eid) &&
      if f.UpdateOk? || f.CloneOk? || f.CloneHeadless? then
        t.heap[eid].held == Some(f.sha) && OnDisk(t, s.heap[eid].dir) == Some(Tree(f.sha))
      else t.heap[eid].held == s.heap[eid].held
  {
  }

  /** An entry is its directory's latest exactly if no entry made after it has the directory. */
  lemma {:induction false} LatestIsNewest(t: seq<State>, l: seq<Step>, n: nat, eid: nat)
    requires IsTrace(t, l) && t[0] == START && n < |t| && Exists(t[n], eid)
    ensures Latest(t[n], eid) <==> forall e :: eid < e < |t[n].heap| ==> t[n].heap[e].dir != t[n].heap[eid].dir
  {
    LatestOkAlong(t, l, n);
    var s := t[n];
    assert LatestAt(s, eid);
    if Latest(s, eid) {
      forall e: nat | eid < e < |s.heap| ensures s.heap[e].dir != s.heap[eid].dir {
        assert LatestAt(s, e);
      }
    } else {
      assert s.heap[s.latest[s.heap[eid].dir]].dir == s.heap[eid].dir;
    }
  }

  /** The directory of an entry has a latest entry, made no earlier. */
  predicate LatestAt(s: State, e: nat) {
    Exists(s, e) ==>
      && s.heap[e].dir in s.latest && e <= s.latest[s.heap[e].dir]
      && Exists(s, s.latest[s.heap[e].dir]) && s.heap[s.latest[s.heap[e].dir]].dir == s.heap[e].dir
  }

  ghost predicate LatestOk(s: State) {
    forall e: nat :: LatestAt(s, e)
  }

  lemma {:induction false} LatestOkAlong(t: seq<State>, l: seq<Step>, n: nat)
    requires IsTrace(t, l) && t[0] == START && n < |t|
    ensures LatestOk(t[n])
  {
    if n > 0 {
      LatestOkAlong(t, l, n - 1);
      LatestOkStep(t[n - 1], l[n - 1]);
    }
  }

  lemma LatestOkStep(s: State, step: Step)
    requires LatestOk(s) && Enabled(s, step)
    ensures LatestOk(After(s, step))
  {
    HeapStep(s, step);
    LatestOkGrows(s, After(s, step));
  }

  lemma LatestOkGrows(s: State, t: State)
    requires LatestOk(s) && HeapGrows(s, t)
    ensures LatestOk(t)
  {
    forall e: nat ensures LatestAt(t, e) {
      assert LatestAt(s, e);
    }
  }

  /** A step that makes an entry for a directory that had one before. */
  predicate Reuses(s: State, step: Step)
    requires Enabled(s, step)
  {
    var t := After(s, step);
    |t.heap| > |s.heap| && t.heap[|s.heap|].dir in s.latest
  }

  ghost predicate NeverReuses(t: seq<State>, l: seq<Step>)
    requires IsTrace(t, l)
  {
    forall i :: 0 <= i < |l| ==> Enabled(t[i], l[i]) && !Reuses(t[i], l[i])
  }

  ghost predicate AllNewest(s: State) {
    && (forall e: nat :: Exists(s, e) ==> Latest(s, e))
    && (forall r :: r in s.readers ==> ReadNewest(s.readers[r]))
  }

  predicate ReadNewest(q: Reader) {
    q.HasContent? || q.Done? ==> q.newest
  }

  lemma AllLatestGrows(s: State, t: State)
    requires HeapGrows(s, t) && forall e: nat :: Exists(s, e) ==> Latest(s, e)
    requires |t.heap| > |s.heap| ==> t.heap[|s.heap|].dir !in s.latest
    ensures forall e: nat :: Exists(t, e) ==> Latest(t, e)
  {
    forall e: nat | Exists(t, e) ensures Latest(t, e) {
      assert Exists(s, e) ==> Latest(s, e);
    }
  }

  lemma AllNewestStep(s: State, step: Step)
    requires AllNewest(s) && Enabled(s, step) && !Reuses(s, step)
    ensures AllNewest(After(s, step))
  {
    HeapStep(s, step);
    AllLatestGrows(s, After(s, step));
    ReadsNewest(s, step);
  }

  lemma ReadsNewest(s: State, step: Step)
    requires AllNewest(s) && Enabled(s, step)
    ensures forall r :: r in After(s, step).readers ==> ReadNewest(After(s, step).readers[r])
  {
    match step
    case AtMap(a, m) => MapFrames(s, a, m);
    case Refresh(a, f) => RefreshFrames(s, a, f);
    case Read(r, p) =>
      ReadFrames(s, r, p);
      ReadActs(s, r, p);
  }

  lemma ReadActs(s: State, r: nat, p: ReadStep)
    requires ReadEnabled(s, r, p) && r in AfterRead(s, r, p).readers
    requires r in s.readers ==> ReadNewest(s.readers[r])
    requires r in s.readers && !s.readers[r].Failed? ==> Latest(s, s.readers[r].eid)
    ensures ReadNewest(AfterRead(s, r, p).readers[r])
  {
  }

  lemma {:induction false} AllNewestAlong(t: seq<State>, l: seq<Step>, n: nat)
    requires IsTrace(t, l) && t[0] == START && n < |t| && NeverReuses(t, l)
    ensures AllNewest(t[n])
  {
    if n > 0 {
      AllNewestAlong(t, l, n - 1);
      assert !Reuses(t[n - 1], l[n - 1]);
      AllNewestStep(t[n - 1], l[n - 1]);
    }
  }

  /** Where no directory is taken into use a second time and every HEAD can be read, completed reads are coherent. */
  lemma CoherentWithoutReuse(t: seq<State>, l: seq<Step>, n: nat, r: nat)
    requires IsHistory(t, l) && n < |t| && NeverReuses(t, l) && HeadsKnown(t, l, n)
    requires r in t[n].readers && t[n].readers[r].Done?
    ensures Matches(t[n].readers[r].sha, t[n].readers[r].path, t[n].readers[r].content)
  {
    AllNewestAlong(t, l, n);
    ReadCoherence(t, l, n, r);
  }

  // ---- one read, from its lookup to its end ------------------------------------------------

  /** The step made an entry for the directory. */
  predicate MakesEntry(s: State, t: State, dir: string) {
    |t.heap| > |s.heap| && t.heap[|s.heap|].dir == dir
  }

  /** The read has failed, or works on the entry, which is its directory's latest until the file is read. */
  predicate OnLatest(s: State, r: nat, eid: nat, path: string) {
    && Exists(s, eid) && r in s.readers
    && (s.readers[r].Failed? || (s.readers[r].eid == eid && s.readers[r].path == path))
    && (s.readers[r].Found? || s.readers[r].Reading? ==> Latest(s, eid))
  }

  lemma OnLatestStep(s: State, step: Step, r: nat, eid: nat, path: string)
    requires Inv(s) && Enabled(s, step) && OnLatest(s, r, eid, path)
    requires !MakesEntry(s, After(s, step), s.heap[eid].dir)
    ensures OnLatest(After(s, step), r, eid, path)
  {
    HeapStep(s, step);
    LatestGrows(s, After(s, step), eid);
    if step.Read? && step.r == r {
      ReadKeepsEntry(s, r, step.p);
    } else {
      ReaderOther(s, step, r);
    }
  }

  lemma LatestGrows(s: State, t: State, eid: nat)
    requires HeapGrows(s, t) && Exists(s, eid) && !MakesEntry(s, t, s.heap[eid].dir)
    ensures Latest(s, eid) ==> Latest(t, eid)
  {
  }

  lemma ReadKeepsEntry(s: State, r: nat, p: ReadStep)
    requires ReadEnabled(s, r, p) && r in s.readers
    ensures r in AfterRead(s, r, p).readers
    ensures var q, q' := s.readers[r], AfterRead(s, r, p).readers[r];
      && !q.Failed? && (q'.Failed? || (q'.eid == q.eid && q'.path == q.path))
      && (q'.Found? || q'.Reading? ==> q.Found? || q.Reading?)
  {
  }

  /** Between two states the read goes on with the latest entry, unless a later one is made. */
  predicate GoesOn(s: State, t: State, r: nat, eid: nat, path: string) {
    OnLatest(s, r, eid, path) && !MakesEntry(s, t, s.heap[eid].dir) ==>
      OnLatest(t, r, eid, path) && t.heap[eid].dir == s.heap[eid].dir
  }

  ghost predicate GoesOnAlong(t: seq<State>, r: nat, eid: nat, path: string) {
    forall m :: 0 <= m < |t| - 1 ==> GoesOn(t[m], t[m + 1], r, eid, path)
  }

  lemma TraceGoesOn(t: seq<State>, l: seq<Step>, r: nat, eid: nat, path: string)
    requires IsHistory(t, l)
    ensures GoesOnAlong(t, r, eid, path)
  {
    forall m | 0 <= m < |t| - 1 ensures GoesOn(t[m], t[m + 1], r, eid, path) {
      if OnLatest(t[m], r, eid, path) && !MakesEntry(t[m], t[m + 1], t[m].heap[eid].dir) {
        TraceInv(t, l, m);
        OnLatestStep(t[m], l[m], r, eid, path);
        HeapStep(t[m], l[m]);
      }
    }
  }

  lemma {:induction false} OnLatestAlong(t: seq<State>, i: nat, j: nat, r: nat, eid: nat, path: string)
    requires GoesOnAlong(t, r, eid, path) && i <= j < |t| && OnLatest(t[i], r, eid, path)
    requires forall m :: i <= m < j ==> !MakesEntry(t[m], t[m + 1], t[i].heap[eid].dir)
    ensures OnLatest(t[j], r, eid, path) && t[j].heap[eid].dir == t[i].heap[eid].dir
    decreases j
  {
    if i < j {
      OnLatestAlong(t, i, j - 1, r, eid, path);
      assert GoesOn(t[j - 1], t[j - 1 + 1], r, eid, path);
      assert !MakesEntry(t[j - 1], t[j - 1 + 1], t[i].heap[eid].dir);
    }
  }

  /**
   The read has read its file through its directory's latest entry: from the commit `source`,
   while `sha` was published.
   */
  predicate ReadFresh(s: State, r: nat, path: string, source: Option<string>, sha: Option<string>) {
    && r in s.readers
    && match s.readers[r]
       case HasContent(_, p, eid, _, from, newest) =>
         newest && p == path && from == source && Exists(s, eid) && s.heap[eid].sha == sha
       case Done(_, p, _, _, returned, from, newest) => newest && p == path && from == source && returned == sha
       case _ => false
  }

  lemma ReadFreshStep(s: State, step: Step, r: nat, path: string, source: Option<string>, sha: Option<string>)
    requires LocksOk(s) && Enabled(s, step) && ReadFresh(s, r, path, source, sha)
    ensures ReadFresh(After(s, step), r, path, source, sha)
  {
    if !(step.Read? && step.r == r) {
      ReaderOther(s, step, r);
      if s.readers[r].HasContent? {
        ShaKept(s, step, r, s.readers[r].eid);
      }
    }
  }

  lemma {:induction false} ReadFreshAlong(
    t: seq<State>, l: seq<Step>, j: nat, n: nat, r: nat, path: string, source: Option<string>, sha: Option<string>)
    requires IsTrace(t, l) && t[0] == START && j <= n < |t| && ReadFresh(t[j], r, path, source, sha)
    ensures ReadFresh(t[n], r, path, source, sha)
    decreases n
  {
    if j < n {
      ReadFreshAlong(t, l, j, n - 1, r, path, source, sha);
      TraceLocks(t, l, n - 1);
      ReadFreshStep(t[n - 1], l[n - 1], r, path, source, sha);
    }
  }

  predicate StaysFailed(s: State, t: State, r: nat) {
    r in s.readers && s.readers[r].Failed? ==> r in t.readers && t.readers[r].Failed?
  }

  ghost predicate StaysFailedAlong(t: seq<State>, r: nat) {
    forall m :: 0 <= m < |t| - 1 ==> StaysFailed(t[m], t[m + 1], r)
  }

  lemma TraceStaysFailed(t: seq<State>, l: seq<Step>, r: nat)
    requires IsTrace(t, l)
    ensures StaysFailedAlong(t, r)
  {
    forall m | 0 <= m < |t| - 1 ensures StaysFailed(t[m], t[m + 1], r) {
      if r in t[m].readers && t[m].readers[r].Failed? {
        FailedStep(t[m], l[m], r);
      }
    }
  }

  lemma {:induction false} FailedStays(t: seq<State>, j: nat, n: nat, r: nat)
    requires StaysFailedAlong(t, r) && j <= n < |t| && r in t[j].readers && t[j].readers[r].Failed?
    ensures r in t[n].readers && t[n].readers[r].Failed?
    decreases n
  {
    if j < n {
      FailedStays(t, j, n - 1, r);
      assert StaysFailed(t[n - 1], t[n - 1 + 1], r);
    }
  }

  lemma FailedStep(s: State, step: Step, r: nat)
    requires Enabled(s, step) && r in s.readers && s.readers[r].Failed?
    ensures r in After(s, step).readers && After(s, step).readers[r].Failed?
  {
    if !(step.Read? && step.r == r) {
      ReaderOther(s, step, r);
    }
  }

  /**
   Git read coherence over a run. Let a read find its entry at step `i`, read the file at step
   `j` and end at step `n`, and let nobody make a later entry for the directory between `i`
   and `j`; what refreshes, wipes, edits and `Forget` do in between, and anything at all
   between `j` and `n`, is no matter. Then it returns the commit published at `j`, with the
   bytes of the commit that was last brought into the directory. It is coherent if and only if
   the two have the same file at the path, and always if no new clone up to `j` was left
   without a readable HEAD.
   */
  lemma ReadCoherentInRun(t: seq<State>, l: seq<Step>, i: nat, j: nat, n: nat, r: nat, key: ObjectKey, path: string)
    requires IsHistory(t, l) && i < j < n < |l|
    requires l[i] == Read(r, LookUp(key, path)) && l[j] == Read(r, ReadFile) && l[n] == Read(r, ReadSha)
    requires key in t[i].entries && Exists(t[i], t[i].entries[key])
    requires forall m :: i < m < j ==> !MakesEntry(t[m], t[m + 1], t[i].heap[t[i].entries[key]].dir)
    ensures r in t[n + 1].readers && t[n + 1].readers[r].Done? && Exists(t[j], t[i].entries[key])
    ensures var q, e := t[n + 1].readers[r], t[j].heap[t[i].entries[key]];
      && q.path == path && q.sha == e.sha && Matches(e.held, path, q.content)
      && (Matches(q.sha, path, q.content) <==> SameFile(e.sha, e.held, path))
      && (HeadsKnown(t, l, j) ==> Matches(q.sha, path, q.content))
  {
    var eid := t[i].entries[key];
    TraceInv(t, l, i);
    FoundLatest(t[i], key, r, path);
    TraceGoesOn(t, l, r, eid, path);
    OnLatestAlong(t, i + 1, j, r, eid, path);
    TraceInv(t, l, j);
    ReadsHeld(t[j], r, eid, path);
    assert Enabled(t[n], l[n]);
    if t[j + 1].readers[r].Failed? {
      TraceStaysFailed(t, l, r);
      FailedStays(t, j + 1, n, r);
      assert false;
    }
    ReadFreshAlong(t, l, j + 1, n + 1, r, path, t[j].heap[eid].held, t[j].heap[eid].sha);
    TraceInv(t, l, n + 1);
    assert ReaderOk(t[n + 1].readers[r]);
    if HeadsKnown(t, l, j) {
      TraceInStep(t, l, j);
      PublishedIsHeld(t[j], r, eid);
    }
  }

  lemma ReadsHeld(s: State, r: nat, eid: nat, path: string)
    requires Inv(s) && Enabled(s, Read(r, ReadFile)) && OnLatest(s, r, eid, path)
    ensures var t := After(s, Read(r, ReadFile));
      t.readers[r].Failed?
      || (ReadFresh(t, r, path, s.heap[eid].held, s.heap[eid].sha) && s.heap[eid].dir in s.disk)
  {
    assert LockOk(s, eid) && HoldsRead(s, r, eid) && r in s.heap[eid].readers;
  }

  lemma FoundLatest(s: State, key: ObjectKey, r: nat, path: string)
    requires Inv(s) && Enabled(s, Read(r, LookUp(key, path))) && key in s.entries && Exists(s, s.entries[key])
    ensures var t := After(s, Read(r, LookUp(key, path)));
      OnLatest(t, r, s.entries[key], path) && t.heap == s.heap
  {
    assert KeyOk(s, key);
  }
}
