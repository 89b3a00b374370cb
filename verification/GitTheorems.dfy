/** What holds over every trace of the git cache: clone directories, and what a clone leaves. */
module GitTheorems {
  import opened Wrappers
  import opened ObjectEntries
  import opened GitCache
  import opened GitCoherence
  import opened GitHeads

  // ---- traces -----------------------------------------------------------------------------

  /** States `t` joined by steps `l`. */
  ghost predicate IsTrace(t: seq<State>, l: seq<Step>) {
    |t| == |l| + 1 && forall i :: 0 <= i < |l| ==> Enabled(t[i], l[i]) && t[i + 1] == After(t[i], l[i])
  }

  /** A trace from the start in which a directory is asked for only while nobody else uses it. */
  ghost predicate IsHistory(t: seq<State>, l: seq<Step>) {
    IsTrace(t, l) && t[0] == START && forall i :: 0 <= i < |l| ==> Free(t[i], l[i])
  }

  /** Before state `n`, HEAD of every new clone can be read (or is the commit published before). */
  ghost predicate HeadsKnown(t: seq<State>, l: seq<Step>, n: nat)
    requires IsTrace(t, l) && n < |t|
  {
    forall i :: 0 <= i < n ==> HeadKnown(t[i], l[i])
  }

  lemma StartInv()
    ensures Inv(START)
  {
    forall k ensures InPlace(START, k) && HolderOk(START, k) && KeyOk(START, k) {
    }
    forall d ensures DirOk(START, d) {
    }
  }

  lemma {:induction false} TraceLocks(t: seq<State>, l: seq<Step>, n: nat)
    requires IsTrace(t, l) && t[0] == START && n < |t|
    ensures LocksOk(t[n])
  {
    if n == 0 {
      StartInv();
    } else {
      TraceLocks(t, l, n - 1);
      LocksStep(t[n - 1], l[n - 1]);
    }
  }

  lemma {:induction false} TraceInv(t: seq<State>, l: seq<Step>, n: nat)
    requires IsHistory(t, l) && n < |t|
    ensures Inv(t[n])
  {
    if n == 0 {
      StartInv();
    } else {
      TraceInv(t, l, n - 1);
      InvStep(t[n - 1], l[n - 1]);
    }
  }

  lemma {:induction false} TraceInStep(t: seq<State>, l: seq<Step>, n: nat)
    requires IsHistory(t, l) && n < |t| && HeadsKnown(t, l, n)
    ensures AllInStep(t[n])
  {
    if n > 0 {
      TraceInStep(t, l, n - 1);
      TraceInv(t, l, n - 1);
      forall k ensures KeyInStep(t[n], k) {
        InStepStep(t[n - 1], l[n - 1], k);
      }
    }
  }

  // ---- clone directories ------------------------------------------------------------------

  /** Two bodies of `EnsureCloned` for one directory never overlap, whoever shares the directory. */
  lemma CloneMutualExclusion(t: seq<State>, l: seq<Step>, n: nat, k: ObjectKey, m: ObjectKey)
    requires IsTrace(t, l) && t[0] == START && n < |t|
    requires HoldsMutex(WriterOf(t[n], k)) && HoldsMutex(WriterOf(t[n], m))
    requires Exists(t[n], WriterOf(t[n], k).eid) && Exists(t[n], WriterOf(t[n], m).eid)
    requires t[n].heap[WriterOf(t[n], k).eid].dir == t[n].heap[WriterOf(t[n], m).eid].dir
    ensures k == m
  {
    TraceLocks(t, l, n);
    assert HolderOk(t[n], k) && HolderOk(t[n], m);
  }

  /** One key holds the directory, through a live entry or a removal but not both, and no other key does. */
  ghost predicate HeldByOne(s: State, dir: string) {
    exists k :: OnlyHolder(s, k, dir)
  }

  ghost predicate OnlyHolder(s: State, k: ObjectKey, dir: string) {
    && Holds(s, k, dir) && !(LiveEntry(s, k, dir) && BeingRemoved(s, k, dir))
    && forall m :: Holds(s, m, dir) ==> m == k
  }

  /**
   Conservation of clone directories. In every reachable state a directory on disk belongs
   either to exactly one live entry or to exactly one removal under way, never to both and
   never to nobody; and no two keys ever use one directory, however often it changes hands.
   */
  lemma DirectoryConservation(t: seq<State>, l: seq<Step>, n: nat, dir: string)
    requires IsHistory(t, l) && n < |t|
    ensures Apart(t[n]) && (dir in t[n].disk ==> HeldByOne(t[n], dir))
  {
    TraceInv(t, l, n);
    if dir in t[n].disk {
      assert DirOk(t[n], dir);
      var k :| Holds(t[n], k, dir);
      OneHolder(t[n], k, dir);
    }
  }

  lemma OneHolder(s: State, k: ObjectKey, dir: string)
    requires Apart(s) && InPlace(s, k) && Holds(s, k, dir)
    ensures OnlyHolder(s, k, dir)
  {
    assert Uses(s, k, dir);
    forall m | Holds(s, m, dir) ensures m == k {
      assert Uses(s, m, dir);
    }
  }

  /**
   Where conservation ends. One step keeps the keys' directories apart if and only if it does
   not ask for a directory that another key uses: as its live one, as the one it waits for,
   or as one whose removal is still under way.
   */
  lemma ConservationExact(s: State, step: Step)
    requires LocksOk(s) && Apart(s) && Enabled(s, step)
    ensures Apart(After(s, step)) <==> Free(s, step)
  {
    if Free(s, step) {
      DistinctStep(s, step);
    } else {
      var m :| Uses(s, m, step.m.dir) && m != step.k;
      assert InPlace(s, step.k);
      AskedAnyway(s, step.k, step.m.dir, m);
    }
  }

  lemma AskedAnyway(s: State, k: ObjectKey, dir: string, m: ObjectKey)
    requires MapEnabled(s, k, Begin(dir)) && Uses(s, m, dir) && m != k
    ensures Uses(AfterBegin(s, k, dir), k, dir) && Uses(AfterBegin(s, k, dir), m, dir)
  {
    BeginFrames(s, k, dir);
    StillUses(s, AfterBegin(s, k, dir), k, m, dir);
    BeginUses(s, k, dir);
  }

  lemma BeginUses(s: State, k: ObjectKey, dir: string)
    requires MapEnabled(s, k, Begin(dir))
    ensures Uses(AfterBegin(s, k, dir), k, dir)
  {
  }

  lemma StillUses(s: State, t: State, k: ObjectKey, m: ObjectKey, dir: string)
    requires MapFrame(s, t, k) && Uses(s, m, dir) && m != k
    ensures Uses(t, m, dir)
  {
  }

  /** Inside the body of `EnsureCloned`, with what the directory held when the body began. */
  predicate InBody(s: State, k: ObjectKey, eid: nat, before: Option<Files>) {
    HoldsMutex(WriterOf(s, k)) && WriterOf(s, k).eid == eid && WriterOf(s, k).before == before
  }

  lemma BodyStep(s: State, step: Step, k: ObjectKey, eid: nat, before: Option<Files>)
    requires Enabled(s, step) && InBody(s, k, eid, before) && step != Refresh(k, Leave)
    ensures InBody(After(s, step), k, eid, before)
  {
    if !step.By(k) {
      WriterStays(s, step, k);
    } else if step.Refresh? {
      BodyRefresh(s, k, step.f, eid, before);
    }
  }

  lemma BodyRefresh(s: State, k: ObjectKey, f: RefreshStep, eid: nat, before: Option<Files>)
    requires RefreshEnabled(s, k, f) && InBody(s, k, eid, before) && !f.Leave?
    ensures InBody(AfterRefresh(s, k, f), k, eid, before)
  {
  }

  lemma WriterStays(s: State, step: Step, k: ObjectKey)
    requires Enabled(s, step) && !step.By(k)
    ensures WriterOf(After(s, step), k) == WriterOf(s, k)
  {
    match step
    case AtMap(a, m) => MapFrames(s, a, m);
    case Refresh(a, f) => RefreshFrames(s, a, f);
    case Read(r, p) => ReadFrames(s, r, p);
  }

  lemma {:induction false} BodyKeepsStart(t: seq<State>, l: seq<Step>, i: nat, n: nat, k: ObjectKey)
    requires IsTrace(t, l) && i < n < |t| && l[i] == Refresh(k, Enter)
    requires forall m :: i < m < n ==> l[m] != Refresh(k, Leave)
    ensures Exists(t[i], WriterOf(t[i], k).eid)
    ensures var eid := WriterOf(t[i], k).eid;
      InBody(t[n], k, eid, OnDisk(t[i], t[i].heap[eid].dir))
  {
    var eid := WriterOf(t[i], k).eid;
    if n > i + 1 {
      BodyKeepsStart(t, l, i, n - 1, k);
      BodyStep(t[n - 1], l[n - 1], k, eid, OnDisk(t[i], t[i].heap[eid].dir));
    }
  }

  /** Between steps `i` and `n` the key made a new clone whose HEAD could not be read, and it is still there. */
  ghost predicate LeftHeadless(l: seq<Step>, i: nat, n: nat, k: ObjectKey, files: Option<Files>) {
    exists m :: i < m < n <= |l| && ClonedHeadless(l[m], k, files)
  }

  predicate ClonedHeadless(step: Step, k: ObjectKey, files: Option<Files>) {
    step.Refresh? && step.k == k && step.f.CloneHeadless? && files == Some(Tree(step.f.sha))
  }

  /** A body that is leaving without a commit leaves no directory, what it found, or a clone without a HEAD. */
  ghost predicate LeavesOnError(s: State, l: seq<Step>, i: nat, n: nat, k: ObjectKey, dir: string) {
    var w := WriterOf(s, k);
    w.Leaving? && w.result.None? ==>
      OnDisk(s, dir) == None || OnDisk(s, dir) == w.before || LeftHeadless(l, i, n, k, OnDisk(s, dir))
  }

  lemma BodyLeaves(s: State, l: seq<Step>, i: nat, n: nat, k: ObjectKey, eid: nat, before: Option<Files>)
    requires Inv(s) && i < n < |l| && Enabled(s, l[n]) && Free(s, l[n]) && l[n] != Refresh(k, Leave)
    requires InBody(s, k, eid, before) && Exists(s, eid) && LeavesOnError(s, l, i, n, k, s.heap[eid].dir)
    ensures LeavesOnError(After(s, l[n]), l, i, n + 1, k, s.heap[eid].dir)
  {
    var t, dir := After(s, l[n]), s.heap[eid].dir;
    assert KeyOk(s, k) && InPlace(s, k);
    if l[n].By(k) {
      assert l[n].Refresh?;
      if l[n].f.CloneHeadless? {
        assert ClonedHeadless(l[n], k, OnDisk(t, dir));
      } else {
        OwnLeaves(s, l[n].f, k, eid);
      }
    } else {
      OtherSame(s, l[n], k);
      WorksInOwn(s, k);
      if LeftHeadless(l, i, n, k, OnDisk(s, dir)) {
        var m :| i < m < n && ClonedHeadless(l[m], k, OnDisk(s, dir));
        assert ClonedHeadless(l[m], k, OnDisk(t, dir));
      }
    }
  }

  lemma OwnLeaves(s: State, f: RefreshStep, k: ObjectKey, eid: nat)
    requires RefreshEnabled(s, k, f) && KeyOk(s, k) && InPlace(s, k) && !f.CloneHeadless? && !f.Leave?
    requires HoldsMutex(WriterOf(s, k)) && WriterOf(s, k).eid == eid && Exists(s, eid)
    ensures var w, files := WriterOf(AfterRefresh(s, k, f), k), OnDisk(AfterRefresh(s, k, f), s.heap[eid].dir);
      w.Leaving? && w.result.None? ==> files == None || files == w.before
  {
  }

  lemma {:induction false} BodyLeavesAlong(t: seq<State>, l: seq<Step>, i: nat, n: nat, k: ObjectKey)
    requires IsHistory(t, l) && i < n < |t| && l[i] == Refresh(k, Enter)
    requires forall m :: i < m < n ==> l[m] != Refresh(k, Leave)
    ensures Exists(t[i], WriterOf(t[i], k).eid)
    ensures LeavesOnError(t[n], l, i, n, k, t[i].heap[WriterOf(t[i], k).eid].dir)
  {
    if n > i + 1 {
      BodyLeavesAlong(t, l, i, n - 1, k);
      BodyLeavesNext(t, l, i, n - 1, k);
    }
  }

  lemma BodyLeavesNext(t: seq<State>, l: seq<Step>, i: nat, n: nat, k: ObjectKey)
    requires IsHistory(t, l) && i < n < |l| && l[i] == Refresh(k, Enter)
    requires forall m :: i < m <= n ==> l[m] != Refresh(k, Leave)
    requires Exists(t[i], WriterOf(t[i], k).eid)
    requires LeavesOnError(t[n], l, i, n, k, t[i].heap[WriterOf(t[i], k).eid].dir)
    ensures LeavesOnError(t[n + 1], l, i, n + 1, k, t[i].heap[WriterOf(t[i], k).eid].dir)
  {
    var eid := WriterOf(t[i], k).eid;
    BodyKeepsStart(t, l, i, n, k);
    TraceInv(t, l, n);
    TraceGrows(t, l);
    DirsNeverChange(t, i, n, eid);
    BodyLeaves(t[n], l, i, n, k, eid, OnDisk(t[i], t[i].heap[eid].dir));
  }

  /**
   What `EnsureCloned` leaves. If its body ran from step `i` to step `j`, then on success the
   directory holds exactly the tree of the commit it returns, and on error the directory is
   absent, holds what it held at step `i`, or holds a clone that the body made and whose HEAD
   could not be read, whatever other keys and readers did meanwhile.
   */
  lemma EnsureClonedOutcome(t: seq<State>, l: seq<Step>, i: nat, j: nat, k: ObjectKey)
    requires IsHistory(t, l) && i < j < |l| && l[i] == Refresh(k, Enter) && l[j] == Refresh(k, Leave)
    requires forall m :: i < m < j ==> l[m] != Refresh(k, Leave)
    ensures WriterOf(t[j], k).Leaving? && Exists(t[j], WriterOf(t[j], k).eid) && Exists(t[i], WriterOf(t[j], k).eid)
    ensures var w := WriterOf(t[j], k);
      var dir := t[i].heap[w.eid].dir;
      && t[j].heap[w.eid].dir == dir
      && (w.result.Some? ==> OnDisk(t[j], dir) == Some(Tree(w.result.value)))
      && (w.result.None? ==>
          || OnDisk(t[j], dir) == None || OnDisk(t[j], dir) == OnDisk(t[i], dir)
          || LeftHeadless(l, i, j, k, OnDisk(t[j], dir)))
  {
    TraceInv(t, l, j);
    BodyKeepsStart(t, l, i, j, k);
    BodyLeavesAlong(t, l, i, j, k);
    TraceGrows(t, l);
    DirsNeverChange(t, i, j, WriterOf(t[j], k).eid);
    assert KeyOk(t[j], k) && InPlace(t[j], k);
  }

  /** Entries are only added, and keep their directories. */
  ghost predicate HeapGrows(s: State, t: State) {
    && (forall e: nat :: Exists(s, e) ==> Exists(t, e) && t.heap[e].dir == s.heap[e].dir)
    && if |t.heap| == |s.heap| then t.latest == s.latest
       else |t.heap| == |s.heap| + 1 && t.latest == s.latest[t.heap[|s.heap|].dir := |s.heap|]
  }

  lemma HeapStep(s: State, step: Step)
    requires Enabled(s, step)
    ensures HeapGrows(s, After(s, step))
  {
    match step
    case AtMap(a, m) => MapFrames(s, a, m);
    case Refresh(a, f) => RefreshFrames(s, a, f);
    case Read(r, p) => ReadFrames(s, r, p);
  }

  ghost predicate GrowsAlong(t: seq<State>) {
    forall n :: 0 <= n < |t| - 1 ==> HeapGrows(t[n], t[n + 1])
  }

  lemma TraceGrows(t: seq<State>, l: seq<Step>)
    requires IsTrace(t, l)
    ensures GrowsAlong(t)
  {
    forall n | 0 <= n < |t| - 1 ensures HeapGrows(t[n], t[n + 1]) {
      HeapStep(t[n], l[n]);
    }
  }

  lemma {:induction false} DirsNeverChange(t: seq<State>, i: nat, n: nat, eid: nat)
    requires GrowsAlong(t) && i <= n < |t| && Exists(t[i], eid)
    ensures Exists(t[n], eid) && t[n].heap[eid].dir == t[i].heap[eid].dir
    decreases n
  {
    if i < n {
      DirsNeverChange(t, i, n - 1, eid);
      assert HeapGrows(t[n - 1], t[n - 1 + 1]);
    }
  }

  // ---- runs put together -------------------------------------------------------------------

  lemma Joined(t: seq<State>, l: seq<Step>, u: seq<State>, m: seq<Step>)
    requires IsTrace(t, l) && IsTrace(u, m) && t[|l|] == u[0]
    ensures IsTrace(t + u[1..], l + m)
  {
    var all, steps := t + u[1..], l + m;
    forall i | 0 <= i < |steps| ensures Enabled(all[i], steps[i]) && all[i + 1] == After(all[i], steps[i]) {
      if i < |l| {
        assert all[i] == t[i] && all[i + 1] == t[i + 1] && steps[i] == l[i];
      } else {
        var j := i - |l|;
        assert all[i] == u[j] && all[i + 1] == u[j + 1] && steps[i] == m[j];
      }
    }
  }

  /** A run, known by its first and its last state. */
  ghost predicate Leads(s: State, l: seq<Step>, t: State) {
    exists trace :: IsRun(trace, s, l, t)
  }

  ghost predicate IsRun(trace: seq<State>, s: State, l: seq<Step>, t: State) {
    IsTrace(trace, l) && trace[0] == s && trace[|l|] == t
  }

  lemma RunsJoin(x: seq<State>, s: State, l: seq<Step>, t: State, y: seq<State>, m: seq<Step>, u: State)
    requires IsRun(x, s, l, t) && IsRun(y, t, m, u)
    ensures IsRun(x + y[1..], s, l + m, u)
  {
    Joined(x, l, y, m);
  }

  lemma Follows(s: State, l: seq<Step>, t: State, m: seq<Step>, u: State)
    requires Leads(s, l, t) && Leads(t, m, u)
    ensures Leads(s, l + m, u)
  {
    var x :| IsRun(x, s, l, t);
    var y :| IsRun(y, t, m, u);
    RunsJoin(x, s, l, t, y, m, u);
  }

  lemma OneStep(s: State, a: Step, t: State)
    requires Enabled(s, a) && t == After(s, a)
    ensures Leads(s, [a], t)
  {
    assert IsRun([s, t], s, [a], t);
  }

  lemma TwoSteps(s: State, a: Step, t: State, b: Step, u: State)
    requires Enabled(s, a) && t == After(s, a) && Enabled(t, b) && u == After(t, b)
    ensures Leads(s, [a, b], u)
  {
    assert IsRun([s, t, u], s, [a, b], u);
  }
}
