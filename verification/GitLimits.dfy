/** Runs from the start that show where the guarantees of the git cache end. */
module GitLimits {
  import opened Wrappers
  import opened ObjectEntries
  import opened GitCache
  import opened GitCoherence
  import opened GitTheorems
  import opened GitReads

  // ---- building blocks ---------------------------------------------------------------------

  /** A first refresh of a key, in a directory that is not there yet. */
  function CloneRun(k: ObjectKey, dir: string, h: string): seq<Step> {
    [AtMap(k, Begin(dir)), Refresh(k, Acquire)] + [Refresh(k, Enter), Refresh(k, Inspect)]
    + [Refresh(k, CloneOk(h)), Refresh(k, Leave)] + [Refresh(k, Release)]
  }

  /** Idle, with room to make a new entry. */
  predicate Vacancy(s: State, k: ObjectKey, dir: string) {
    WriterOf(s, k).Idle? && s.mu.None? && k !in s.entries && dir !in s.disk && dir !in s.mutexes
  }

  /** The key's writer is at `w`, in the directory of the newest entry; everything else is as in `s`. */
  ghost predicate Working(s: State, t: State, k: ObjectKey, e: Entry, w: Writer) {
    && WriterOf(t, k) == w && t.heap == s.heap + [e] && t.readers == s.readers && t.mu.None?
    && k in t.entries && t.entries[k] == |s.heap|
    && forall m :: m != k ==> WriterOf(t, m) == WriterOf(s, m) && (m in t.entries <==> m in s.entries)
  }

  lemma StartsClone(s: State, k: ObjectKey, dir: string) returns (t: State)
    requires Vacancy(s, k, dir)
    ensures Leads(s, [AtMap(k, Begin(dir)), Refresh(k, Acquire)], t)
    ensures Working(s, t, k, Entry(dir, None, None, Some(k), {}), Locked(|s.heap|)) && t.disk == s.disk
      && t.mutexes == s.mutexes
  {
    var s1 := After(s, AtMap(k, Begin(dir)));
    assert WriterOf(s1, k) == Installed(|s.heap|);
    t := After(s1, Refresh(k, Acquire));
    assert t.heap == s.heap + [Entry(dir, None, None, Some(k), {})];
    TwoSteps(s, AtMap(k, Begin(dir)), s1, Refresh(k, Acquire), t);
  }

  lemma InspectsNothing(s: State, t: State, k: ObjectKey, dir: string) returns (u: State)
    requires Working(s, t, k, Entry(dir, None, None, Some(k), {}), Locked(|s.heap|)) && dir !in t.disk
      && dir !in t.mutexes
    ensures Leads(t, [Refresh(k, Enter), Refresh(k, Inspect)], u)
    ensures Working(s, u, k, Entry(dir, None, None, Some(k), {}), Cloning(|s.heap|, None))
    ensures u.disk == t.disk && u.mutexes == t.mutexes[dir := k]
  {
    var t1 := After(t, Refresh(k, Enter));
    assert WriterOf(t1, k) == Inside(|s.heap|, None);
    u := After(t1, Refresh(k, Inspect));
    TwoSteps(t, Refresh(k, Enter), t1, Refresh(k, Inspect), u);
  }

  lemma ClonesAndLeaves(s: State, t: State, k: ObjectKey, dir: string, h: string) returns (u: State)
    requires Working(s, t, k, Entry(dir, None, None, Some(k), {}), Cloning(|s.heap|, None))
    ensures Leads(t, [Refresh(k, CloneOk(h)), Refresh(k, Leave)], u)
    ensures Working(s, u, k, Entry(dir, None, Some(h), Some(k), {}), Publishing(|s.heap|, Some(h)))
    ensures u.disk == t.disk[dir := Tree(h)] && u.mutexes == t.mutexes - {dir}
  {
    var t1 := After(t, Refresh(k, CloneOk(h)));
    assert WriterOf(t1, k) == Leaving(|s.heap|, None, Some(h));
    u := After(t1, Refresh(k, Leave));
    TwoSteps(t, Refresh(k, CloneOk(h)), t1, Refresh(k, Leave), u);
  }

  lemma Publishes(s: State, t: State, k: ObjectKey, dir: string, h: string) returns (u: State)
    requires Working(s, t, k, Entry(dir, None, Some(h), Some(k), {}), Publishing(|s.heap|, Some(h)))
    ensures Leads(t, [Refresh(k, Release)], u)
    ensures Working(s, u, k, Entry(dir, Some(h), Some(h), None, {}), Idle) && u.disk == t.disk && u.mutexes == t.mutexes
  {
    u := After(t, Refresh(k, Release));
    OneStep(t, Refresh(k, Release), u);
    assert u.heap == s.heap + [Entry(dir, Some(h), Some(h), None, {})];
  }

  /** The key has cloned the commit in the directory, and nothing else has changed. */
  lemma FirstClone(s: State, k: ObjectKey, dir: string, h: string) returns (t: State)
    requires Vacancy(s, k, dir)
    ensures Leads(s, CloneRun(k, dir, h), t)
    ensures Working(s, t, k, Entry(dir, Some(h), Some(h), None, {}), Idle)
    ensures t.disk == s.disk[dir := Tree(h)] && t.mutexes == s.mutexes
  {
    var a := StartsClone(s, k, dir);
    var b := InspectsNothing(s, a, k, dir);
    var c := ClonesAndLeaves(s, b, k, dir, h);
    t := Publishes(s, c, k, dir, h);
    var l1, l2 := [AtMap(k, Begin(dir)), Refresh(k, Acquire)], [Refresh(k, Enter), Refresh(k, Inspect)];
    var l3, l4 := [Refresh(k, CloneOk(h)), Refresh(k, Leave)], [Refresh(k, Release)];
    Follows(s, l1, a, l2, b);
    Follows(s, l1 + l2, b, l3, c);
    Follows(s, l1 + l2 + l3, c, l4, t);
    assert s.mutexes[dir := k] - {dir} == s.mutexes;
  }

  /** A read finds the key's entry and takes its read lock. */
  lemma ReadBegins(s: State, k: ObjectKey, r: nat, path: string) returns (t: State)
    requires s.mu.None? && r !in s.readers && k in s.entries && Exists(s, s.entries[k])
    requires s.heap[s.entries[k]].writer.None?
    ensures Leads(s, [Read(r, LookUp(k, path)), Read(r, AcquireRead)], t)
    ensures t.readers == s.readers[r := Reading(k, path, s.entries[k])] && |t.heap| == |s.heap|
    ensures forall e: nat :: Exists(s, e) ==> t.heap[e] == s.heap[e].(readers := t.heap[e].readers)
    ensures t.disk == s.disk && t.mutexes == s.mutexes && t.mu == s.mu && t.entries == s.entries
      && t.writers == s.writers
  {
    var s1 := After(s, Read(r, LookUp(k, path)));
    t := After(s1, Read(r, AcquireRead));
    TwoSteps(s, Read(r, LookUp(k, path)), s1, Read(r, AcquireRead), t);
  }

  /** It reads the file in the directory, whatever put it there, and the commit of the entry. */
  lemma ReadEnds(s: State, r: nat) returns (t: State)
    requires r in s.readers && s.readers[r].Reading? && Exists(s, s.readers[r].eid)
    requires s.heap[s.readers[r].eid].dir in s.disk && s.readers[r].path in s.disk[s.heap[s.readers[r].eid].dir]
    ensures Leads(s, [Read(r, ReadFile), Read(r, ReadSha)], t)
    ensures r in t.readers && t.readers[r].Done?
    ensures var q, e := t.readers[r], s.heap[s.readers[r].eid];
      q.path == s.readers[r].path && q.content == s.disk[e.dir][q.path] && q.sha == e.sha
  {
    var s1 := After(s, Read(r, ReadFile));
    assert s1.readers[r].HasContent? && s1.heap == s.heap;
    t := After(s1, Read(r, ReadSha));
    TwoSteps(s, Read(r, ReadFile), s1, Read(r, ReadSha), t);
  }

  lemma Forgotten(s: State, k: ObjectKey) returns (t: State)
    requires WriterOf(s, k).Idle? && s.mu.None? && k in s.entries && Exists(s, s.entries[k])
    ensures Leads(s, [AtMap(k, Forget), AtMap(k, RemoveDone)], t)
    ensures WriterOf(t, k) == Idle && t.entries == s.entries - {k}
    ensures t.disk == s.disk - {s.heap[s.entries[k]].dir}
    ensures t.readers == s.readers && t.heap == s.heap && t.mu == s.mu && t.mutexes == s.mutexes
    ensures forall m :: m != k ==> WriterOf(t, m) == WriterOf(s, m)
  {
    var s1 := After(s, AtMap(k, Forget));
    assert WriterOf(s1, k) == Removing(s.entries[k]);
    t := After(s1, AtMap(k, RemoveDone));
    TwoSteps(s, AtMap(k, Forget), s1, AtMap(k, RemoveDone), t);
  }

  // ---- the torn read -----------------------------------------------------------------------

  /** A GitRepository is deleted and recreated between a reader's lock and its reading. */
  function TornRun(k: ObjectKey, r: nat, dir: string, h: string): seq<Step> {
    [AtMap(k, Forget), AtMap(k, RemoveDone)] + CloneRun(k, dir, h) + [Read(r, ReadFile), Read(r, ReadSha)]
  }

  /**
   Deleting and recreating a GitRepository while a read is under way: the reader still holds
   the forgotten entry's lock, which no longer guards the directory, so it returns the commit
   of the old entry with the file of the new clone. It is coherent if and only if both
   commits have the same file at that path.
   */
  lemma ForgetTearsRead(s: State, k: ObjectKey, r: nat, h: string) returns (t: State)
    requires WriterOf(s, k).Idle? && s.mu.None? && k in s.entries && Exists(s, s.entries[k])
    requires r in s.readers && s.readers[r].Reading? && s.readers[r].eid == s.entries[k] && s.readers[r].path in Tree(h)
    requires s.heap[s.entries[k]].dir !in s.mutexes
    ensures Leads(s, TornRun(k, r, s.heap[s.entries[k]].dir, h), t)
    ensures r in t.readers && t.readers[r].Done?
    ensures var q := t.readers[r];
      && q.sha == s.heap[s.entries[k]].sha && q.path == s.readers[r].path && q.content == Tree(h)[q.path]
      && (Matches(q.sha, q.path, q.content) <==> SameFile(q.sha, Some(h), q.path))
  {
    var eid, dir := s.entries[k], s.heap[s.entries[k]].dir;
    var gone := Forgotten(s, k);
    var back := FirstClone(gone, k, dir, h);
    assert back.heap[eid] == s.heap[eid];
    t := ReadEnds(back, r);
    var forget := [AtMap(k, Forget), AtMap(k, RemoveDone)];
    Follows(s, forget, gone, CloneRun(k, dir, h), back);
    Follows(s, forget + CloneRun(k, dir, h), back, [Read(r, ReadFile), Read(r, ReadSha)], t);
  }

  function TornFromStart(k: ObjectKey, r: nat, dir: string, path: string, h0: string, h1: string): seq<Step> {
    CloneRun(k, dir, h0) + [Read(r, LookUp(k, path)), Read(r, AcquireRead)] + TornRun(k, r, dir, h1)
  }

  /** The read has the path, and its bytes are not those of the commit it returned. */
  predicate Incoherent(s: State, r: nat, path: string) {
    r in s.readers && s.readers[r].Done? && s.readers[r].path == path
    && !Matches(s.readers[r].sha, path, s.readers[r].content)
  }

  /**
   A torn read from the start, in a history in which nobody shares a directory: clone one
   commit, begin a read, forget, clone another commit, end the read. It is incoherent for any
   two commits that differ at the path.
   */
  lemma TornReadHappens(k: ObjectKey, r: nat, dir: string, path: string, h0: string, h1: string)
    returns (trace: seq<State>)
    requires path in Tree(h1) && (path in Tree(h0) ==> Tree(h0)[path] != Tree(h1)[path])
    ensures var l := TornFromStart(k, r, dir, path, h0, h1);
      IsHistory(trace, l) && HeadsKnown(trace, l, |l|)
    ensures Incoherent(trace[|trace| - 1], r, path)
  {
    var a := FirstClone(START, k, dir, h0);
    var b := ReadBegins(a, k, r, path);
    var t := ForgetTearsRead(b, k, r, h1);
    var l1, l2 := CloneRun(k, dir, h0), [Read(r, LookUp(k, path)), Read(r, AcquireRead)];
    Follows(START, l1, a, l2, b);
    Follows(START, l1 + l2, b, TornRun(k, r, dir, h1), t);
    var l := TornFromStart(k, r, dir, path, h0, h1);
    trace :| IsRun(trace, START, l, t);
    TornRunLonely(k, r, dir, path, h0, h1);
    AloneHistory(trace, l, k);
  }

  lemma TornRunLonely(k: ObjectKey, r: nat, dir: string, path: string, h0: string, h1: string)
    ensures var l := TornFromStart(k, r, dir, path, h0, h1);
      AllLonely(l, k) && forall step :: step in l && step.Refresh? ==> !step.f.CloneHeadless?
  {
  }

  /** A step of the key's own writer, or of a reader. */
  predicate Lonely(step: Step, k: ObjectKey) {
    step.Read? || step.k == k
  }

  predicate AllLonely(l: seq<Step>, k: ObjectKey) {
    forall step :: step in l ==> Lonely(step, k)
  }

  ghost predicate Alone(s: State, k: ObjectKey) {
    forall m :: m != k ==> WriterOf(s, m).Idle? && m !in s.entries
  }

  lemma AloneStep(s: State, step: Step, k: ObjectKey)
    requires Alone(s, k) && Enabled(s, step) && Lonely(step, k)
    ensures Alone(After(s, step), k) && Free(s, step)
  {
    match step {
      case AtMap(a, m) => MapFrames(s, a, m);
      case Refresh(a, f) => RefreshFrames(s, a, f);
      case Read(r, p) => ReadFrames(s, r, p);
    }
    var t := After(s, step);
    forall m | m != k ensures WriterOf(t, m).Idle? && m !in t.entries {
      assert WriterOf(s, m).Idle? && m !in s.entries;
      assert WriterOf(t, m) == WriterOf(s, m);
    }
  }

  lemma {:induction false} AloneAlong(t: seq<State>, l: seq<Step>, k: ObjectKey, n: nat)
    requires IsTrace(t, l) && t[0] == START && n < |t| && AllLonely(l, k)
    ensures Alone(t[n], k)
  {
    if n > 0 {
      AloneAlong(t, l, k, n - 1);
      AloneStep(t[n - 1], l[n - 1], k);
    }
  }

  lemma AloneHistory(t: seq<State>, l: seq<Step>, k: ObjectKey)
    requires IsTrace(t, l) && t[0] == START && AllLonely(l, k)
    ensures IsHistory(t, l)
  {
    forall i | 0 <= i < |l| ensures Free(t[i], l[i]) {
      AloneAlong(t, l, k, i);
      AloneStep(t[i], l[i], k);
    }
  }

  // ---- a directory taken too early -----------------------------------------------------------

  function TakenTooEarly(k: ObjectKey, m: ObjectKey, dir: string, h: string): seq<Step> {
    CloneRun(k, dir, h) + [AtMap(k, Forget), AtMap(m, Begin(dir))]
  }

  /**
   A directory asked for while the removal of it is under way belongs to both: to the entry
   just made and to the removal, which will delete it under the new entry.
   */
  lemma RemovalMeetsEntry(k: ObjectKey, m: ObjectKey, dir: string, h: string) returns (t: State)
    requires k != m
    ensures Leads(START, TakenTooEarly(k, m, dir, h), t)
    ensures dir in t.disk && BeingRemoved(t, k, dir) && LiveEntry(t, m, dir) && !HeldByOne(t, dir)
    ensures Enabled(t, AtMap(k, RemoveDone))
    ensures LiveEntry(After(t, AtMap(k, RemoveDone)), m, dir) && dir !in After(t, AtMap(k, RemoveDone)).disk
  {
    var a := FirstClone(START, k, dir, h);
    assert WriterOf(a, m) == WriterOf(START, m) && (m in a.entries <==> m in START.entries);
    t := ForgetMeetsBegin(a, k, m, dir);
    Follows(START, CloneRun(k, dir, h), a, [AtMap(k, Forget), AtMap(m, Begin(dir))], t);
    assert Holds(t, k, dir) && Holds(t, m, dir);
  }

  lemma ForgetMeetsBegin(s: State, k: ObjectKey, m: ObjectKey, dir: string) returns (t: State)
    requires k != m && WriterOf(s, k).Idle? && WriterOf(s, m).Idle? && s.mu.None? && m !in s.entries
    requires LiveEntry(s, k, dir)
    ensures Leads(s, [AtMap(k, Forget), AtMap(m, Begin(dir))], t)
    ensures BeingRemoved(t, k, dir) && LiveEntry(t, m, dir) && t.disk == s.disk
  {
    var s1 := After(s, AtMap(k, Forget));
    assert WriterOf(s1, k) == Removing(s.entries[k]) && WriterOf(s1, m).Idle? && m !in s1.entries;
    t := After(s1, AtMap(m, Begin(dir)));
    assert WriterOf(t, k) == Removing(s.entries[k]);
    TwoSteps(s, AtMap(k, Forget), s1, AtMap(m, Begin(dir)), t);
  }

  // ---- a clone without a readable HEAD -------------------------------------------------------

  /** A refresh whose update fails and whose new clone has no readable HEAD. */
  function HeadlessRun(k: ObjectKey, dir: string, h: string): seq<Step> {
    [AtMap(k, Begin(dir)), Refresh(k, Acquire)] + [Refresh(k, Enter), Refresh(k, Inspect)]
    + [Refresh(k, UpdateFails), Refresh(k, CloneHeadless(h))] + [Refresh(k, Leave), Refresh(k, Release)]
  }

  /** The key's only entry, at rest in its directory. */
  predicate Resting(s: State, k: ObjectKey, e: Entry) {
    && WriterOf(s, k).Idle? && s.mu.None? && k in s.entries && s.entries[k] == 0 && s.heap == [e]
    && e.writer.None? && e.readers == {} && e.dir in s.disk && e.dir !in s.mutexes && s.readers == map[]
  }

  /** A refresh of the only entry has got to `w`. */
  predicate AtWork(s: State, k: ObjectKey, e: Entry, w: Writer) {
    WriterOf(s, k) == w && s.mu.None? && k in s.entries && s.entries[k] == 0 && s.heap == [e] && s.readers == map[]
  }

  lemma RefreshBegins(s: State, k: ObjectKey, e: Entry) returns (t: State)
    requires Resting(s, k, e)
    ensures Leads(s, [AtMap(k, Begin(e.dir)), Refresh(k, Acquire)], t)
    ensures AtWork(t, k, e.(writer := Some(k)), Locked(0)) && t.disk == s.disk && t.mutexes == s.mutexes
  {
    var s1 := After(s, AtMap(k, Begin(e.dir)));
    assert WriterOf(s1, k) == Installed(0);
    t := After(s1, Refresh(k, Acquire));
    TwoSteps(s, AtMap(k, Begin(e.dir)), s1, Refresh(k, Acquire), t);
  }

  lemma InspectsClone(s: State, k: ObjectKey, e: Entry) returns (t: State)
    requires AtWork(s, k, e, Locked(0)) && e.dir in s.disk && e.dir !in s.mutexes
    ensures Leads(s, [Refresh(k, Enter), Refresh(k, Inspect)], t)
    ensures AtWork(t, k, e, Updating(0, Some(s.disk[e.dir]))) && t.disk == s.disk && t.mutexes == s.mutexes[e.dir := k]
  {
    var s1 := After(s, Refresh(k, Enter));
    assert WriterOf(s1, k) == Inside(0, Some(s.disk[e.dir]));
    t := After(s1, Refresh(k, Inspect));
    TwoSteps(s, Refresh(k, Enter), s1, Refresh(k, Inspect), t);
  }

  lemma ClonesHeadless(s: State, k: ObjectKey, e: Entry, before: Option<Files>, h: string) returns (t: State)
    requires AtWork(s, k, e, Updating(0, before))
    ensures Leads(s, [Refresh(k, UpdateFails), Refresh(k, CloneHeadless(h))], t)
    ensures AtWork(t, k, e.(held := Some(h)), Leaving(0, before, None))
    ensures OnDisk(t, e.dir) == Some(Tree(h)) && t.mutexes == s.mutexes
  {
    var s1 := After(s, Refresh(k, UpdateFails));
    assert WriterOf(s1, k) == Cloning(0, before);
    t := After(s1, Refresh(k, CloneHeadless(h)));
    TwoSteps(s, Refresh(k, UpdateFails), s1, Refresh(k, CloneHeadless(h)), t);
  }

  lemma EndsInFailure(s: State, k: ObjectKey, e: Entry, before: Option<Files>) returns (t: State)
    requires AtWork(s, k, e, Leaving(0, before, None))
    ensures Leads(s, [Refresh(k, Leave), Refresh(k, Release)], t)
    ensures AtWork(t, k, e.(writer := None), Idle) && t.disk == s.disk
  {
    var s1 := After(s, Refresh(k, Leave));
    assert WriterOf(s1, k) == Publishing(0, None);
    t := After(s1, Refresh(k, Release));
    TwoSteps(s, Refresh(k, Leave), s1, Refresh(k, Release), t);
  }

  lemma HeadlessRefresh(s: State, k: ObjectKey, e: Entry, h: string) returns (t: State)
    requires Resting(s, k, e)
    ensures Leads(s, HeadlessRun(k, e.dir, h), t)
    ensures AtWork(t, k, e.(held := Some(h)), Idle) && OnDisk(t, e.dir) == Some(Tree(h))
  {
    var locked, before := e.(writer := Some(k)), Some(s.disk[e.dir]);
    var a := RefreshBegins(s, k, e);
    var b := InspectsClone(a, k, locked);
    var c := ClonesHeadless(b, k, locked, before, h);
    t := EndsInFailure(c, k, locked.(held := Some(h)), before);
    var l1, l2 := [AtMap(k, Begin(e.dir)), Refresh(k, Acquire)], [Refresh(k, Enter), Refresh(k, Inspect)];
    var l3, l4 := [Refresh(k, UpdateFails), Refresh(k, CloneHeadless(h))], [Refresh(k, Leave), Refresh(k, Release)];
    Follows(s, l1, a, l2, b);
    Follows(s, l1 + l2, b, l3, c);
    Follows(s, l1 + l2 + l3, c, l4, t);
  }

  function HeadlessFromStart(k: ObjectKey, r: nat, dir: string, path: string, h0: string, h1: string): seq<Step> {
    CloneRun(k, dir, h0) + HeadlessRun(k, dir, h1)
    + [Read(r, LookUp(k, path)), Read(r, AcquireRead)] + [Read(r, ReadFile), Read(r, ReadSha)]
  }

  lemma HeadlessLonely(k: ObjectKey, r: nat, dir: string, path: string, h0: string, h1: string)
    ensures AllLonely(HeadlessFromStart(k, r, dir, path, h0, h1), k)
  {
  }

  /**
   A failed refresh that leaves a clone whose HEAD cannot be read, in a history in which nobody
   shares a directory: the next read returns the commit published before with the file of
   that clone.
   */
  lemma HeadlessCloneMisreads(k: ObjectKey, r: nat, dir: string, path: string, h0: string, h1: string)
    returns (trace: seq<State>)
    requires path in Tree(h1) && (path in Tree(h0) ==> Tree(h0)[path] != Tree(h1)[path])
    ensures IsHistory(trace, HeadlessFromStart(k, r, dir, path, h0, h1))
    ensures Incoherent(trace[|trace| - 1], r, path)
  {
    var e := Entry(dir, Some(h0), Some(h0), None, {});
    var a := FirstClone(START, k, dir, h0);
    assert a.heap == [e];
    var b := HeadlessRefresh(a, k, e, h1);
    var c := ReadBegins(b, k, r, path);
    var t := ReadEnds(c, r);
    var l1, l2 := CloneRun(k, dir, h0), HeadlessRun(k, dir, h1);
    var l3, l4 := [Read(r, LookUp(k, path)), Read(r, AcquireRead)], [Read(r, ReadFile), Read(r, ReadSha)];
    Follows(START, l1, a, l2, b);
    Follows(START, l1 + l2, b, l3, c);
    Follows(START, l1 + l2 + l3, c, l4, t);
    var l := HeadlessFromStart(k, r, dir, path, h0, h1);
    trace :| IsRun(trace, START, l, t);
    HeadlessLonely(k, r, dir, path, h0, h1);
    AloneHistory(trace, l, k);
  }
}
