/** Who uses a directory of the git cache, what it holds, and what readers may have seen. */
module GitCoherence {
  import opened Wrappers
  import opened GoStrings
  import opened ObjectEntries
  import opened GitCache

  // ---- who uses a directory -----------------------------------------------------------------

  predicate LiveEntry(s: State, k: ObjectKey, dir: string) {
    k in s.entries && Exists(s, s.entries[k]) && s.heap[s.entries[k]].dir == dir
  }

  predicate BeingRemoved(s: State, k: ObjectKey, dir: string) {
    WriterOf(s, k).Removing? && Exists(s, WriterOf(s, k).eid) && s.heap[WriterOf(s, k).eid].dir == dir
  }

  /** The directory is the key's: that of its live entry, or of a removal of it under way. */
  predicate Holds(s: State, k: ObjectKey, dir: string) {
    LiveEntry(s, k, dir) || BeingRemoved(s, k, dir)
  }

  /** The key holds the directory, or is about to take it once its old one is evicted. */
  predicate Uses(s: State, k: ObjectKey, dir: string) {
    Holds(s, k, dir) || (WriterOf(s, k).Evicting? && WriterOf(s, k).dir == dir)
  }

  /** No two keys use one directory at the same time. */
  ghost predicate Apart(s: State) {
    forall k, l, d :: Uses(s, k, d) && Uses(s, l, d) ==> k == l
  }

  /** A key asks for a directory that no other key uses at that moment; it may have been another's before. */
  ghost predicate Free(s: State, step: Step) {
    step.AtMap? && step.m.Begin? ==> forall l :: Uses(s, l, step.m.dir) ==> l == step.k
  }

  // ---- invariant --------------------------------------------------------------------------

  /** Nothing but files of the commit. */
  predicate SnapshotOf(files: Option<Files>, sha: Option<string>) {
    files.Some? ==> sha.Some? && forall p :: p in files.value ==>
      p in Tree(sha.value) && files.value[p] == Tree(sha.value)[p]
  }

  /** What the directory of a live entry holds, given how far its writer has come. */
  predicate ContentOk(w: Writer, files: Option<Files>, held: Option<string>) {
    match w
    case Inside(_, before) => files == before && SnapshotOf(files, held)
    case Updating(_, _) => true
    case Cloning(_, _) => true
    case Leaving(_, _, result) => SnapshotOf(files, held) && Returned(result, files, held)
    case Publishing(_, result) => SnapshotOf(files, held) && Returned(result, files, held)
    case _ => SnapshotOf(files, held)
  }

  predicate Returned(result: Option<string>, files: Option<Files>, held: Option<string>) {
    result.Some? ==> files == Some(Tree(result.value)) && held == result
  }

  ghost predicate KeyOk(s: State, k: ObjectKey) {
    var w := WriterOf(s, k);
    && (k in s.entries ==>
        && Latest(s, s.entries[k])
        && ContentOk(w, OnDisk(s, s.heap[s.entries[k]].dir), s.heap[s.entries[k]].held))
    && (w.Evicting? ==> Exists(s, w.eid) && s.heap[w.eid].dir != w.dir)
    && (w.Removing? ==>
        Latest(s, w.eid) && SnapshotOf(OnDisk(s, s.heap[w.eid].dir), s.heap[w.eid].held))
  }

  ghost predicate DirOk(s: State, dir: string) {
    dir in s.disk ==> exists k :: Holds(s, k, dir)
  }

  predicate Matches(sha: Option<string>, path: string, content: Bytes) {
    sha.Some? && path in Tree(sha.value) && content == Tree(sha.value)[path]
  }

  predicate ReadOk(path: string, content: Bytes, source: Option<string>, newest: bool) {
    (source.Some? ==> Matches(source, path, content)) && (newest ==> source.Some?)
  }

  predicate ReaderOk(q: Reader) {
    match q
    case HasContent(_, path, _, content, source, newest) => ReadOk(path, content, source, newest)
    case Done(_, path, _, content, _, source, newest) => ReadOk(path, content, source, newest)
    case _ => true
  }

  ghost predicate Inv(s: State) {
    && LocksOk(s) && Apart(s)
    && (forall k :: KeyOk(s, k))
    && (forall d :: DirOk(s, d))
    && (forall r :: r in s.readers ==> ReaderOk(s.readers[r]))
  }

  // ---- what a step leaves to other keys ----------------------------------------------------

  /** A step that leaves a key's writer, entry and directories alone. */
  ghost predicate SameFor(s: State, t: State, l: ObjectKey) {
    && WriterOf(t, l) == WriterOf(s, l)
    && (l in t.entries <==> l in s.entries) && (l in s.entries ==> t.entries[l] == s.entries[l])
    && (forall e: nat :: Exists(s, e) ==>
        && Exists(t, e) && t.heap[e].dir == s.heap[e].dir
        && (Holds(s, l, s.heap[e].dir) && Latest(s, e) ==>
            t.heap[e].sha == s.heap[e].sha && t.heap[e].held == s.heap[e].held))
    && (forall d :: Holds(s, l, d) ==>
        && OnDisk(t, d) == OnDisk(s, d)
        && (d in t.latest <==> d in s.latest) && (d in s.latest ==> t.latest[d] == s.latest[d]))
  }

  lemma SameKeyOk(s: State, t: State, l: ObjectKey)
    requires SameFor(s, t, l) && KeyOk(s, l) && InPlace(s, l)
    ensures KeyOk(t, l)
  {
    if l in s.entries {
      assert Holds(s, l, s.heap[s.entries[l]].dir);
    }
    if WriterOf(s, l).Removing? {
      assert Holds(s, l, s.heap[WriterOf(s, l).eid].dir);
    }
  }

  lemma SameUses(s: State, t: State, l: ObjectKey, d: string)
    requires SameFor(s, t, l) && InPlace(s, l) && (l in s.entries ==> Exists(s, s.entries[l]))
    ensures (Holds(t, l, d) <==> Holds(s, l, d)) && (Uses(t, l, d) <==> Uses(s, l, d))
  {
  }

  /** A writer touches no directory but its entry's. */
  ghost predicate TouchesOwn(s: State, t: State, k: ObjectKey) {
    forall d :: OnDisk(t, d) == OnDisk(s, d) ||
      (!WriterOf(s, k).Idle? && Exists(s, WriterOf(s, k).eid) && s.heap[WriterOf(s, k).eid].dir == d)
  }

  lemma MapTouches(s: State, k: ObjectKey, m: MapStep)
    requires MapEnabled(s, k, m)
    ensures TouchesOwn(s, AfterMap(s, k, m), k)
  {
    match m
    case Begin(dir) =>
      BeginTouches(s, k, dir);
      Untouched(s, AfterBegin(s, k, dir), k);
    case Forget =>
      ForgetTouches(s, k);
      Untouched(s, AfterForget(s, k), k);
    case _ => RemovalTouches(s, k, m);
  }

  lemma BeginTouches(s: State, k: ObjectKey, dir: string)
    ensures AfterBegin(s, k, dir).disk == s.disk
  {
    InstallDisk(s, k, dir);
    if k in s.entries {
      WaitDisk(s, k, s.mu, Installed(s.entries[k]));
      WaitDisk(s, k, Some(k), Evicting(s.entries[k], dir));
    }
  }

  lemma InstallDisk(s: State, k: ObjectKey, dir: string)
    ensures Install(s, k, dir).disk == s.disk
  {
  }

  lemma WaitDisk(s: State, k: ObjectKey, mu: Option<ObjectKey>, w: Writer)
    ensures SetWriter(s.(mu := mu), k, w).disk == s.disk
  {
  }

  lemma ForgetTouches(s: State, k: ObjectKey)
    ensures AfterForget(s, k).disk == s.disk
  {
  }

  lemma Untouched(s: State, t: State, k: ObjectKey)
    requires t.disk == s.disk
    ensures TouchesOwn(s, t, k)
  {
  }

  lemma RemovalTouches(s: State, k: ObjectKey, m: MapStep)
    requires MapEnabled(s, k, m) && !m.Begin? && !m.Forget?
    ensures TouchesOwn(s, AfterMap(s, k, m), k)
  {
  }

  lemma RefreshTouches(s: State, k: ObjectKey, f: RefreshStep)
    requires RefreshEnabled(s, k, f)
    ensures TouchesOwn(s, AfterRefresh(s, k, f), k)
  {
  }

  lemma MapInstalls(s: State, k: ObjectKey, m: MapStep)
    requires MapEnabled(s, k, m)
    ensures Grown(s, AfterMap(s, k, m), k) ==>
      if m.Begin? then AfterMap(s, k, m).heap[|s.heap|].dir == m.dir
      else WriterOf(s, k).Evicting? && AfterMap(s, k, m).heap[|s.heap|].dir == WriterOf(s, k).dir
  {
  }

  /** The directory a writer works in is its own. */
  lemma WorksInOwn(s: State, k: ObjectKey)
    requires InPlace(s, k) && !WriterOf(s, k).Idle?
    ensures Holds(s, k, s.heap[WriterOf(s, k).eid].dir)
  {
  }

  lemma MapSame(s: State, t: State, k: ObjectKey, l: ObjectKey)
    requires MapFrame(s, t, k) && TouchesOwn(s, t, k) && InPlace(s, k) && Apart(s) && l != k
    requires Grown(s, t, k) ==> !Holds(s, l, t.heap[|s.heap|].dir)
    ensures SameFor(s, t, l)
  {
    if !WriterOf(s, k).Idle? {
      WorksInOwn(s, k);
    }
    forall d | Holds(s, l, d) ensures OnDisk(t, d) == OnDisk(s, d) {
      assert Uses(s, l, d);
      assert !WriterOf(s, k).Idle? ==> Uses(s, k, s.heap[WriterOf(s, k).eid].dir);
    }
  }

  lemma RefreshSame(s: State, t: State, k: ObjectKey, l: ObjectKey)
    requires RefreshFrame(s, t, k) && TouchesOwn(s, t, k) && InPlace(s, k) && Apart(s) && l != k
    ensures SameFor(s, t, l)
  {
    WorksInOwn(s, k);
    assert Uses(s, k, s.heap[WriterOf(s, k).eid].dir);
    forall d | Holds(s, l, d)
      ensures OnDisk(t, d) == OnDisk(s, d) && d != s.heap[WriterOf(s, k).eid].dir {
      assert Uses(s, l, d);
    }
  }

  lemma ReadSame(s: State, t: State, r: nat, l: ObjectKey)
    requires ReadFrame(s, t, r)
    ensures SameFor(s, t, l)
  {
  }

  /** Where no other key uses the directory asked for, a step leaves all other keys alone. */
  lemma OtherSame(s: State, step: Step, l: ObjectKey)
    requires LocksOk(s) && Apart(s) && Enabled(s, step) && Free(s, step) && !step.By(l)
    ensures SameFor(s, After(s, step), l)
  {
    ActorFacts(s, step);
    match step
    case AtMap(k, m) =>
      MapFrames(s, k, m);
      MapTouches(s, k, m);
      MapInstalls(s, k, m);
      assert m.Begin? ==> !Uses(s, l, m.dir);
      if WriterOf(s, k).Evicting? {
        assert Uses(s, k, WriterOf(s, k).dir);
        assert !Uses(s, l, WriterOf(s, k).dir);
      }
      MapSame(s, After(s, step), k, l);
    case Refresh(k, f) =>
      RefreshFrames(s, k, f);
      RefreshTouches(s, k, f);
      RefreshSame(s, After(s, step), k, l);
    case Read(r, p) =>
      ReadFrames(s, r, p);
      ReadSame(s, After(s, step), r, l);
  }

  // ---- what a step does for its own key ----------------------------------------------------

  /** Nothing is on disk for a directory that a key has reserved and not yet taken. */
  ghost predicate Vacant(s: State, k: ObjectKey, dir: string) {
    dir in s.disk ==> Holds(s, k, dir)
  }

  lemma NewEntryOk(s: State, k: ObjectKey, dir: string)
    requires KeyOk(s, k) && Vacant(s, k, dir) && !Holds(s, k, dir)
    ensures KeyOk(Install(s, k, dir), k)
  {
  }

  lemma MapKeyOwn(s: State, k: ObjectKey, m: MapStep)
    requires MapEnabled(s, k, m) && WriterFacts(s, k) && KeyOk(s, k)
    requires m.Begin? ==> Vacant(s, k, m.dir)
    requires m.EvictDone? ==> Vacant(s, k, WriterOf(s, k).dir)
    ensures KeyOk(AfterMap(s, k, m), k)
  {
    var w := WriterOf(s, k);
    match m
    case Begin(dir) => BeginKeyOwn(s, k, dir);
    case EvictDone => NewEntryOk(s, k, w.dir);
    case _ =>
  }

  lemma BeginKeyOwn(s: State, k: ObjectKey, dir: string)
    requires MapEnabled(s, k, Begin(dir)) && WriterFacts(s, k) && KeyOk(s, k) && Vacant(s, k, dir)
    ensures KeyOk(AfterBegin(s, k, dir), k)
  {
    if k !in s.entries {
      NewEntryOk(s, k, dir);
    } else {
      WaitKeyOk(s, k, s.mu, Installed(s.entries[k]));
      if s.heap[s.entries[k]].dir != dir {
        WaitKeyOk(s, k, Some(k), Evicting(s.entries[k], dir));
      }
    }
  }

  lemma WaitKeyOk(s: State, k: ObjectKey, mu: Option<ObjectKey>, w: Writer)
    requires KeyOk(s, k) && WriterOf(s, k).Idle? && (w.Installed? || w.Evicting?)
    requires w.Evicting? ==> Exists(s, w.eid) && s.heap[w.eid].dir != w.dir
    ensures KeyOk(SetWriter(s.(mu := mu), k, w), k)
  {
  }

  lemma RefreshKeyOwn(s: State, k: ObjectKey, f: RefreshStep)
    requires RefreshEnabled(s, k, f) && InPlace(s, k) && KeyOk(s, k)
    ensures KeyOk(AfterRefresh(s, k, f), k)
  {
    if f.UpdateOk? || f.UpdateFails? || f.CloneOk? || f.CloneFails? || f.CloneHeadless? || f.Scribble? {
      WriteKeyOwn(s, k, f);
    } else {
      LockKeyOwn(s, k, f);
    }
  }

  lemma WriteKeyOwn(s: State, k: ObjectKey, f: RefreshStep)
    requires RefreshEnabled(s, k, f) && InPlace(s, k) && KeyOk(s, k)
    requires f.UpdateOk? || f.UpdateFails? || f.CloneOk? || f.CloneFails? || f.CloneHeadless? || f.Scribble?
    ensures KeyOk(AfterRefresh(s, k, f), k)
  {
  }

  lemma LockKeyOwn(s: State, k: ObjectKey, f: RefreshStep)
    requires RefreshEnabled(s, k, f) && InPlace(s, k) && KeyOk(s, k)
    requires f.Acquire? || f.Enter? || f.AuthFails? || f.Inspect? || f.Leave? || f.Release?
    ensures KeyOk(AfterRefresh(s, k, f), k)
  {
  }

  /** What a key uses after a step of its own: what it used before, and the directory it asked for. */
  lemma MapUsesOwn(s: State, k: ObjectKey, m: MapStep, d: string)
    requires MapEnabled(s, k, m) && WriterFacts(s, k) && Uses(AfterMap(s, k, m), k, d)
    ensures Uses(s, k, d) || (m.Begin? && d == m.dir)
  {
    if m.Begin? {
      BeginUsesOwn(s, k, m.dir, d);
    }
  }

  lemma BeginUsesOwn(s: State, k: ObjectKey, dir: string, d: string)
    requires MapEnabled(s, k, Begin(dir)) && WriterFacts(s, k) && Uses(AfterBegin(s, k, dir), k, d)
    ensures Uses(s, k, d) || d == dir
  {
    if k !in s.entries {
      assert Uses(Install(s, k, dir), k, d);
      InstallUses(s, k, dir, d);
    }
  }

  lemma InstallUses(s: State, k: ObjectKey, dir: string, d: string)
    requires Uses(Install(s, k, dir), k, d)
    ensures d == dir
  {
  }

  lemma RefreshUsesOwn(s: State, t: State, k: ObjectKey, d: string)
    requires RefreshFrame(s, t, k) && InPlace(s, k) && InPlace(t, k)
    requires WriterOf(s, k).Removing? <==> WriterOf(t, k).Removing?
    requires WriterOf(t, k).Evicting? ==> WriterOf(s, k).Evicting? && WriterOf(s, k).dir == WriterOf(t, k).dir
    ensures (Holds(t, k, d) <==> Holds(s, k, d)) && (Uses(t, k, d) ==> Uses(s, k, d))
  {
  }

  lemma RefreshStays(s: State, k: ObjectKey, f: RefreshStep)
    requires RefreshEnabled(s, k, f)
    ensures !WriterOf(AfterRefresh(s, k, f), k).Removing? && !WriterOf(s, k).Removing?
    ensures !WriterOf(AfterRefresh(s, k, f), k).Evicting?
  {
  }

  /** A directory that a key gives up is gone from the disk. */
  lemma MapDirsOwn(s: State, k: ObjectKey, m: MapStep, d: string)
    requires MapEnabled(s, k, m) && WriterFacts(s, k) && KeyOk(s, k) && Vacant(s, k, d)
    ensures Vacant(AfterMap(s, k, m), k, d)
  {
    if m.Begin? {
      BeginDirsOwn(s, k, m.dir, d);
    }
  }

  lemma BeginDirsOwn(s: State, k: ObjectKey, dir: string, d: string)
    requires MapEnabled(s, k, Begin(dir)) && WriterFacts(s, k) && Vacant(s, k, d)
    ensures Vacant(AfterBegin(s, k, dir), k, d)
  {
    if k !in s.entries {
      assert !Holds(s, k, d);
      assert Install(s, k, dir).disk == s.disk;
    } else {
      WaitHolds(s, k, s.mu, Installed(s.entries[k]), d);
      WaitHolds(s, k, Some(k), Evicting(s.entries[k], dir), d);
    }
  }

  lemma WaitHolds(s: State, k: ObjectKey, mu: Option<ObjectKey>, w: Writer, d: string)
    requires WriterOf(s, k).Idle? && !w.Removing?
    ensures var t := SetWriter(s.(mu := mu), k, w);
      t.disk == s.disk && (Holds(t, k, d) <==> Holds(s, k, d))
  {
  }

  // ---- readers ----------------------------------------------------------------------------

  /** Outside a refresh, a directory holds files of the commit that was last brought into it. */
  lemma SettledSnapshot(s: State, dir: string)
    requires Inv(s) && dir in s.disk && dir in s.latest && Latest(s, s.latest[dir])
    requires s.heap[s.latest[dir]].writer.None?
    ensures Settled(s, dir).Some? && SnapshotOf(OnDisk(s, dir), Settled(s, dir))
  {
    assert DirOk(s, dir);
    var k :| Holds(s, k, dir);
    assert KeyOk(s, k) && InPlace(s, k) && HolderOk(s, k);
  }

  lemma ReaderOwn(s: State, r: nat, p: ReadStep)
    requires Inv(s) && ReadEnabled(s, r, p)
    ensures ReaderOk(AfterRead(s, r, p).readers[r])
  {
    if r in s.readers {
      var q := s.readers[r];
      assert ReaderOk(q);
      if p.ReadFile? {
        var dir := s.heap[q.eid].dir;
        assert LockOk(s, q.eid) && HoldsRead(s, r, q.eid) && r in s.heap[q.eid].readers;
        if dir in s.disk && (Settled(s, dir).Some? || Latest(s, q.eid)) {
          SettledSnapshot(s, dir);
        }
      }
    }
  }

  lemma ReaderOther(s: State, step: Step, r: nat)
    requires Enabled(s, step) && r in s.readers && !(step.Read? && step.r == r)
    ensures r in After(s, step).readers && After(s, step).readers[r] == s.readers[r]
  {
    match step
    case AtMap(k, m) => MapFrames(s, k, m);
    case Refresh(k, f) => RefreshFrames(s, k, f);
    case Read(p, f) => ReadFrames(s, p, f);
  }

  /** What is published for an entry does not change under a reader. */
  lemma ShaKept(s: State, step: Step, r: nat, eid: nat)
    requires LocksOk(s) && Enabled(s, step) && HoldsRead(s, r, eid)
    ensures Exists(s, eid) && Exists(After(s, step), eid) && After(s, step).heap[eid].sha == s.heap[eid].sha
  {
    ActorFacts(s, step);
    assert LockOk(s, eid) && r in s.heap[eid].readers;
    match step
    case AtMap(k, m) => MapFrames(s, k, m);
    case Refresh(k, f) =>
      RefreshFrames(s, k, f);
      assert HolderOk(s, k);
    case Read(p, f) => ReadFrames(s, p, f);
  }

  // ---- preservation -----------------------------------------------------------------------

  lemma DirVacant(s: State, k: ObjectKey, d: string)
    requires Apart(s) && DirOk(s, d) && Uses(s, k, d)
    ensures Vacant(s, k, d)
  {
    if d in s.disk {
      var l :| Holds(s, l, d);
      assert Uses(s, l, d);
    }
  }

  lemma AskedVacant(s: State, k: ObjectKey, dir: string)
    requires DirOk(s, dir) && Free(s, AtMap(k, Begin(dir)))
    ensures Vacant(s, k, dir)
  {
    if dir in s.disk {
      var l :| Holds(s, l, dir);
      assert Uses(s, l, dir);
    }
  }

  lemma KeyStep(s: State, step: Step, l: ObjectKey)
    requires Inv(s) && Enabled(s, step) && Free(s, step)
    ensures KeyOk(After(s, step), l)
  {
    ActorFacts(s, step);
    assert KeyOk(s, l) && InPlace(s, l);
    if !step.By(l) {
      OtherSame(s, step, l);
      SameKeyOk(s, After(s, step), l);
    } else if step.AtMap? {
      if step.m.Begin? {
        assert DirOk(s, step.m.dir);
        AskedVacant(s, l, step.m.dir);
      } else if step.m.EvictDone? {
        assert DirOk(s, WriterOf(s, l).dir) && Uses(s, l, WriterOf(s, l).dir);
        DirVacant(s, l, WriterOf(s, l).dir);
      }
      MapKeyOwn(s, l, step.m);
    } else {
      RefreshKeyOwn(s, l, step.f);
    }
  }

  /** What a key uses after a step of anybody. */
  lemma UsesStep(s: State, step: Step, l: ObjectKey, d: string)
    requires LocksOk(s) && Apart(s) && Enabled(s, step) && Free(s, step) && Uses(After(s, step), l, d)
    ensures Uses(s, l, d) || (step.AtMap? && step.m.Begin? && step.k == l && d == step.m.dir)
  {
    ActorFacts(s, step);
    assert InPlace(s, l) && (l in s.entries ==> Exists(s, s.entries[l]));
    if !step.By(l) {
      OtherSame(s, step, l);
      SameUses(s, After(s, step), l, d);
    } else if step.AtMap? {
      MapUsesOwn(s, l, step.m, d);
    } else {
      RefreshFrames(s, l, step.f);
      RefreshStays(s, l, step.f);
      RefreshOwn(s, l, step.f);
      RefreshUsesOwn(s, After(s, step), l, d);
    }
  }

  lemma DistinctStep(s: State, step: Step)
    requires LocksOk(s) && Apart(s) && Enabled(s, step) && Free(s, step)
    ensures Apart(After(s, step))
  {
    var t := After(s, step);
    forall k, l, d | Uses(t, k, d) && Uses(t, l, d) ensures k == l {
      UsesStep(s, step, k, d);
      UsesStep(s, step, l, d);
    }
  }

  lemma DirStep(s: State, step: Step, d: string)
    requires Inv(s) && Enabled(s, step) && Free(s, step)
    ensures DirOk(After(s, step), d)
  {
    var t := After(s, step);
    if d in t.disk {
      var k := HolderAfter(s, step, d);
    }
  }

  /** Whoever holds a directory on disk goes on holding it; one that appears is its writer's. */
  lemma HolderAfter(s: State, step: Step, d: string) returns (k: ObjectKey)
    requires Inv(s) && Enabled(s, step) && Free(s, step) && d in After(s, step).disk
    ensures Holds(After(s, step), k, d)
  {
    assert DirOk(s, d);
    if d in s.disk {
      k :| Holds(s, k, d);
    } else {
      WriterTouches(s, step);
      k := step.k;
      AppearsInOwn(s, After(s, step), k, d);
    }
    HolderStays(s, step, k, d);
  }

  lemma WriterTouches(s: State, step: Step)
    requires LocksOk(s) && Enabled(s, step)
    ensures if step.Read? then After(s, step).disk == s.disk
      else TouchesOwn(s, After(s, step), step.k) && InPlace(s, step.k)
  {
    ActorFacts(s, step);
    match step
    case AtMap(k, m) => MapTouches(s, k, m);
    case Refresh(k, f) => RefreshTouches(s, k, f);
    case Read(r, p) => ReadFrames(s, r, p);
  }

  /** A directory appears only where its writer works. */
  lemma AppearsInOwn(s: State, t: State, k: ObjectKey, d: string)
    requires TouchesOwn(s, t, k) && InPlace(s, k) && d !in s.disk && d in t.disk
    ensures Holds(s, k, d)
  {
    assert OnDisk(t, d) != OnDisk(s, d);
    WorksInOwn(s, k);
  }

  lemma HolderStays(s: State, step: Step, k: ObjectKey, d: string)
    requires Inv(s) && Enabled(s, step) && Free(s, step) && d in After(s, step).disk && Holds(s, k, d)
    ensures Holds(After(s, step), k, d)
  {
    ActorFacts(s, step);
    assert KeyOk(s, k) && InPlace(s, k);
    if !step.By(k) {
      OtherSame(s, step, k);
      SameUses(s, After(s, step), k, d);
    } else if step.AtMap? {
      MapDirsOwn(s, k, step.m, d);
    } else {
      RefreshFrames(s, k, step.f);
      RefreshStays(s, k, step.f);
      RefreshOwn(s, k, step.f);
      RefreshUsesOwn(s, After(s, step), k, d);
    }
  }

  lemma ReaderStep(s: State, step: Step, r: nat)
    requires Inv(s) && Enabled(s, step) && r in After(s, step).readers
    ensures ReaderOk(After(s, step).readers[r])
  {
    if step.Read? && step.r == r {
      ReaderOwn(s, r, step.p);
    } else {
      ReadersKept(s, step, r);
      ReaderOther(s, step, r);
      assert ReaderOk(s.readers[r]);
    }
  }

  lemma ReadersKept(s: State, step: Step, r: nat)
    requires Enabled(s, step) && r in After(s, step).readers && !(step.Read? && step.r == r)
    ensures r in s.readers
  {
    match step
    case AtMap(k, m) => MapFrames(s, k, m);
    case Refresh(k, f) => RefreshFrames(s, k, f);
    case Read(p, f) => ReadFrames(s, p, f);
  }

  lemma InvStep(s: State, step: Step)
    requires Inv(s) && Enabled(s, step) && Free(s, step)
    ensures Inv(After(s, step))
  {
    LocksStep(s, step);
    DistinctStep(s, step);
    forall k ensures KeyOk(After(s, step), k) {
      KeyStep(s, step, k);
    }
    forall d ensures DirOk(After(s, step), d) {
      DirStep(s, step, d);
    }
    forall r | r in After(s, step).readers ensures ReaderOk(After(s, step).readers[r]) {
      ReaderStep(s, step, r);
    }
  }
}
