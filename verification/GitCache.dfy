/**
 The git cache under concurrency. The registry's mutex covers lookup, eviction and install;
 an entry's read-write lock covers a refresh and a read; a mutex for each directory covers the
 body of `EnsureCloned`. Directories are removed file by file while readers go on. One writer
 for each key (its reconciler), any number of readers.
 */
module GitCache {
  import opened Wrappers
  import opened GoStrings
  import opened ObjectEntries

  type Files = map<string, Bytes>

  /** The work tree of a commit. */
  const Tree: string -> Files

  /**
   An entry on the heap: its directory, the commit published for it, and its lock. `held` is
   history: the commit that the entry's last clone or update brought into the directory.
   */
  datatype Entry = Entry(
    dir: string, sha: Option<string>, held: Option<string>, writer: Option<ObjectKey>, readers: set<nat>)

  /**
   Progress of `EnsureCached` or `Forget` for one key; `before` is what the directory held
   when the body of `EnsureCloned` began.
   */
  datatype Writer =
    | Idle
    | Evicting(eid: nat, dir: string)
    | Installed(eid: nat)
    | Locked(eid: nat)
    | Inside(eid: nat, before: Option<Files>)
    | Updating(eid: nat, before: Option<Files>)
    | Cloning(eid: nat, before: Option<Files>)
    | Leaving(eid: nat, before: Option<Files>, result: Option<string>)
    | Publishing(eid: nat, result: Option<string>)
    | Removing(eid: nat)

  /**
   Progress of one `Read`. When the file was read, `source` was the commit whose files the
   directory held, if settled, and `newest` whether the entry was still its directory's latest.
   */
  datatype Reader =
    | Found(key: ObjectKey, path: string, eid: nat)
    | Reading(key: ObjectKey, path: string, eid: nat)
    | HasContent(key: ObjectKey, path: string, eid: nat, content: Bytes, source: Option<string>, newest: bool)
    | Done(
        key: ObjectKey, path: string, eid: nat, content: Bytes, sha: Option<string>,
        source: Option<string>, newest: bool)
    | Failed(key: ObjectKey)

  /** `latest` is history: the newest entry made for each directory. */
  datatype State = State(
    mu: Option<ObjectKey>, entries: map<ObjectKey, nat>, heap: seq<Entry>, latest: map<string, nat>,
    disk: map<string, Files>, mutexes: map<string, ObjectKey>,
    writers: map<ObjectKey, Writer>, readers: map<nat, Reader>)

  const START := State(None, map[], [], map[], map[], map[], map[], map[])

  function WriterOf(s: State, k: ObjectKey): Writer {
    if k in s.writers then s.writers[k] else Idle
  }

  predicate Exists(s: State, eid: nat) {
    eid < |s.heap|
  }

  function OnDisk(s: State, dir: string): Option<Files> {
    if dir in s.disk then Some(s.disk[dir]) else None
  }

  /** No later entry was made for the directory of this one. */
  predicate Latest(s: State, eid: nat) {
    Exists(s, eid) && s.heap[eid].dir in s.latest && s.latest[s.heap[eid].dir] == eid
  }

  /** The commit whose files a directory holds, unless a refresh is under way. */
  function Settled(s: State, dir: string): Option<string> {
    if dir in s.latest && Latest(s, s.latest[dir]) && s.heap[s.latest[dir]].writer.None? then
      s.heap[s.latest[dir]].held
    else None
  }

  // ---- steps ------------------------------------------------------------------------------

  /** What a reconciler does at the registry's map, under its mutex, and to evicted directories. */
  datatype MapStep =
    | Begin(dir: string)
    | EvictFile(path: string)
    | EvictDone
    | Forget
    | RemoveFile(path: string)
    | RemoveDone

  /** What a reconciler does under its entry's write lock. */
  datatype RefreshStep =
    | Acquire
    | Enter
    | AuthFails
    | Inspect
    | Scribble(files: Files)
    | UpdateOk(sha: string)
    | UpdateFails
    | CloneOk(sha: string)
    | CloneFails
    | CloneHeadless(sha: string)
    | Leave
    | Release

  datatype ReadStep =
    | LookUp(key: ObjectKey, path: string)
    | AcquireRead
    | ReadFile
    | ReadSha

  datatype Step = AtMap(k: ObjectKey, m: MapStep) | Refresh(k: ObjectKey, f: RefreshStep) | Read(r: nat, p: ReadStep)
  {
    predicate By(key: ObjectKey) {
      !Read? && k == key
    }
  }

  function SetWriter(s: State, k: ObjectKey, w: Writer): State {
    s.(writers := s.writers[k := w])
  }

  function SetReader(s: State, r: nat, p: Reader): State {
    s.(readers := s.readers[r := p])
  }

  function Put(s: State, eid: nat, e: Entry): State
    requires Exists(s, eid)
  {
    s.(heap := s.heap[eid := e])
  }

  predicate MapEnabled(s: State, k: ObjectKey, m: MapStep) {
    var w := WriterOf(s, k);
    match m
    case Begin(_) => w.Idle? && s.mu.None?
    case EvictFile(_) => w.Evicting? && Exists(s, w.eid)
    case EvictDone => w.Evicting? && Exists(s, w.eid)
    case Forget => w.Idle? && s.mu.None?
    case RemoveFile(_) => w.Removing? && Exists(s, w.eid)
    case RemoveDone => w.Removing? && Exists(s, w.eid)
  }

  function Install(s: State, k: ObjectKey, dir: string): State {
    SetWriter(s, k, Installed(|s.heap|)).(
      heap := s.heap + [Entry(dir, None, None, None, {})], latest := s.latest[dir := |s.heap|],
      entries := s.entries[k := |s.heap|])
  }

  /** `os.RemoveAll` on its way: one file less. */
  function Unlink(s: State, dir: string, path: string): State {
    if dir in s.disk then s.(disk := s.disk[dir := s.disk[dir] - {path}]) else s
  }

  function RemoveAll(s: State, dir: string): State {
    s.(disk := s.disk - {dir})
  }

  /** `EnsureCached` under the registry's mutex: the entry stays, is made, or is to be replaced. */
  function AfterBegin(s: State, k: ObjectKey, dir: string): State {
    if k !in s.entries || !Exists(s, s.entries[k]) then Install(s, k, dir)
    else if s.heap[s.entries[k]].dir == dir then SetWriter(s, k, Installed(s.entries[k]))
    else SetWriter(s.(mu := Some(k)), k, Evicting(s.entries[k], dir))
  }

  /** `Forget` under the registry's mutex. */
  function AfterForget(s: State, k: ObjectKey): State {
    if k in s.entries then SetWriter(s.(entries := s.entries - {k}), k, Removing(s.entries[k]))
    else SetWriter(s, k, Idle)
  }

  function AfterMap(s: State, k: ObjectKey, m: MapStep): State
    requires MapEnabled(s, k, m)
  {
    var w := WriterOf(s, k);
    match m
    case Begin(dir) => AfterBegin(s, k, dir)
    case EvictFile(path) => SetWriter(Unlink(s, s.heap[w.eid].dir, path), k, w)
    case EvictDone => Install(RemoveAll(s.(mu := None), s.heap[w.eid].dir), k, w.dir)
    case Forget => AfterForget(s, k)
    case RemoveFile(path) => SetWriter(Unlink(s, s.heap[w.eid].dir, path), k, w)
    case RemoveDone => SetWriter(RemoveAll(s, s.heap[w.eid].dir), k, Idle)
  }

  predicate RefreshEnabled(s: State, k: ObjectKey, f: RefreshStep) {
    var w := WriterOf(s, k);
    !w.Idle? && Exists(s, w.eid) &&
    match f
    case Acquire => w.Installed? && s.heap[w.eid].writer.None? && s.heap[w.eid].readers == {}
    case Enter => w.Locked? && s.heap[w.eid].dir !in s.mutexes
    case AuthFails => w.Inside?
    case Inspect => w.Inside?
    case Scribble(_) => w.Updating? || w.Cloning?
    case UpdateOk(_) => w.Updating?
    case UpdateFails => w.Updating?
    case CloneOk(_) => w.Cloning?
    case CloneFails => w.Cloning?
    case CloneHeadless(_) => w.Cloning?
    case Leave => w.Leaving?
    case Release => w.Publishing?
  }

  /** A clone or update brings the files of a commit. */
  function Receive(s: State, eid: nat, sha: string): State
    requires Exists(s, eid)
  {
    Put(s, eid, s.heap[eid].(held := Some(sha))).(disk := s.disk[s.heap[eid].dir := Tree(sha)])
  }

  /**
   A refresh that fails to update wipes the directory and clones. One that fails to clone leaves
   no directory, but one that clones and cannot read HEAD fails and leaves the clone.
   */
  function AfterRefresh(s: State, k: ObjectKey, f: RefreshStep): State
    requires RefreshEnabled(s, k, f)
  {
    var w := WriterOf(s, k);
    var e := s.heap[w.eid];
    match f
    case Acquire => SetWriter(Put(s, w.eid, e.(writer := Some(k))), k, Locked(w.eid))
    case Enter => SetWriter(s, k, Inside(w.eid, OnDisk(s, e.dir))).(mutexes := s.mutexes[e.dir := k])
    case AuthFails => SetWriter(s, k, Leaving(w.eid, w.before, None))
    case Inspect => SetWriter(s, k, if e.dir in s.disk then Updating(w.eid, w.before) else Cloning(w.eid, w.before))
    case Scribble(files) => SetWriter(s, k, w).(disk := s.disk[e.dir := files])
    case UpdateOk(sha) => SetWriter(Receive(s, w.eid, sha), k, Leaving(w.eid, w.before, Some(sha)))
    case UpdateFails => SetWriter(s, k, Cloning(w.eid, w.before)).(disk := s.disk - {e.dir})
    case CloneOk(sha) => SetWriter(Receive(s, w.eid, sha), k, Leaving(w.eid, w.before, Some(sha)))
    case CloneFails => SetWriter(s, k, Leaving(w.eid, w.before, None)).(disk := s.disk - {e.dir})
    case CloneHeadless(sha) => SetWriter(Receive(s, w.eid, sha), k, Leaving(w.eid, w.before, None))
    case Leave => SetWriter(s, k, Publishing(w.eid, w.result)).(mutexes := s.mutexes - {e.dir})
    case Release =>
      SetWriter(Put(s, w.eid, e.(sha := if w.result.Some? then w.result else e.sha, writer := None)), k, Idle)
  }

  predicate ReadEnabled(s: State, r: nat, p: ReadStep) {
    match p
    case LookUp(_, _) => r !in s.readers && s.mu.None?
    case AcquireRead => UnderWay(s, r) && s.readers[r].Found? && s.heap[s.readers[r].eid].writer.None?
    case ReadFile => UnderWay(s, r) && s.readers[r].Reading?
    case ReadSha => UnderWay(s, r) && s.readers[r].HasContent?
  }

  predicate UnderWay(s: State, r: nat) {
    r in s.readers && !s.readers[r].Failed? && Exists(s, s.readers[r].eid)
  }

  function AfterRead(s: State, r: nat, p: ReadStep): State
    requires ReadEnabled(s, r, p)
  {
    match p
    case LookUp(key, path) =>
      SetReader(s, r, if key in s.entries then Found(key, path, s.entries[key]) else Failed(key))
    case AcquireRead =>
      var q := s.readers[r];
      var e := s.heap[q.eid];
      SetReader(Put(s, q.eid, e.(readers := e.readers + {r})), r, Reading(q.key, q.path, q.eid))
    case ReadFile =>
      var q := s.readers[r];
      var e := s.heap[q.eid];
      if e.dir in s.disk && q.path in s.disk[e.dir] then
        SetReader(s, r, HasContent(q.key, q.path, q.eid, s.disk[e.dir][q.path], Settled(s, e.dir), Latest(s, q.eid)))
      else SetReader(Put(s, q.eid, e.(readers := e.readers - {r})), r, Failed(q.key))
    case ReadSha =>
      var q := s.readers[r];
      var e := s.heap[q.eid];
      SetReader(Put(s, q.eid, e.(readers := e.readers - {r})), r,
        Done(q.key, q.path, q.eid, q.content, e.sha, q.source, q.newest))
  }

  predicate Enabled(s: State, step: Step) {
    match step
    case AtMap(k, m) => MapEnabled(s, k, m)
    case Refresh(k, f) => RefreshEnabled(s, k, f)
    case Read(r, p) => ReadEnabled(s, r, p)
  }

  function After(s: State, step: Step): State
    requires Enabled(s, step)
  {
    match step
    case AtMap(k, m) => AfterMap(s, k, m)
    case Refresh(k, f) => AfterRefresh(s, k, f)
    case Read(r, p) => AfterRead(s, r, p)
  }

  // ---- locks ------------------------------------------------------------------------------

  /** The writer holds its entry's write lock. */
  predicate HoldsLock(w: Writer) {
    w.Locked? || HoldsMutex(w) || w.Publishing?
  }

  /** The writer is in the body of `EnsureCloned`. */
  predicate HoldsMutex(w: Writer) {
    w.Inside? || w.Updating? || w.Cloning? || w.Leaving?
  }

  predicate HoldsRead(s: State, r: nat, eid: nat) {
    r in s.readers && (s.readers[r].Reading? || s.readers[r].HasContent?) && s.readers[r].eid == eid
  }

  /** A key's writer works on the key's own entry, which it has just taken out of the map when it removes it. */
  predicate InPlace(s: State, k: ObjectKey) {
    var w := WriterOf(s, k);
    && (!w.Idle? ==> Exists(s, w.eid))
    && (!w.Idle? && !w.Removing? ==> k in s.entries && s.entries[k] == w.eid)
    && (w.Removing? ==> k !in s.entries)
    && (w.Evicting? ==> s.mu == Some(k))
  }

  predicate HolderOk(s: State, k: ObjectKey) {
    var w := WriterOf(s, k);
    && (HoldsLock(w) ==> Exists(s, w.eid) && s.heap[w.eid].writer == Some(k))
    && (HoldsMutex(w) ==> Exists(s, w.eid) && s.heap[w.eid].dir in s.mutexes && s.mutexes[s.heap[w.eid].dir] == k)
  }

  ghost predicate LockOk(s: State, eid: nat)
    requires Exists(s, eid)
  {
    var e := s.heap[eid];
    && (e.writer.Some? ==>
        e.readers == {} && HoldsLock(WriterOf(s, e.writer.value)) && WriterOf(s, e.writer.value).eid == eid)
    && (forall r :: r in e.readers <==> HoldsRead(s, r, eid))
  }

  ghost predicate LocksOk(s: State) {
    && EntriesOk(s) && ReadersExist(s)
    && (forall k :: InPlace(s, k) && HolderOk(s, k))
    && (forall e :: Exists(s, e) ==> LockOk(s, e))
  }

  /** Each key has an entry of its own. */
  ghost predicate EntriesOk(s: State) {
    && (forall k :: k in s.entries ==> Exists(s, s.entries[k]))
    && (forall k, l :: k in s.entries && l in s.entries && s.entries[k] == s.entries[l] ==> k == l)
  }

  ghost predicate ReadersExist(s: State) {
    forall r :: r in s.readers && !s.readers[r].Failed? ==> Exists(s, s.readers[r].eid)
  }

  ghost predicate WriterFacts(s: State, k: ObjectKey) {
    && InPlace(s, k) && HolderOk(s, k)
    && (!WriterOf(s, k).Idle? ==> LockOk(s, WriterOf(s, k).eid))
    && (k in s.entries ==> Exists(s, s.entries[k]) && LockOk(s, s.entries[k]))
  }

  ghost predicate ReaderFacts(s: State, r: nat) {
    r in s.readers && !s.readers[r].Failed? ==> Exists(s, s.readers[r].eid) && LockOk(s, s.readers[r].eid)
  }

  /** The invariant where a step acts. */
  lemma ActorFacts(s: State, step: Step)
    requires LocksOk(s)
    ensures !step.Read? ==> WriterFacts(s, step.k)
    ensures step.Read? ==> ReaderFacts(s, step.r)
  {
    if !step.Read? {
      assert InPlace(s, step.k) && HolderOk(s, step.k);
    }
  }

  // What a step leaves alone.

  predicate MapFrame(s: State, t: State, k: ObjectKey) {
    && t.readers == s.readers && t.mutexes == s.mutexes && OnlyWriter(s, t, k)
    && (t.mu == s.mu || s.mu.None? || WriterOf(s, k).Evicting?) && !HoldsLock(WriterOf(s, k))
    && (Kept(s, t, k) || Grown(s, t, k))
  }

  predicate OnlyWriter(s: State, t: State, k: ObjectKey) {
    t.writers == s.writers[k := WriterOf(t, k)]
  }

  predicate Kept(s: State, t: State, k: ObjectKey) {
    t.heap == s.heap && t.latest == s.latest && (t.entries == s.entries || t.entries == s.entries - {k})
  }

  predicate Grown(s: State, t: State, k: ObjectKey) {
    && |t.heap| == |s.heap| + 1 && t.entries == s.entries[k := |s.heap|]
    && t.heap == s.heap + [Entry(t.heap[|s.heap|].dir, None, None, None, {})]
    && t.latest == s.latest[t.heap[|s.heap|].dir := |s.heap|]
  }

  lemma InstallFrames(s: State, k: ObjectKey, dir: string)
    requires WriterOf(s, k).Idle? || WriterOf(s, k).Evicting?
    ensures MapFrame(s, Install(s, k, dir), k)
  {
  }

  /** A writer moves on and may take the registry's mutex. */
  lemma WaitFrames(s: State, k: ObjectKey, mu: Option<ObjectKey>, w: Writer)
    requires WriterOf(s, k).Idle? && (mu == s.mu || s.mu.None?)
    ensures MapFrame(s, SetWriter(s.(mu := mu), k, w), k)
  {
  }

  lemma BeginFrames(s: State, k: ObjectKey, dir: string)
    requires MapEnabled(s, k, Begin(dir))
    ensures MapFrame(s, AfterBegin(s, k, dir), k)
  {
    if k !in s.entries || !Exists(s, s.entries[k]) {
      InstallFrames(s, k, dir);
    } else if s.heap[s.entries[k]].dir == dir {
      WaitFrames(s, k, s.mu, Installed(s.entries[k]));
    } else {
      WaitFrames(s, k, Some(k), Evicting(s.entries[k], dir));
    }
  }

  lemma ForgetFrames(s: State, k: ObjectKey)
    requires MapEnabled(s, k, Forget)
    ensures MapFrame(s, AfterForget(s, k), k)
  {
    if k in s.entries {
      TakeOutFrames(s, k, Removing(s.entries[k]));
    } else {
      WaitFrames(s, k, s.mu, Idle);
    }
  }

  lemma TakeOutFrames(s: State, k: ObjectKey, w: Writer)
    requires WriterOf(s, k).Idle?
    ensures MapFrame(s, SetWriter(s.(entries := s.entries - {k}), k, w), k)
  {
  }

  lemma RemovalFrames(s: State, k: ObjectKey, m: MapStep)
    requires MapEnabled(s, k, m) && !m.Begin? && !m.Forget?
    ensures MapFrame(s, AfterMap(s, k, m), k)
  {
  }

  lemma MapFrames(s: State, k: ObjectKey, m: MapStep)
    requires MapEnabled(s, k, m)
    ensures MapFrame(s, AfterMap(s, k, m), k)
  {
    match m
    case Begin(dir) => BeginFrames(s, k, dir);
    case Forget => ForgetFrames(s, k);
    case _ => RemovalFrames(s, k, m);
  }

  predicate RefreshFrame(s: State, t: State, k: ObjectKey) {
    var w := WriterOf(s, k);
    && t.readers == s.readers && t.entries == s.entries && t.mu == s.mu && t.latest == s.latest
    && t.writers == s.writers[k := WriterOf(t, k)]
    && !w.Idle? && !w.Removing? && Exists(s, w.eid) && |t.heap| == |s.heap|
    && var e := s.heap[w.eid];
    && var f := t.heap[w.eid];
    && t.heap == s.heap[w.eid := e.(sha := f.sha, held := f.held, writer := f.writer)]
    && (HoldsLock(w) || (e.writer.None? && e.readers == {}))
    && (|| t.mutexes == s.mutexes
        || (e.dir !in s.mutexes && t.mutexes == s.mutexes[e.dir := k])
        || (HoldsMutex(w) && t.mutexes == s.mutexes - {e.dir}))
  }

  lemma RefreshFrames(s: State, k: ObjectKey, f: RefreshStep)
    requires RefreshEnabled(s, k, f)
    ensures RefreshFrame(s, AfterRefresh(s, k, f), k)
  {
  }

  ghost predicate ReadFrame(s: State, t: State, r: nat) {
    && t.writers == s.writers && t.entries == s.entries && t.mu == s.mu && t.latest == s.latest
    && t.mutexes == s.mutexes && t.disk == s.disk && |t.heap| == |s.heap|
    && r in t.readers && t.readers == s.readers[r := t.readers[r]]
    && forall e: nat :: Exists(s, e) ==> t.heap[e] == s.heap[e].(readers := t.heap[e].readers)
  }

  lemma ReadFrames(s: State, r: nat, p: ReadStep)
    requires ReadEnabled(s, r, p)
    ensures ReadFrame(s, AfterRead(s, r, p), r)
  {
    var t := AfterRead(s, r, p);
    match p
    case LookUp(_, _) => ReaderFrames(s, r, t.readers[r]);
    case AcquireRead => ListFrames(s, s.readers[r].eid, s.heap[s.readers[r].eid].readers + {r}, r, t.readers[r]);
    case ReadFile => FileFrames(s, r);
    case ReadSha => ListFrames(s, s.readers[r].eid, s.heap[s.readers[r].eid].readers - {r}, r, t.readers[r]);
  }

  lemma FileFrames(s: State, r: nat)
    requires ReadEnabled(s, r, ReadFile)
    ensures ReadFrame(s, AfterRead(s, r, ReadFile), r)
  {
    var q := s.readers[r];
    var e := s.heap[q.eid];
    if e.dir in s.disk && q.path in s.disk[e.dir] {
      ReaderFrames(s, r,
        HasContent(q.key, q.path, q.eid, s.disk[e.dir][q.path], Settled(s, e.dir), Latest(s, q.eid)));
    } else {
      ListFrames(s, q.eid, e.readers - {r}, r, Failed(q.key));
    }
  }

  lemma ReaderFrames(s: State, r: nat, q: Reader)
    ensures ReadFrame(s, SetReader(s, r, q), r)
  {
  }

  lemma ListFrames(s: State, eid: nat, readers: set<nat>, r: nat, q: Reader)
    requires Exists(s, eid)
    ensures ReadFrame(s, SetReader(Put(s, eid, s.heap[eid].(readers := readers)), r, q), r)
  {
  }

  // Steps at the map.

  lemma MapOwn(s: State, k: ObjectKey, m: MapStep)
    requires MapEnabled(s, k, m) && WriterFacts(s, k)
    ensures InPlace(AfterMap(s, k, m), k) && HolderOk(AfterMap(s, k, m), k)
  {
    match m
    case Begin(dir) => BeginOwn(s, k, dir);
    case _ =>
  }

  lemma BeginOwn(s: State, k: ObjectKey, dir: string)
    requires MapEnabled(s, k, Begin(dir)) && WriterFacts(s, k)
    ensures InPlace(AfterBegin(s, k, dir), k) && HolderOk(AfterBegin(s, k, dir), k)
  {
    if k !in s.entries {
      InstallOwn(s, k, dir);
    } else {
      WaitOwn(s, k, s.mu, Installed(s.entries[k]));
      WaitOwn(s, k, Some(k), Evicting(s.entries[k], dir));
    }
  }

  lemma InstallOwn(s: State, k: ObjectKey, dir: string)
    ensures InPlace(Install(s, k, dir), k) && HolderOk(Install(s, k, dir), k)
  {
  }

  lemma WaitOwn(s: State, k: ObjectKey, mu: Option<ObjectKey>, w: Writer)
    requires k in s.entries && Exists(s, s.entries[k]) && (w.Installed? || (w.Evicting? && mu == Some(k)))
    requires w.eid == s.entries[k]
    ensures InPlace(SetWriter(s.(mu := mu), k, w), k) && HolderOk(SetWriter(s.(mu := mu), k, w), k)
  {
  }

  lemma MapOther(s: State, t: State, k: ObjectKey, l: ObjectKey)
    requires MapFrame(s, t, k) && l != k && InPlace(s, l) && HolderOk(s, l)
    requires WriterOf(s, k).Evicting? ==> s.mu == Some(k)
    ensures InPlace(t, l) && HolderOk(t, l)
  {
  }

  lemma MapLock(s: State, t: State, k: ObjectKey, eid: nat)
    requires MapFrame(s, t, k) && Exists(t, eid) && ReadersExist(s)
    requires Exists(s, eid) ==> LockOk(s, eid)
    ensures LockOk(t, eid)
  {
    forall r ensures r in t.heap[eid].readers <==> HoldsRead(t, r, eid) {
      assert Exists(s, eid) ==> (r in s.heap[eid].readers <==> HoldsRead(s, r, eid));
    }
  }

  lemma MapEntries(s: State, t: State, k: ObjectKey)
    requires EntriesOk(s) && ReadersExist(s) && MapFrame(s, t, k)
    ensures EntriesOk(t) && ReadersExist(t)
  {
  }

  // Steps of a refresh.

  lemma RefreshOwn(s: State, k: ObjectKey, f: RefreshStep)
    requires RefreshEnabled(s, k, f) && InPlace(s, k) && HolderOk(s, k)
    ensures InPlace(AfterRefresh(s, k, f), k) && HolderOk(AfterRefresh(s, k, f), k)
  {
  }

  lemma RefreshOther(s: State, t: State, k: ObjectKey, l: ObjectKey)
    requires RefreshFrame(s, t, k) && l != k && InPlace(s, l) && HolderOk(s, l) && HolderOk(s, k)
    ensures InPlace(t, l) && HolderOk(t, l)
  {
  }

  lemma RefreshEntries(s: State, t: State, k: ObjectKey)
    requires EntriesOk(s) && ReadersExist(s) && RefreshFrame(s, t, k)
    ensures EntriesOk(t) && ReadersExist(t)
  {
  }

  lemma RefreshLock(s: State, t: State, k: ObjectKey, eid: nat)
    requires RefreshFrame(s, t, k) && Exists(s, eid) && LockOk(s, eid) && HolderOk(s, k)
    requires eid == WriterOf(s, k).eid && t.heap[eid].writer.Some? ==>
        t.heap[eid].writer == Some(k) && HoldsLock(WriterOf(t, k)) && WriterOf(t, k).eid == eid
          && t.heap[eid].readers == {}
    ensures LockOk(t, eid)
  {
    forall r ensures r in t.heap[eid].readers <==> HoldsRead(t, r, eid) {
      assert r in s.heap[eid].readers <==> HoldsRead(s, r, eid);
    }
  }

  /** The writer of an entry after a step of its holder. */
  lemma RefreshLocked(s: State, k: ObjectKey, f: RefreshStep)
    requires RefreshEnabled(s, k, f) && HolderOk(s, k) && LockOk(s, WriterOf(s, k).eid)
    ensures var t, eid := AfterRefresh(s, k, f), WriterOf(s, k).eid;
      t.heap[eid].writer.Some? ==>
        t.heap[eid].writer == Some(k) && HoldsLock(WriterOf(t, k)) && WriterOf(t, k).eid == eid
          && t.heap[eid].readers == {}
  {
  }

  // Steps of a read.

  lemma ReadWriters(s: State, t: State, r: nat, k: ObjectKey)
    requires ReadFrame(s, t, r) && InPlace(s, k) && HolderOk(s, k)
    ensures InPlace(t, k) && HolderOk(t, k)
  {
  }

  /** A reader is in its entry's reader set while it holds the lock, and in no other. */
  predicate Enlisted(s: State, r: nat, eid: nat) {
    Exists(s, eid) && (r in s.heap[eid].readers <==> HoldsRead(s, r, eid))
  }

  lemma ReadEnlists(s: State, r: nat, p: ReadStep, eid: nat)
    requires ReadEnabled(s, r, p) && Enlisted(s, r, eid)
    ensures Enlisted(AfterRead(s, r, p), r, eid)
  {
  }

  lemma ReadOthers(s: State, r: nat, p: ReadStep, eid: nat)
    requires ReadEnabled(s, r, p) && Exists(s, eid)
    ensures AfterRead(s, r, p).heap[eid].readers - {r} == s.heap[eid].readers - {r}
    ensures s.heap[eid].writer.Some? ==> AfterRead(s, r, p).heap[eid].readers <= s.heap[eid].readers
  {
  }

  lemma ReadLock(s: State, t: State, r: nat, eid: nat)
    requires ReadFrame(s, t, r) && Exists(s, eid) && LockOk(s, eid) && Enlisted(t, r, eid)
    requires t.heap[eid].readers - {r} == s.heap[eid].readers - {r}
    requires s.heap[eid].writer.Some? ==> t.heap[eid].readers <= s.heap[eid].readers
    ensures LockOk(t, eid)
  {
    forall q ensures q in t.heap[eid].readers <==> HoldsRead(t, q, eid) {
      assert q in s.heap[eid].readers <==> HoldsRead(s, q, eid);
      assert q != r ==> (q in t.heap[eid].readers - {r} <==> q in s.heap[eid].readers - {r});
    }
  }

  lemma ReadEntries(s: State, r: nat, p: ReadStep)
    requires EntriesOk(s) && ReadersExist(s) && ReadEnabled(s, r, p)
    ensures EntriesOk(AfterRead(s, r, p)) && ReadersExist(AfterRead(s, r, p))
  {
    ReadFrames(s, r, p);
  }

  lemma WriterStep(s: State, step: Step, l: ObjectKey)
    requires LocksOk(s) && Enabled(s, step)
    ensures InPlace(After(s, step), l) && HolderOk(After(s, step), l)
  {
    ActorFacts(s, step);
    assert InPlace(s, l) && HolderOk(s, l);
    match step
    case AtMap(k, m) =>
      MapFrames(s, k, m);
      if k == l { MapOwn(s, k, m); } else { MapOther(s, After(s, step), k, l); }
    case Refresh(k, f) =>
      RefreshFrames(s, k, f);
      if k == l { RefreshOwn(s, k, f); } else { RefreshOther(s, After(s, step), k, l); }
    case Read(r, p) =>
      ReadFrames(s, r, p);
      ReadWriters(s, After(s, step), r, l);
  }

  lemma LockStep(s: State, step: Step, eid: nat)
    requires LocksOk(s) && Enabled(s, step) && Exists(After(s, step), eid)
    ensures LockOk(After(s, step), eid)
  {
    ActorFacts(s, step);
    match step
    case AtMap(k, m) =>
      MapFrames(s, k, m);
      MapLock(s, After(s, step), k, eid);
    case Refresh(k, f) =>
      RefreshFrames(s, k, f);
      RefreshLocked(s, k, f);
      RefreshLock(s, After(s, step), k, eid);
    case Read(r, p) =>
      ReadFrames(s, r, p);
      assert Exists(s, eid) && LockOk(s, eid);
      assert r in s.heap[eid].readers <==> HoldsRead(s, r, eid);
      ReadEnlists(s, r, p, eid);
      ReadOthers(s, r, p, eid);
      ReadLock(s, After(s, step), r, eid);
  }

  lemma EntriesStep(s: State, step: Step)
    requires LocksOk(s) && Enabled(s, step)
    ensures EntriesOk(After(s, step)) && ReadersExist(After(s, step))
  {
    match step
    case AtMap(k, m) =>
      MapFrames(s, k, m);
      MapEntries(s, After(s, step), k);
    case Refresh(k, f) =>
      RefreshFrames(s, k, f);
      RefreshEntries(s, After(s, step), k);
    case Read(r, p) => ReadEntries(s, r, p);
  }

  lemma LocksStep(s: State, step: Step)
    requires LocksOk(s) && Enabled(s, step)
    ensures LocksOk(After(s, step))
  {
    EntriesStep(s, step);
    forall k ensures InPlace(After(s, step), k) && HolderOk(After(s, step), k) {
      WriterStep(s, step, k);
    }
    forall e | Exists(After(s, step), e) ensures LockOk(After(s, step), e) {
      LockStep(s, step, e);
    }
  }
}
