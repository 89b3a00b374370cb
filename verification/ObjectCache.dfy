/**
 The object cache under concurrency: one writer for each key (its reconciler), any number of
 readers, at the granularity of the locks. The registry's mutex makes lookup, install and
 forget atomic; an entry's read-write lock covers a refresh, in which tag and content are
 stored one after the other, and a read, in which they are read one after the other.
 */
module ObjectCache {
  import opened Wrappers
  import opened GoStrings
  import opened ObjectEntries

  /**
   An entry on the heap with the state of its lock; `url` is that of the fetcher it holds. It
   outlives its place in the map.
   */
  datatype Entry = Entry(
    url: string, mode: Mode, etag: string, content: Bytes, writer: Option<ObjectKey>, readers: set<nat>)
  {
    function Pair(): (Bytes, string) {
      (content, etag)
    }
  }

  /**
   Progress of `EnsureObjectCached` for one key; `before` is the pair found under the lock,
   `asOf` the upstream resource at the moment of the fetch.
   */
  datatype Writer =
    | Idle
    | Installed(eid: nat, mode: Mode, url: string)
    | Locked(eid: nat, mode: Mode, url: string, before: (Bytes, string))
    | Answered(eid: nat, body: Bytes, etag: string, before: (Bytes, string), asOf: Resource)
    | Tagged(eid: nat, body: Bytes, etag: string, before: (Bytes, string), asOf: Resource)
    | Finished(eid: nat, result: Result<string, CacheError>, before: (Bytes, string), asOf: Resource)

  /** Progress of one `ReadObject` call. */
  datatype Reader =
    | Found(key: ObjectKey, eid: nat)
    | Reading(key: ObjectKey, eid: nat)
    | HasContent(key: ObjectKey, eid: nat, content: Bytes)
    | Done(key: ObjectKey, eid: nat, content: Bytes, etag: string)
    | Failed(key: ObjectKey)

  /** A response with status 200 that a refresh of the entry received. */
  datatype Response = Response(eid: nat, content: Bytes, etag: string)

  datatype State = State(
    objects: map<ObjectKey, nat>, heap: seq<Entry>, writers: map<ObjectKey, Writer>, readers: map<nat, Reader>,
    upstream: map<string, Resource>, served: set<Response>)

  function WriterOf(s: State, k: ObjectKey): Writer {
    if k in s.writers then s.writers[k] else Idle
  }

  // ---- steps ------------------------------------------------------------------------------

  datatype Step =
    | Begin(k: ObjectKey, mode: Mode, url: string)
    | Acquire(k: ObjectKey)
    | ProbeBucket(k: ObjectKey, reachable: bool)
    | FetchUrl(k: ObjectKey, reply: FetchResult)
    | StoreTag(k: ObjectKey)
    | StoreContent(k: ObjectKey)
    | Release(k: ObjectKey)
    | Forget(k: ObjectKey)
    | LookUp(r: nat, key: ObjectKey)
    | AcquireRead(r: nat)
    | ReadContent(r: nat)
    | ReadTag(r: nat)
    | ReadBucket(r: nat, reply: FetchResult)
    | Publish(url: string, res: Resource)

  /** A server may fail; otherwise it answers for the resource it has, and 304 only to a matching tag. */
  predicate MayAnswer(s: State, url: string, ifNoneMatch: string, reply: FetchResult) {
    reply.FetchError? || (url in s.upstream && reply == Answer(s.upstream[url], ifNoneMatch))
    || (url in s.upstream && reply == Fetched(s.upstream[url].body, s.upstream[url].etag))
  }

  predicate EntryExists(s: State, eid: nat) {
    eid < |s.heap|
  }

  predicate Enabled(s: State, step: Step) {
    match step
    case Begin(k, _, _) => WriterOf(s, k).Idle?
    case Acquire(k) =>
      var w := WriterOf(s, k);
      w.Installed? && EntryExists(s, w.eid) && s.heap[w.eid].writer.None? && s.heap[w.eid].readers == {}
    case ProbeBucket(k, _) => WriterOf(s, k).Locked? && WriterOf(s, k).mode.Bucket?
    case FetchUrl(k, reply) =>
      var w := WriterOf(s, k);
      w.Locked? && w.mode.URL? && EntryExists(s, w.eid) && MayAnswer(s, w.url, s.heap[w.eid].etag, reply)
    case StoreTag(k) => WriterOf(s, k).Answered? && EntryExists(s, WriterOf(s, k).eid)
    case StoreContent(k) => WriterOf(s, k).Tagged? && EntryExists(s, WriterOf(s, k).eid)
    case Release(k) => WriterOf(s, k).Finished? && EntryExists(s, WriterOf(s, k).eid)
    case Forget(k) => WriterOf(s, k).Idle?
    case LookUp(r, _) => r !in s.readers
    case AcquireRead(r) =>
      r in s.readers && s.readers[r].Found? && EntryExists(s, s.readers[r].eid) && s.heap[s.readers[r].eid].writer.None?
    case ReadContent(r) =>
      r in s.readers && s.readers[r].Reading? && EntryExists(s, s.readers[r].eid) && s.heap[s.readers[r].eid].mode.URL?
    case ReadTag(r) => r in s.readers && s.readers[r].HasContent? && EntryExists(s, s.readers[r].eid)
    case ReadBucket(r, _) =>
      r in s.readers && s.readers[r].Reading? && EntryExists(s, s.readers[r].eid)
        && s.heap[s.readers[r].eid].mode.Bucket?
    case Publish(_, _) => true
  }

  function Put(s: State, eid: nat, e: Entry): State
    requires EntryExists(s, eid)
  {
    s.(heap := s.heap[eid := e])
  }

  function Write(s: State, k: ObjectKey, w: Writer): State {
    s.(writers := s.writers[k := w])
  }

  function Read(s: State, r: nat, p: Reader): State {
    s.(readers := s.readers[r := p])
  }

  function After(s: State, step: Step): State
    requires Enabled(s, step)
  {
    match step
    case Begin(k, mode, url) =>
      if k in s.objects && EntryExists(s, s.objects[k]) && s.heap[s.objects[k]].mode == mode then
        Write(s, k, Installed(s.objects[k], mode, url))
      else
        Write(s, k, Installed(|s.heap|, mode, url)).(
          heap := s.heap + [Entry("", mode, "", [], None, {})], objects := s.objects[k := |s.heap|])
    case Acquire(k) =>
      var w := WriterOf(s, k);
      var e := s.heap[w.eid];
      Write(Put(s, w.eid, e.(url := w.url, writer := Some(k))), k, Locked(w.eid, w.mode, w.url, e.Pair()))
    case ProbeBucket(k, reachable) =>
      var w := WriterOf(s, k);
      Write(s, k, Finished(w.eid, if reachable then Ok("") else Err(BackendFailed), w.before, Resource([], "")))
    case FetchUrl(k, reply) =>
      var w := WriterOf(s, k);
      var asOf := if w.url in s.upstream then s.upstream[w.url] else Resource([], "");
      (match reply
       case Fetched(body, etag) =>
         Write(s, k, Answered(w.eid, body, etag, w.before, asOf)).(served := s.served + {Response(w.eid, body, etag)})
       case NotModified => Write(s, k, Finished(w.eid, Ok(s.heap[w.eid].etag), w.before, asOf))
       case FetchError => Write(s, k, Finished(w.eid, Err(BackendFailed), w.before, asOf)))
    case StoreTag(k) =>
      var w := WriterOf(s, k);
      Write(Put(s, w.eid, s.heap[w.eid].(etag := w.etag)), k, Tagged(w.eid, w.body, w.etag, w.before, w.asOf))
    case StoreContent(k) =>
      var w := WriterOf(s, k);
      Write(Put(s, w.eid, s.heap[w.eid].(content := w.body)), k, Finished(w.eid, Ok(w.etag), w.before, w.asOf))
    case Release(k) =>
      var w := WriterOf(s, k);
      Write(Put(s, w.eid, s.heap[w.eid].(writer := None)), k, Idle)
    case Forget(k) => Write(s.(objects := s.objects - {k}), k, Idle)
    case LookUp(r, key) => Read(s, r, if key in s.objects then Found(key, s.objects[key]) else Failed(key))
    case AcquireRead(r) =>
      var p := s.readers[r];
      var e := s.heap[p.eid];
      Read(Put(s, p.eid, e.(readers := e.readers + {r})), r, Reading(p.key, p.eid))
    case ReadContent(r) =>
      var p := s.readers[r];
      var e := s.heap[p.eid];
      if e.content == [] then Read(Put(s, p.eid, e.(readers := e.readers - {r})), r, Failed(p.key))
      else Read(s, r, HasContent(p.key, p.eid, e.content))
    case ReadTag(r) =>
      var p := s.readers[r];
      var e := s.heap[p.eid];
      Read(Put(s, p.eid, e.(readers := e.readers - {r})), r, Done(p.key, p.eid, p.content, e.etag))
    case ReadBucket(r, reply) =>
      var p := s.readers[r];
      var e := s.heap[p.eid];
      Read(Put(s, p.eid, e.(readers := e.readers - {r})), r,
        if reply.Fetched? then Done(p.key, p.eid, reply.content, reply.etag) else Failed(p.key))
    case Publish(url, res) => s.(upstream := s.upstream[url := res])
  }

  // ---- invariant --------------------------------------------------------------------------

  /** The writer holds the entry's write lock. */
  predicate Holds(w: Writer, eid: nat) {
    !w.Idle? && !w.Installed? && w.eid == eid
  }

  predicate HoldsRead(s: State, r: nat, eid: nat) {
    r in s.readers && (s.readers[r].Reading? || s.readers[r].HasContent?) && s.readers[r].eid == eid
  }

  /** Each key has an entry of its own, and a refresh works on the entry of its key. */
  ghost predicate MapOk(s: State) {
    && (forall k :: k in s.objects ==> EntryExists(s, s.objects[k]))
    && (forall k, l :: k in s.objects && l in s.objects && s.objects[k] == s.objects[l] ==> k == l)
    && (forall k :: InPlace(s, k))
  }

  predicate InPlace(s: State, k: ObjectKey) {
    !WriterOf(s, k).Idle? ==> k in s.objects && s.objects[k] == WriterOf(s, k).eid
  }

  /** The lock of one entry: held by the writer that says so, and a writer excludes all readers. */
  ghost predicate LockOk(s: State, eid: nat)
    requires EntryExists(s, eid)
  {
    var e := s.heap[eid];
    && (e.writer.Some? ==> e.readers == {} && Holds(WriterOf(s, e.writer.value), eid))
    && (forall r :: r in e.readers <==> HoldsRead(s, r, eid))
  }

  ghost predicate LocksOk(s: State) {
    && (forall e :: EntryExists(s, e) ==> LockOk(s, e))
    && (forall k :: HolderOk(s, k))
    && (forall r :: r in s.readers && !s.readers[r].Failed? ==> EntryExists(s, s.readers[r].eid))
  }

  predicate HolderOk(s: State, k: ObjectKey) {
    var w := WriterOf(s, k);
    !w.Idle? && !w.Installed? ==> EntryExists(s, w.eid) && s.heap[w.eid].writer == Some(k)
  }

  /** The pair is the blank one or that of a single response. */
  predicate Whole(s: State, eid: nat, content: Bytes, etag: string) {
    (content == [] && etag == "") || Response(eid, content, etag) in s.served
  }

  /** A writer has stored the new tag and not yet the new content. */
  predicate MidStore(s: State, eid: nat)
    requires EntryExists(s, eid)
  {
    s.heap[eid].writer.Some? && WriterOf(s, s.heap[eid].writer.value).Tagged?
  }

  ghost predicate WriterOk(s: State, w: Writer) {
    match w
    case Idle => true
    case Installed(eid, mode, _) => EntryExists(s, eid) && s.heap[eid].mode == mode
    case Locked(eid, mode, _, before) => EntryExists(s, eid) && s.heap[eid].mode == mode && s.heap[eid].Pair() == before
    case Answered(eid, body, etag, before, asOf) =>
      EntryExists(s, eid) && s.heap[eid].mode.URL? && Response(eid, body, etag) in s.served
      && s.heap[eid].Pair() == before && body == asOf.body && etag == asOf.etag
    case Tagged(eid, body, etag, before, asOf) =>
      EntryExists(s, eid) && s.heap[eid].mode.URL? && Response(eid, body, etag) in s.served
      && s.heap[eid].etag == etag && body == asOf.body && etag == asOf.etag
    case Finished(eid, result, before, asOf) =>
      EntryExists(s, eid) && (result.Err? ==> s.heap[eid].Pair() == before)
      && (s.heap[eid].mode.URL? && result.Ok? ==> result.value == s.heap[eid].etag == asOf.etag)
  }

  predicate EntryOk(s: State, eid: nat)
    requires EntryExists(s, eid)
  {
    !MidStore(s, eid) ==> Whole(s, eid, s.heap[eid].content, s.heap[eid].etag)
  }

  ghost predicate PairsOk(s: State) {
    && (forall k :: WriterOk(s, WriterOf(s, k)))
    && (forall e :: EntryExists(s, e) ==> EntryOk(s, e))
  }

  ghost predicate ReaderOk(s: State, r: nat)
    requires r in s.readers
  {
    match s.readers[r]
    case HasContent(_, eid, content) =>
      EntryExists(s, eid) && s.heap[eid].mode.URL? && content == s.heap[eid].content && content != []
    case Done(_, eid, content, etag) =>
      EntryExists(s, eid) && (s.heap[eid].mode.URL? ==> content != [] && Response(eid, content, etag) in s.served)
    case _ => true
  }

  ghost predicate Inv(s: State) {
    MapOk(s) && LocksOk(s) && PairsOk(s) && forall r :: r in s.readers ==> ReaderOk(s, r)
  }

  const START := State(map[], [], map[], map[], map[], {})

  predicate ByWriter(step: Step) {
    step.Begin? || step.Acquire? || step.ProbeBucket? || step.FetchUrl? || step.StoreTag? || step.StoreContent?
    || step.Release? || step.Forget?
  }

  predicate ByReader(step: Step) {
    step.LookUp? || step.AcquireRead? || step.ReadContent? || step.ReadTag? || step.ReadBucket?
  }

  ghost predicate WriterFacts(s: State, k: ObjectKey) {
    && WriterOk(s, WriterOf(s, k)) && HolderOk(s, k) && InPlace(s, k)
    && (!WriterOf(s, k).Idle? ==> EntryExists(s, WriterOf(s, k).eid) && LockOk(s, WriterOf(s, k).eid))
  }

  ghost predicate ReaderFacts(s: State, r: nat) {
    r in s.readers ==>
      && ReaderOk(s, r)
      && (!s.readers[r].Failed? ==> EntryExists(s, s.readers[r].eid) && LockOk(s, s.readers[r].eid))
  }

  /** The invariant where a step acts. */
  lemma ActorFacts(s: State, step: Step)
    requires Inv(s)
    ensures ByWriter(step) ==> WriterFacts(s, step.k)
    ensures ByReader(step) ==> ReaderFacts(s, step.r)
  {
    if ByWriter(step) {
      assert WriterOk(s, WriterOf(s, step.k)) && HolderOk(s, step.k) && InPlace(s, step.k);
    }
  }

  // What a step leaves alone.

  /** A step of `k` changes its own progress and at most the entry whose lock it holds or takes. */
  predicate WriterFrame(s: State, t: State, k: ObjectKey) {
    && t.readers == s.readers && t.upstream == s.upstream && s.served <= t.served
    && t.writers == s.writers[k := WriterOf(t, k)]
    && (Kept(s, t, k) || Grown(s, t, k) || Held(s, t, k))
  }

  predicate Kept(s: State, t: State, k: ObjectKey) {
    t.heap == s.heap && (t.objects == s.objects || (t.objects == s.objects - {k} && WriterOf(t, k).Idle?))
    && (Idling(WriterOf(s, k)) || (!Idling(WriterOf(t, k)) && WriterOf(t, k).eid == WriterOf(s, k).eid))
  }

  /** The writer holds no lock. */
  predicate Idling(w: Writer) {
    w.Idle? || w.Installed?
  }

  predicate Grown(s: State, t: State, k: ObjectKey) {
    && |t.heap| == |s.heap| + 1 && t.objects == s.objects[k := |s.heap|] && WriterOf(s, k).Idle?
    && t.heap == s.heap + [Entry("", t.heap[|s.heap|].mode, "", [], None, {})]
  }

  predicate Held(s: State, t: State, k: ObjectKey) {
    var w := WriterOf(s, k);
    && !w.Idle? && EntryExists(s, w.eid) && |t.heap| == |s.heap| && t.objects == s.objects
    && t.heap == s.heap[w.eid := t.heap[w.eid]]
    && t.heap[w.eid].mode == s.heap[w.eid].mode && t.heap[w.eid].readers == s.heap[w.eid].readers
    && (!w.Installed? || (s.heap[w.eid].writer.None? && s.heap[w.eid].readers == {}))
  }

  lemma BeginFrame(s: State, step: Step)
    requires Enabled(s, step) && (step.Begin? || step.Forget? || step.ProbeBucket?)
    ensures WriterFrame(s, After(s, step), step.k)
  {
  }

  lemma RefreshFrame(s: State, step: Step)
    requires Enabled(s, step)
      && (step.Acquire? || step.FetchUrl? || step.StoreTag? || step.StoreContent? || step.Release?)
    ensures WriterFrame(s, After(s, step), step.k)
  {
  }

  /** A reader changes its own progress and its place in one reader set. */
  ghost predicate ReaderFrame(s: State, t: State, r: nat) {
    && t.objects == s.objects && t.writers == s.writers && t.upstream == s.upstream && t.served == s.served
    && |t.heap| == |s.heap| && r in t.readers && t.readers == s.readers[r := t.readers[r]]
    && forall e: nat :: EntryExists(s, e) ==> t.heap[e] == s.heap[e].(readers := t.heap[e].readers)
  }

  lemma ReadFrame(s: State, step: Step)
    requires Enabled(s, step) && ByReader(step)
    ensures ReaderFrame(s, After(s, step), step.r)
  {
  }

  ghost predicate Frame(s: State, step: Step, t: State) {
    if ByWriter(step) then WriterFrame(s, t, step.k)
    else if ByReader(step) then ReaderFrame(s, t, step.r)
    else t == s.(upstream := t.upstream)
  }

  lemma Frames(s: State, step: Step)
    requires Enabled(s, step)
    ensures Frame(s, step, After(s, step))
  {
    if ByReader(step) {
      ReadFrame(s, step);
    } else if step.Begin? || step.Forget? || step.ProbeBucket? {
      BeginFrame(s, step);
    } else if ByWriter(step) {
      RefreshFrame(s, step);
    }
  }

  // The map.

  lemma MapOwn(s: State, step: Step)
    requires ByWriter(step) && Enabled(s, step) && InPlace(s, step.k)
    ensures InPlace(After(s, step), step.k)
  {
  }

  lemma MapKeeps(s: State, step: Step, t: State)
    requires Inv(s) && Frame(s, step, t) && (ByWriter(step) ==> InPlace(t, step.k))
    ensures MapOk(t)
  {
    forall k ensures InPlace(t, k) {
      assert InPlace(s, k);
    }
  }

  lemma MapStep(s: State, step: Step)
    requires Inv(s) && Enabled(s, step)
    ensures MapOk(After(s, step))
  {
    Frames(s, step);
    if ByWriter(step) {
      assert InPlace(s, step.k);
      MapOwn(s, step);
    }
    MapKeeps(s, step, After(s, step));
  }

  // The locks.

  lemma LockStepOfWriter(s: State, t: State, k: ObjectKey, eid: nat)
    requires WriterFrame(s, t, k) && EntryExists(t, eid)
    requires EntryExists(s, eid) ==> LockOk(s, eid)
    requires EntryExists(s, eid) && t.heap[eid].writer == Some(k) ==>
      Holds(WriterOf(t, k), eid) && t.heap[eid].readers == {}
    requires EntryExists(s, eid) && Holds(WriterOf(s, k), eid) ==>
      t.heap[eid].writer.None? || t.heap[eid].writer == Some(k)
    requires EntryExists(s, eid) && t.heap[eid].writer != s.heap[eid].writer ==>
        t.heap[eid].writer.None? || t.heap[eid].writer == Some(k)
    requires forall r :: r in s.readers && !s.readers[r].Failed? ==> EntryExists(s, s.readers[r].eid)
    ensures LockOk(t, eid)
  {
    forall r ensures r in t.heap[eid].readers <==> HoldsRead(t, r, eid) {
      assert EntryExists(s, eid) ==> (r in s.heap[eid].readers <==> HoldsRead(s, r, eid));
    }
  }

  lemma WriterLocks(s: State, step: Step, eid: nat)
    requires ByWriter(step) && Enabled(s, step) && EntryExists(s, eid) && LockOk(s, eid) && HolderOk(s, step.k)
    ensures var t := After(s, step);
      && (t.heap[eid].writer == Some(step.k) ==> Holds(WriterOf(t, step.k), eid) && t.heap[eid].readers == {})
      && (Holds(WriterOf(s, step.k), eid) ==> t.heap[eid].writer.None? || t.heap[eid].writer == Some(step.k))
      && (t.heap[eid].writer != s.heap[eid].writer ==> t.heap[eid].writer.None? || t.heap[eid].writer == Some(step.k))
  {
  }

  predicate Enlisted(s: State, r: nat, eid: nat) {
    EntryExists(s, eid) && (r in s.heap[eid].readers <==> HoldsRead(s, r, eid))
  }

  lemma ReadEnlists(s: State, step: Step, eid: nat)
    requires ByReader(step) && Enabled(s, step) && Enlisted(s, step.r, eid)
    ensures Enlisted(After(s, step), step.r, eid)
    ensures After(s, step).heap[eid].readers - {step.r} == s.heap[eid].readers - {step.r}
    ensures s.heap[eid].writer.Some? ==> After(s, step).heap[eid].readers <= s.heap[eid].readers
  {
  }

  lemma LockStepOfReader(s: State, t: State, r: nat, eid: nat)
    requires ReaderFrame(s, t, r) && EntryExists(s, eid) && LockOk(s, eid) && Enlisted(t, r, eid)
    requires t.heap[eid].readers - {r} == s.heap[eid].readers - {r}
    requires s.heap[eid].writer.Some? ==> t.heap[eid].readers <= s.heap[eid].readers
    ensures LockOk(t, eid)
  {
    forall q ensures q in t.heap[eid].readers <==> HoldsRead(t, q, eid) {
      assert q in s.heap[eid].readers <==> HoldsRead(s, q, eid);
      assert q != r ==> (q in t.heap[eid].readers - {r} <==> q in s.heap[eid].readers - {r});
    }
  }

  lemma UpstreamLocks(s: State, t: State, eid: nat)
    requires t == s.(upstream := t.upstream) && EntryExists(s, eid) && LockOk(s, eid)
    ensures LockOk(t, eid)
  {
    forall r ensures r in t.heap[eid].readers <==> HoldsRead(t, r, eid) {
      assert r in s.heap[eid].readers <==> HoldsRead(s, r, eid);
    }
  }

  lemma LockStep(s: State, step: Step, eid: nat)
    requires Inv(s) && Enabled(s, step) && EntryExists(After(s, step), eid)
    ensures LockOk(After(s, step), eid)
  {
    ActorFacts(s, step);
    Frames(s, step);
    assert EntryExists(s, eid) ==> LockOk(s, eid);
    if ByWriter(step) {
      if EntryExists(s, eid) {
        WriterLocks(s, step, eid);
      }
      LockStepOfWriter(s, After(s, step), step.k, eid);
    } else if ByReader(step) {
      assert Enlisted(s, step.r, eid);
      ReadEnlists(s, step, eid);
      LockStepOfReader(s, After(s, step), step.r, eid);
    } else {
      UpstreamLocks(s, After(s, step), eid);
    }
  }

  lemma HolderOwn(s: State, step: Step)
    requires ByWriter(step) && Enabled(s, step) && HolderOk(s, step.k)
    ensures HolderOk(After(s, step), step.k)
  {
  }

  lemma HolderOther(s: State, step: Step, t: State, k: ObjectKey)
    requires Frame(s, step, t) && HolderOk(s, k) && !(ByWriter(step) && step.k == k)
    requires ByWriter(step) ==> HolderOk(s, step.k)
    ensures HolderOk(t, k)
  {
  }

  lemma HolderStep(s: State, step: Step, k: ObjectKey)
    requires Inv(s) && Enabled(s, step)
    ensures HolderOk(After(s, step), k)
  {
    ActorFacts(s, step);
    Frames(s, step);
    assert HolderOk(s, k);
    if ByWriter(step) && step.k == k {
      HolderOwn(s, step);
    } else {
      HolderOther(s, step, After(s, step), k);
    }
  }

  // The pairs.

  /** A writer that holds its entry's lock is the only one to change that entry. */
  lemma WriterStepOther(s: State, step: Step, t: State, k: ObjectKey)
    requires Frame(s, step, t) && WriterOk(s, WriterOf(s, k)) && HolderOk(s, k) && !(ByWriter(step) && step.k == k)
    requires ByWriter(step) ==> HolderOk(s, step.k)
    ensures WriterOf(t, k) == WriterOf(s, k) && WriterOk(t, WriterOf(t, k))
  {
  }

  lemma WriterStepOwn(s: State, step: Step, k: ObjectKey)
    requires ByWriter(step) && step.k == k && Enabled(s, step) && WriterFacts(s, k)
    ensures WriterOk(After(s, step), WriterOf(After(s, step), k))
  {
  }

  lemma WriterStep(s: State, step: Step, k: ObjectKey)
    requires Inv(s) && Enabled(s, step)
    ensures WriterOk(After(s, step), WriterOf(After(s, step), k))
  {
    ActorFacts(s, step);
    if ByWriter(step) && step.k == k {
      WriterStepOwn(s, step, k);
    } else {
      Frames(s, step);
      assert WriterOk(s, WriterOf(s, k)) && HolderOk(s, k);
      WriterStepOther(s, step, After(s, step), k);
    }
  }

  /** The entry that the writer works on. */
  lemma EntryOwn(s: State, step: Step)
    requires ByWriter(step) && Enabled(s, step) && WriterFacts(s, step.k) && !WriterOf(s, step.k).Idle?
    requires EntryOk(s, WriterOf(s, step.k).eid)
    ensures EntryExists(After(s, step), WriterOf(s, step.k).eid) && EntryOk(After(s, step), WriterOf(s, step.k).eid)
  {
  }

  lemma EntryOther(s: State, step: Step, t: State, eid: nat)
    requires Frame(s, step, t) && EntryExists(t, eid)
    requires EntryExists(s, eid) ==> LockOk(s, eid) && EntryOk(s, eid)
    requires ByWriter(step) ==> HolderOk(s, step.k) && (WriterOf(s, step.k).Idle? || WriterOf(s, step.k).eid != eid)
    ensures EntryOk(t, eid)
  {
  }

  lemma EntryStep(s: State, step: Step, eid: nat)
    requires Inv(s) && Enabled(s, step) && EntryExists(After(s, step), eid)
    ensures EntryOk(After(s, step), eid)
  {
    ActorFacts(s, step);
    assert EntryExists(s, eid) ==> LockOk(s, eid) && EntryOk(s, eid);
    if ByWriter(step) && !WriterOf(s, step.k).Idle? && WriterOf(s, step.k).eid == eid {
      EntryOwn(s, step);
    } else {
      Frames(s, step);
      EntryOther(s, step, After(s, step), eid);
    }
  }

  /** A read lock keeps writers out, so the pair stays as it is until the lock is given back. */
  lemma ReaderExcludesWriter(s: State, r: nat, eid: nat)
    requires Inv(s) && HoldsRead(s, r, eid)
    ensures EntryExists(s, eid) && s.heap[eid].writer.None? && r in s.heap[eid].readers
    ensures Whole(s, eid, s.heap[eid].content, s.heap[eid].etag)
  {
    assert LockOk(s, eid) && EntryOk(s, eid);
  }

  ghost predicate ReaderSafe(s: State, r: nat)
    requires r in s.readers
  {
    ReaderOk(s, r) && (!s.readers[r].Failed? ==> EntryExists(s, s.readers[r].eid))
  }

  lemma ReaderStepOther(s: State, step: Step, t: State, r: nat)
    requires Inv(s) && Frame(s, step, t) && r in s.readers && !(ByReader(step) && step.r == r)
    ensures r in t.readers && ReaderSafe(t, r)
  {
    assert ReaderOk(s, r);
    var p := s.readers[r];
    if ByWriter(step) {
      assert HolderOk(s, step.k);
    }
    if p.HasContent? {
      assert HoldsRead(s, r, p.eid);
      ReaderExcludesWriter(s, r, p.eid);
    }
  }

  lemma ReaderStepOwn(s: State, step: Step, r: nat)
    requires Inv(s) && Enabled(s, step) && ByReader(step) && step.r == r
    ensures ReaderSafe(After(s, step), r)
  {
    if r in s.readers && (s.readers[r].Reading? || s.readers[r].HasContent?) {
      assert ReaderOk(s, r);
      assert HoldsRead(s, r, s.readers[r].eid);
      ReaderExcludesWriter(s, r, s.readers[r].eid);
    }
  }

  lemma ReaderStep(s: State, step: Step, r: nat)
    requires Inv(s) && Enabled(s, step) && r in After(s, step).readers
    ensures ReaderSafe(After(s, step), r)
  {
    if ByReader(step) && step.r == r {
      ReaderStepOwn(s, step, r);
    } else {
      Frames(s, step);
      ReaderStepOther(s, step, After(s, step), r);
    }
  }

  lemma InvStep(s: State, step: Step)
    requires Inv(s) && Enabled(s, step)
    ensures Inv(After(s, step))
  {
    var s' := After(s, step);
    MapStep(s, step);
    forall e | EntryExists(s', e) ensures LockOk(s', e) && EntryOk(s', e) {
      LockStep(s, step, e);
      EntryStep(s, step, e);
    }
    forall k ensures HolderOk(s', k) && WriterOk(s', WriterOf(s', k)) {
      HolderStep(s, step, k);
      WriterStep(s, step, k);
    }
    forall r | r in s'.readers ensures ReaderSafe(s', r) {
      ReaderStep(s, step, r);
    }
  }
}
