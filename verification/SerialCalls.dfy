/**
 A call that nothing disturbs goes through the steps of the concurrent models and ends where
 the sequential specifications say: the two descriptions of each cache are of one program.
 */
module SerialCalls {
  import opened Wrappers
  import E = ObjectEntries
  import O = ObjectCache
  import OT = ObjectCacheTheorems
  import R = GitRegistry
  import G = GitCache
  import GT = GitTheorems

  // ---- the object cache -------------------------------------------------------------------

  /** The value a refresh of the key in this mode starts from. */
  function Found(s: O.State, k: E.ObjectKey, mode: E.Mode): E.EntryValue {
    if k in s.objects && O.EntryExists(s, s.objects[k]) && s.heap[s.objects[k]].mode == mode then
      var e := s.heap[s.objects[k]];
      E.EntryValue(mode, None, e.etag, e.content)
    else E.EntryValue(mode, None, "", [])
  }

  /** Nobody holds the lock of the key's entry. */
  predicate Undisturbed(s: O.State, k: E.ObjectKey) {
    && O.WriterOf(s, k).Idle?
    && (k in s.objects && O.EntryExists(s, s.objects[k]) ==>
        s.heap[s.objects[k]].writer.None? && s.heap[s.objects[k]].readers == {})
  }

  /** The key's writer holds the lock of its entry, whose pair is the one found. */
  predicate HasLocked(t: O.State, k: E.ObjectKey, mode: E.Mode, url: string, pair: (string, string)) {
    var w := O.WriterOf(t, k);
    && w.Locked? && w.mode == mode && w.url == url && k in t.objects && t.objects[k] == w.eid
    && O.EntryExists(t, w.eid) && t.heap[w.eid].Pair() == pair == w.before
  }

  /** The state after a refresh holds the specified pair and result. */
  predicate HasRefreshed(t: O.State, k: E.ObjectKey, e: E.EntryValue, fetcher: E.Fetcher) {
    var (after, result) := E.Refreshed(e, fetcher);
    var w := O.WriterOf(t, k);
    && w.Finished? && w.result == result && O.EntryExists(t, w.eid)
    && k in t.objects && t.objects[k] == w.eid && t.heap[w.eid].Pair() == (after.content, after.etag)
  }

  lemma LockAlone(s: O.State, k: E.ObjectKey, mode: E.Mode, url: string) returns (t: O.State)
    requires Undisturbed(s, k)
    ensures OT.Leads(s, [O.Begin(k, mode, url), O.Acquire(k)], t)
    ensures HasLocked(t, k, mode, url, (Found(s, k, mode).content, Found(s, k, mode).etag)) && t.upstream == s.upstream
  {
    var s1 := O.After(s, O.Begin(k, mode, url));
    assert O.WriterOf(s1, k).Installed? && O.EntryExists(s1, O.WriterOf(s1, k).eid);
    t := O.After(s1, O.Acquire(k));
    OT.TwoSteps(s, O.Begin(k, mode, url), s1, O.Acquire(k), t);
  }

  /** The steps of a refresh in URL mode after it has its lock. */
  function FetchSteps(k: E.ObjectKey, reply: E.FetchResult): seq<O.Step> {
    [O.FetchUrl(k, reply)] + if reply.Fetched? then [O.StoreTag(k), O.StoreContent(k)] else []
  }

  lemma FetchAlone(s: O.State, k: E.ObjectKey, e: E.EntryValue, url: string, reply: E.FetchResult) returns (t: O.State)
    requires HasLocked(s, k, E.URL, url, (e.content, e.etag)) && e.mode.URL? && O.MayAnswer(s, url, e.etag, reply)
    ensures OT.Leads(s, FetchSteps(k, reply), t)
    ensures HasRefreshed(t, k, e, E.Fetcher((_, _) => reply, true))
  {
    t := O.After(s, O.FetchUrl(k, reply));
    OT.OneStep(s, O.FetchUrl(k, reply), t);
    if reply.Fetched? {
      var fetched := t;
      assert O.WriterOf(fetched, k).Answered?;
      t := StoreAlone(fetched, k);
      OT.Follows(s, [O.FetchUrl(k, reply)], fetched, [O.StoreTag(k), O.StoreContent(k)], t);
    } else {
      assert FetchSteps(k, reply) == [O.FetchUrl(k, reply)];
    }
  }

  lemma StoreAlone(s: O.State, k: E.ObjectKey) returns (t: O.State)
    requires O.WriterOf(s, k).Answered? && O.EntryExists(s, O.WriterOf(s, k).eid)
    ensures OT.Leads(s, [O.StoreTag(k), O.StoreContent(k)], t)
    ensures var w, w' := O.WriterOf(s, k), O.WriterOf(t, k);
      && w'.Finished? && w'.eid == w.eid && w'.result == Ok(w.etag) && t.objects == s.objects
      && O.EntryExists(t, w.eid) && t.heap[w.eid].Pair() == (w.body, w.etag)
  {
    var s1 := O.After(s, O.StoreTag(k));
    assert O.WriterOf(s1, k).Tagged?;
    t := O.After(s1, O.StoreContent(k));
    OT.TwoSteps(s, O.StoreTag(k), s1, O.StoreContent(k), t);
  }

  /** An undisturbed `EnsureObjectCached` in URL mode does to the entry what the sequential refresh does. */
  lemma UndisturbedRefresh(s: O.State, k: E.ObjectKey, url: string, reply: E.FetchResult) returns (t: O.State)
    requires Undisturbed(s, k) && O.MayAnswer(s, url, Found(s, k, E.URL).etag, reply)
    ensures OT.Leads(s, [O.Begin(k, E.URL, url), O.Acquire(k)] + FetchSteps(k, reply), t)
    ensures HasRefreshed(t, k, Found(s, k, E.URL), E.Fetcher((_, _) => reply, true))
  {
    var locked := LockAlone(s, k, E.URL, url);
    t := FetchAlone(locked, k, Found(s, k, E.URL), url, reply);
    OT.Follows(s, [O.Begin(k, E.URL, url), O.Acquire(k)], locked, FetchSteps(k, reply), t);
  }

  /** So does one in bucket mode, which only probes. */
  lemma UndisturbedProbe(s: O.State, k: E.ObjectKey, url: string, fetcher: E.Fetcher) returns (t: O.State)
    requires Undisturbed(s, k)
    ensures OT.Leads(s, [O.Begin(k, E.Bucket, url), O.Acquire(k)] + [O.ProbeBucket(k, fetcher.reachable)], t)
    ensures HasRefreshed(t, k, Found(s, k, E.Bucket), fetcher)
  {
    var locked := LockAlone(s, k, E.Bucket, url);
    t := O.After(locked, O.ProbeBucket(k, fetcher.reachable));
    OT.OneStep(locked, O.ProbeBucket(k, fetcher.reachable), t);
    OT.Follows(s, [O.Begin(k, E.Bucket, url), O.Acquire(k)], locked, [O.ProbeBucket(k, fetcher.reachable)], t);
  }

  /** The steps of a read that nobody disturbs, once it has the read lock. */
  function ReadSteps(r: nat, mode: E.Mode, reply: E.FetchResult): seq<O.Step> {
    if mode.URL? then [O.ReadContent(r)] + [O.ReadTag(r)] else [O.ReadBucket(r, reply)]
  }

  /** The read ended as `ObjectRegistry.ReadObject` does: the pair, if there is content, or the bucket's answer. */
  predicate HasRead(t: O.State, r: nat, key: E.ObjectKey, e: O.Entry, reply: E.FetchResult) {
    && r in t.readers
    && if e.mode.URL? then
         if e.content == [] then t.readers[r] == O.Failed(key)
         else t.readers[r].Done? && (t.readers[r].content, t.readers[r].etag) == (e.content, e.etag)
       else if reply.Fetched? then
         t.readers[r].Done? && (t.readers[r].content, t.readers[r].etag) == (reply.content, reply.etag)
       else t.readers[r] == O.Failed(key)
  }

  lemma ReadBegins(s: O.State, r: nat, key: E.ObjectKey) returns (t: O.State)
    requires r !in s.readers && key in s.objects && O.EntryExists(s, s.objects[key])
    requires s.heap[s.objects[key]].writer.None?
    ensures OT.Leads(s, [O.LookUp(r, key), O.AcquireRead(r)], t)
    ensures r in t.readers && t.readers[r] == O.Reading(key, s.objects[key]) && |t.heap| == |s.heap|
    ensures t.heap[s.objects[key]] == s.heap[s.objects[key]].(readers := s.heap[s.objects[key]].readers + {r})
  {
    var s1 := O.After(s, O.LookUp(r, key));
    t := O.After(s1, O.AcquireRead(r));
    OT.TwoSteps(s, O.LookUp(r, key), s1, O.AcquireRead(r), t);
  }

  lemma ReadEnds(s: O.State, r: nat, reply: E.FetchResult) returns (t: O.State, l: seq<O.Step>)
    requires r in s.readers && s.readers[r].Reading? && O.EntryExists(s, s.readers[r].eid)
    ensures OT.Leads(s, l, t) && HasRead(t, r, s.readers[r].key, s.heap[s.readers[r].eid], reply)
    ensures l <= ReadSteps(r, s.heap[s.readers[r].eid].mode, reply) && l != []
  {
    var e := s.heap[s.readers[r].eid];
    var first := if e.mode.URL? then O.ReadContent(r) else O.ReadBucket(r, reply);
    t, l := O.After(s, first), [first];
    OT.OneStep(s, first, t);
    if e.mode.URL? && e.content != [] {
      var held := t;
      assert held.readers[r].HasContent?;
      t, l := O.After(held, O.ReadTag(r)), l + [O.ReadTag(r)];
      OT.OneStep(held, O.ReadTag(r), t);
      OT.Follows(s, [first], held, [O.ReadTag(r)], t);
    }
  }

  /** An undisturbed read of a cached key, step by step, ends as the sequential one. */
  lemma UndisturbedRead(s: O.State, r: nat, key: E.ObjectKey, reply: E.FetchResult)
    returns (t: O.State, l: seq<O.Step>)
    requires r !in s.readers && key in s.objects && O.EntryExists(s, s.objects[key])
    requires s.heap[s.objects[key]].writer.None?
    ensures OT.Leads(s, [O.LookUp(r, key), O.AcquireRead(r)] + l, t)
    ensures l <= ReadSteps(r, s.heap[s.objects[key]].mode, reply)
    ensures HasRead(t, r, key, s.heap[s.objects[key]], reply)
  {
    var begun := ReadBegins(s, r, key);
    t, l := ReadEnds(begun, r, reply);
    OT.Follows(s, [O.LookUp(r, key), O.AcquireRead(r)], begun, l, t);
  }

  /** After `ForgetObject` the key has no entry, as every other key has the one it had, and a read of it fails. */
  lemma ForgottenIsGone(s: O.State, r: nat, k: E.ObjectKey) returns (t: O.State)
    requires O.WriterOf(s, k).Idle? && r !in s.readers
    ensures OT.Leads(s, [O.Forget(k), O.LookUp(r, k)], t)
    ensures t.objects == s.objects - {k} && t.heap == s.heap && t.readers == s.readers[r := O.Failed(k)]
  {
    var s1 := O.After(s, O.Forget(k));
    t := O.After(s1, O.LookUp(r, k));
    OT.TwoSteps(s, O.Forget(k), s1, O.LookUp(r, k), t);
  }

  // ---- the git cache ----------------------------------------------------------------------

  function Published(r: Result<string, R.GitError>): Option<string> {
    match r
    case Ok(sha) => Some(sha)
    case Err(_) => None
  }

  function FilesOf(c: Option<R.Clone>): Option<G.Files> {
    match c
    case Some(clone) => Some(clone.files)
    case None => None
  }

  /** The commit that an update ends at, where it succeeds. */
  function UpdateEnd(repo: R.Repo, before: Option<R.Clone>, remote: R.Remote): Option<string> {
    if before.Some? then R.Updated(repo.cfg, before.value.head, remote(repo.cfg.auth)) else None
  }

  /** How a new clone ends. */
  function CloneEnd(repo: R.Repo, remote: R.Remote): G.RefreshStep {
    var a := remote(repo.cfg.auth);
    match R.Recloned(repo.cfg, a)
    case None => G.CloneFails
    case Some(sha) => if a.cloneHead then G.CloneOk(sha) else G.CloneHeadless(sha)
  }

  predicate EndsBody(f: G.RefreshStep) {
    f.AuthFails? || f.UpdateOk? || f.CloneOk? || f.CloneFails? || f.CloneHeadless?
  }

  /** The steps of the body of `EnsureCloned` for given answers. */
  function BodySteps(repo: R.Repo, before: Option<R.Clone>, remote: R.Remote): seq<G.RefreshStep> {
    if !R.AuthOk(repo.cfg.auth) then [G.Enter] + [G.AuthFails]
    else if UpdateEnd(repo, before, remote).Some? then
      [G.Enter] + [G.Inspect] + [G.UpdateOk(UpdateEnd(repo, before, remote).value)]
    else
      [G.Enter] + [G.Inspect] + (if before.Some? then [G.UpdateFails] else []) + [CloneEnd(repo, remote)]
  }

  function Refreshes(k: E.ObjectKey, f: seq<G.RefreshStep>): seq<G.Step> {
    seq(|f|, i requires 0 <= i < |f| => G.Refresh(k, f[i]))
  }

  /** A writer at a point of the body of `EnsureCloned`, and its directory. */
  predicate AtPoint(s: G.State, k: E.ObjectKey, w: G.Writer, dir: string, files: Option<G.Files>) {
    G.WriterOf(s, k) == w && !w.Idle? && G.Exists(s, w.eid) && s.heap[w.eid].dir == dir && G.OnDisk(s, dir) == files
  }

  /** The run so far, one step longer. */
  lemma Longer(s: G.State, k: E.ObjectKey, l: seq<G.RefreshStep>, t: G.State, f: G.RefreshStep, u: G.State)
    requires GT.Leads(s, Refreshes(k, l), t) && G.RefreshEnabled(t, k, f) && u == G.AfterRefresh(t, k, f)
    ensures GT.Leads(s, Refreshes(k, l + [f]), u)
  {
    GT.OneStep(t, G.Refresh(k, f), u);
    GT.Follows(s, Refreshes(k, l), t, [G.Refresh(k, f)], u);
    assert Refreshes(k, l) + [G.Refresh(k, f)] == Refreshes(k, l + [f]);
  }

  lemma EntersAlone(s: G.State, k: E.ObjectKey, eid: nat, dir: string, files: Option<G.Files>) returns (t: G.State)
    requires AtPoint(s, k, G.Locked(eid), dir, files) && dir !in s.mutexes
    ensures GT.Leads(s, Refreshes(k, [G.Enter]), t) && AtPoint(t, k, G.Inside(eid, files), dir, files)
  {
    t := G.AfterRefresh(s, k, G.Enter);
    GT.OneStep(s, G.Refresh(k, G.Enter), t);
    assert Refreshes(k, [G.Enter]) == [G.Refresh(k, G.Enter)];
  }

  lemma InspectsAlone(s: G.State, k: E.ObjectKey, eid: nat, dir: string, files: Option<G.Files>) returns (t: G.State)
    requires AtPoint(s, k, G.Inside(eid, files), dir, files)
    ensures G.RefreshEnabled(s, k, G.Inspect) && t == G.AfterRefresh(s, k, G.Inspect)
    ensures AtPoint(t, k, if files.Some? then G.Updating(eid, files) else G.Cloning(eid, files), dir, files)
  {
    t := G.AfterRefresh(s, k, G.Inspect);
  }

  lemma WipesAlone(s: G.State, k: E.ObjectKey, eid: nat, dir: string, files: Option<G.Files>) returns (t: G.State)
    requires AtPoint(s, k, G.Updating(eid, files), dir, files)
    ensures G.RefreshEnabled(s, k, G.UpdateFails) && t == G.AfterRefresh(s, k, G.UpdateFails)
    ensures AtPoint(t, k, G.Cloning(eid, files), dir, None)
  {
    t := G.AfterRefresh(s, k, G.UpdateFails);
  }

  /** What the last step of the body leaves, and returns. */
  lemma EndsAlone(s: G.State, k: E.ObjectKey, w: G.Writer, dir: string, files: Option<G.Files>, f: G.RefreshStep)
    returns (t: G.State)
    requires AtPoint(s, k, w, dir, files) && G.RefreshEnabled(s, k, f) && EndsBody(f)
    ensures t == G.AfterRefresh(s, k, f)
    ensures AtPoint(t, k, G.Leaving(w.eid, w.before, if f.UpdateOk? || f.CloneOk? then Some(f.sha) else None), dir,
      match f
      case UpdateOk(sha) => Some(G.Tree(sha))
      case CloneOk(sha) => Some(G.Tree(sha))
      case CloneHeadless(sha) => Some(G.Tree(sha))
      case CloneFails => None
      case _ => files)
  {
    t := G.AfterRefresh(s, k, f);
  }

  /** What a directory holds once the sequential body is through. */
  lemma DiskAfter(repo: R.Repo, remote: R.Remote, clones: map<string, R.Clone>, after: map<string, R.Clone>)
    requires R.Ensured(repo, clones, after, remote, R.Outcome(repo, R.At(clones, repo.cacheDir), remote))
    ensures var before := R.At(clones, repo.cacheDir);
      FilesOf(R.At(after, repo.cacheDir)) ==
        if !R.AuthOk(repo.cfg.auth) then FilesOf(before)
        else if UpdateEnd(repo, before, remote).Some? then Some(G.Tree(UpdateEnd(repo, before, remote).value))
        else match CloneEnd(repo, remote)
          case CloneFails => None
          case f => Some(G.Tree(f.sha))
  {
  }

  /** The point before the last step of a body with good credentials. */
  lemma BodyAlone(s: G.State, k: E.ObjectKey, eid: nat, dir: string, files: Option<G.Files>, wipes: bool)
    returns (t: G.State)
    requires AtPoint(s, k, G.Locked(eid), dir, files) && dir !in s.mutexes && (wipes ==> files.Some?)
    ensures GT.Leads(s, Refreshes(k, [G.Enter] + [G.Inspect] + if wipes then [G.UpdateFails] else []), t)
    ensures AtPoint(t, k, if files.Some? && !wipes then G.Updating(eid, files) else G.Cloning(eid, files), dir,
      if wipes then None else files)
  {
    var a := EntersAlone(s, k, eid, dir, files);
    t := InspectsAlone(a, k, eid, dir, files);
    Longer(s, k, [G.Enter], a, G.Inspect, t);
    if wipes {
      var b := t;
      t := WipesAlone(b, k, eid, dir, files);
      Longer(s, k, [G.Enter] + [G.Inspect], b, G.UpdateFails, t);
    } else {
      assert [G.Enter] + [G.Inspect] + [] == [G.Enter] + [G.Inspect];
    }
  }

  /**
   An undisturbed body of `EnsureCloned` returns what the sequential one returns and leaves the
   directory as the sequential one does, from every disk on which the directory looks the same.
   */
  lemma UndisturbedEnsureCloned(
    s: G.State, k: E.ObjectKey, repo: R.Repo, before: Option<R.Clone>, remote: R.Remote, clones: map<string, R.Clone>,
    after: map<string, R.Clone>)
    returns (t: G.State)
    requires G.WriterOf(s, k).Locked? && repo.cacheDir !in s.mutexes
    requires AtPoint(s, k, G.WriterOf(s, k), repo.cacheDir, FilesOf(before)) && R.At(clones, repo.cacheDir) == before
    requires R.Ensured(repo, clones, after, remote, R.Outcome(repo, before, remote))
    ensures GT.Leads(s, Refreshes(k, BodySteps(repo, before, remote)), t)
    ensures G.WriterOf(t, k) ==
      G.Leaving(G.WriterOf(s, k).eid, FilesOf(before), Published(R.Outcome(repo, before, remote)))
    ensures G.OnDisk(t, repo.cacheDir) == FilesOf(R.At(after, repo.cacheDir))
  {
    var eid, dir, files := G.WriterOf(s, k).eid, repo.cacheDir, FilesOf(before);
    DiskAfter(repo, remote, clones, after);
    if !R.AuthOk(repo.cfg.auth) {
      var a := EntersAlone(s, k, eid, dir, files);
      t := EndsAlone(a, k, G.Inside(eid, files), dir, files, G.AuthFails);
      Longer(s, k, [G.Enter], a, G.AuthFails, t);
    } else {
      var updated := UpdateEnd(repo, before, remote);
      var wipes := updated.None? && before.Some?;
      var a := BodyAlone(s, k, eid, dir, files, wipes);
      var end := if updated.Some? then G.UpdateOk(updated.value) else CloneEnd(repo, remote);
      t := EndsAlone(a, k, G.WriterOf(a, k), dir, if wipes then None else files, end);
      var steps := [G.Enter] + [G.Inspect] + if wipes then [G.UpdateFails] else [];
      Longer(s, k, steps, a, end, t);
      assert BodySteps(repo, before, remote) == steps + [end];
    }
  }
}
