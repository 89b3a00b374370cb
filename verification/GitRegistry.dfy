/**
 internal/git/git.go and internal/source/registry.go as objects changed in place, one call at
 a time: the table of directory mutexes, the clones on disk, and the registry of entries.
 `GitCache` interleaves the critical sections of many calls. The go-git library is represented
 by its answers.
 */
module GitRegistry {
  import opened Wrappers
  import opened GoStrings
  import opened ObjectEntries
  import opened GitCache

  // ---- one mutex for each directory --------------------------------------------------------

  class Mutex {
    constructor () {
    }
  }

  class MutexTable {
    var muMap: map<string, Mutex>

    constructor ()
      ensures Valid() && muMap == map[]
    {
      muMap := map[];
    }

    /** Distinct directories have distinct mutexes. */
    ghost predicate Valid()
      reads this
    {
      forall d, e :: d in muMap && e in muMap && muMap[d] == muMap[e] ==> d == e
    }

    /** The directory's mutex, the same one at every call; the mutexes of other directories stay theirs. */
    method RepoMutex(dir: string) returns (m: Mutex)
      requires Valid()
      modifies this
      ensures Valid() && muMap == old(muMap)[dir := m]
      ensures dir in old(muMap) ==> m == old(muMap)[dir] && muMap == old(muMap)
      ensures dir !in old(muMap) ==> fresh(m)
    {
      if dir in muMap {
        return muMap[dir];
      }
      m := new Mutex();
      muMap := muMap[dir := m];
    }
  }

  // ---- configurations ---------------------------------------------------------------------

  datatype Auth =
    | NoAuth
    | Basic(username: string, password: string)
    | SSH(key: Bytes, passphrase: Bytes, knownHosts: Bytes)

  datatype Config = Config(url: string, branch: string, revision: string, auth: Auth)

  datatype GitError =
    | UrlRequired | NoCacheRoot | AuthInvalid | UpdateFailed | CloneFailed | HeadUnresolved | NotCached | InvalidPath
    | ReadFailed

  datatype Repo = Repo(cfg: Config, cacheDir: string)

  /** What a directory is named after. */
  function CacheKey(url: string, branch: string, revision: string): string {
    url + "@" + branch + "#" + revision
  }

  /** The directory under a cache root for a key: 16 digits of its SHA-256. */
  const CacheDir: (string, string) -> string

  ghost predicate SharesKey(url: string, branch: string, revision: string, b: string, r: string) {
    (b, r) != (branch, revision) && CacheKey(url, b, r) == CacheKey(url, branch, revision)
  }

  /**
   Different pins of one URL are meant to have different directories. A pin has the key of
   another pin of its URL if and only if its branch or revision contains a number sign.
   */
  lemma PinsCollideExactly(url: string, branch: string, revision: string)
    ensures (exists b, r :: SharesKey(url, branch, revision, b, r)) <==> '#' in branch || '#' in revision
  {
    if '#' in branch {
      var (b, rest) := Cut(branch, '#').value;
      SplitAgain(url, branch, revision, b, rest + "#" + revision);
    } else if '#' in revision {
      var (middle, r) := Cut(revision, '#').value;
      SplitAgain(url, branch, revision, branch + "#" + middle, r);
    } else {
      forall b, r | CacheKey(url, b, r) == CacheKey(url, branch, revision) ensures b == branch && r == revision {
        PinKept(url, branch, revision, b, r);
      }
    }
  }

  lemma SplitAgain(url: string, branch: string, revision: string, b: string, r: string)
    requires |b| != |branch| && b + "#" + r == branch + "#" + revision
    ensures SharesKey(url, branch, revision, b, r)
  {
    assert CacheKey(url, b, r) == url + "@" + (b + "#" + r);
    assert CacheKey(url, branch, revision) == url + "@" + (branch + "#" + revision);
  }

  lemma PinKept(url: string, branch: string, revision: string, b: string, r: string)
    requires '#' !in branch && '#' !in revision && CacheKey(url, b, r) == CacheKey(url, branch, revision)
    ensures b == branch && r == revision
  {
    var front := url + "@";
    assert branch + "#" + revision == CacheKey(url, branch, revision)[|front|..];
    assert b + "#" + r == CacheKey(url, b, r)[|front|..];
    OneSign(branch, revision, |b|);
    assert b == (b + "#" + r)[..|b|] && branch == (branch + "#" + revision)[..|branch|];
    assert r == (b + "#" + r)[|b| + 1..] && revision == (branch + "#" + revision)[|branch| + 1..];
  }

  lemma OneSign(branch: string, revision: string, i: nat)
    requires '#' !in branch && '#' !in revision
    requires i < |branch + "#" + revision| && (branch + "#" + revision)[i] == '#'
    ensures i == |branch|
  {
  }

  /** Whether a key and known_hosts can be parsed. */
  const ParsesSSH: Auth -> bool

  /** A path within the clone, cleaned, unless it leads out of it. */
  const CleanPath: string -> Option<string>

  /** `root` is what resolving, making and restricting the cache root comes to. */
  function New(cfg: Config, root: Option<string>): (r: Result<Repo, GitError>)
    ensures r == Err(UrlRequired) <==> cfg.url == ""
    ensures r == Err(NoCacheRoot) <==> cfg.url != "" && root.None?
    ensures r.Err? <==> cfg.url == "" || root.None?
    ensures r.Ok? ==> r.value.cfg.url == cfg.url && r.value.cfg.auth == cfg.auth && r.value.cfg.revision == cfg.revision
    ensures r.Ok? ==> r.value.cfg.branch != "" || r.value.cfg.revision != ""
    ensures r.Ok? && (cfg.branch != "" || cfg.revision != "") ==> r.value.cfg == cfg
    ensures r.Ok? && cfg.branch == "" && cfg.revision == "" ==> r.value.cfg.branch == "main"
    ensures r.Ok? ==> var c := r.value.cfg;
      r.value.cacheDir == CacheDir(root.value, c.url + "@" + c.branch + "#" + c.revision)
  {
    if cfg.url == "" then Err(UrlRequired)
    else
      var cfg := if cfg.branch == "" && cfg.revision == "" then cfg.(branch := "main") else cfg;
      match root
      case None => Err(NoCacheRoot)
      case Some(root) => Ok(Repo(cfg, CacheDir(root, CacheKey(cfg.url, cfg.branch, cfg.revision))))
  }

  /** SSH needs known hosts: host keys are always checked. */
  predicate AuthOk(auth: Auth) {
    auth.SSH? ==> auth.knownHosts != [] && ParsesSSH(auth)
  }

  // ---- clones on disk ---------------------------------------------------------------------

  /** A clone: its work tree and the commit HEAD points to. */
  datatype Clone = Clone(files: Files, head: string)

  predicate Intact(c: Clone) {
    c.files == Tree(c.head)
  }

  /** The answers to a checkout; a checkout that fails may leave any files. */
  datatype CheckoutAnswers = CheckoutAnswers(resolved: Option<string>, worktree: bool, spoiled: Option<Files>)
  {
    /** The commit checked out, if all goes well. */
    function Commit(): Option<string> {
      if worktree && spoiled.None? then resolved else None
    }
  }

  datatype Transfer = Received(head: string) | UpToDate | Broken(left: Clone)

  /** The answers during one call of `EnsureCloned`, to credentials as configured. */
  datatype Answers = Answers(
    openable: bool, fetched: bool, updateCheckout: CheckoutAnswers, worktree: bool, pulled: Transfer, updateHead: bool,
    parent: bool, cloned: Transfer, cloneCheckout: CheckoutAnswers, cloneHead: bool)

  type Remote = Auth -> Answers

  /** The commit an update of an existing clone ends at, if every step of it succeeds. */
  function Updated(cfg: Config, head: string, a: Answers): Option<string> {
    if !a.openable || !a.fetched || !a.updateHead then None
    else if cfg.revision != "" then a.updateCheckout.Commit()
    else if !a.worktree then None
    else match a.pulled
      case Received(sha) => Some(sha)
      case UpToDate => Some(head)
      case Broken(_) => None
  }

  /** The commit a new clone ends at, if cloning and checkout succeed. */
  function Recloned(cfg: Config, a: Answers): Option<string> {
    if !a.parent || !a.cloned.Received? then None
    else if cfg.revision != "" then a.cloneCheckout.Commit()
    else Some(a.cloned.head)
  }

  /** What a call of `EnsureCloned` returns: credentials first, then an update, then a new clone. */
  function Outcome(repo: Repo, before: Option<Clone>, remote: Remote): Result<string, GitError> {
    if !AuthOk(repo.cfg.auth) then Err(AuthInvalid)
    else
      var a := remote(repo.cfg.auth);
      var updated := if before.Some? then Updated(repo.cfg, before.value.head, a) else None;
      if updated.Some? then Ok(updated.value)
      else match Recloned(repo.cfg, a)
        case None => Err(CloneFailed)
        case Some(sha) => if a.cloneHead then Ok(sha) else Err(HeadUnresolved)
  }

  // ---- in terms of the configuration and the answers ----------------------------------------

  /** The revision resolves, and the work tree can be opened and checked out. */
  predicate ChecksOut(a: CheckoutAnswers) {
    a.resolved.Some? && a.worktree && a.spoiled.None?
  }

  /** Every step of an update goes well. */
  predicate CanUpdate(cfg: Config, a: Answers) {
    a.openable && a.fetched && a.updateHead &&
    if cfg.revision != "" then ChecksOut(a.updateCheckout) else a.worktree && !a.pulled.Broken?
  }

  /** A new clone succeeds, and so does the checkout of a pinned revision. */
  predicate CanClone(cfg: Config, a: Answers) {
    a.parent && a.cloned.Received? && (cfg.revision != "" ==> ChecksOut(a.cloneCheckout))
  }

  predicate CanAuthenticate(auth: Auth) {
    auth.SSH? ==> auth.knownHosts != [] && ParsesSSH(auth)
  }

  /**
   Which commit a call returns, and when. A pinned revision is always the one that a checkout
   resolved, of the update or else of the new clone. Without a revision it is what the pull
   received, or the commit the clone was at when the pull found nothing new, or else what the
   new clone received.
   */
  ghost predicate Returns(repo: Repo, before: Option<Clone>, remote: Remote, r: Result<string, GitError>) {
    var cfg, a := repo.cfg, remote(repo.cfg.auth);
    var updates := before.Some? && CanUpdate(cfg, a);
    && (r == Err(AuthInvalid) <==> !CanAuthenticate(cfg.auth))
    && (r.Ok? <==> CanAuthenticate(cfg.auth) && (updates || (CanClone(cfg, a) && a.cloneHead)))
    && (r == Err(HeadUnresolved) <==> CanAuthenticate(cfg.auth) && !updates && CanClone(cfg, a) && !a.cloneHead)
    && (r == Err(CloneFailed) <==> CanAuthenticate(cfg.auth) && !updates && !CanClone(cfg, a))
    && (r.Ok? && cfg.revision != "" ==>
        Some(r.value) == if updates then a.updateCheckout.resolved else a.cloneCheckout.resolved)
    && (r.Ok? && cfg.revision == "" && updates ==>
        r.value == if a.pulled.Received? then a.pulled.head else before.value.head)
    && (r.Ok? && cfg.revision == "" && !updates ==> r.value == a.cloned.head)
  }

  lemma OutcomeReturns(repo: Repo, before: Option<Clone>, remote: Remote)
    ensures Returns(repo, before, remote, Outcome(repo, before, remote))
  {
  }

  /**
   What a call leaves in the directory: the tree of the returned commit; on bad credentials
   what was there; nothing after a failed clone or checkout; and the new clone, at the revision
   if one is pinned, when only its HEAD cannot be read.
   */
  ghost predicate Leaves(
    repo: Repo, before: Option<Clone>, after: Option<Clone>, remote: Remote, r: Result<string, GitError>)
  {
    var cfg, a := repo.cfg, remote(repo.cfg.auth);
    match r
    case Ok(sha) => after == Some(Clone(Tree(sha), sha))
    case Err(AuthInvalid) => after == before
    case Err(HeadUnresolved) =>
      && after.Some? && after.value.files == Tree(after.value.head)
      && (cfg.revision != "" ==> a.cloneCheckout.resolved == Some(after.value.head))
      && (cfg.revision == "" ==> a.cloned == Received(after.value.head))
    case Err(_) => after == None
  }

  function At(clones: map<string, Clone>, dir: string): Option<Clone> {
    if dir in clones then Some(clones[dir]) else None
  }

  /**
   What a call of `EnsureCloned` does. Success leaves exactly the tree of the returned commit.
   Bad credentials leave the directory as it was, and a later failure leaves none, except that
   a new clone whose HEAD cannot be read stays. No other directory changes.
   */
  predicate Ensured(
    repo: Repo, before: map<string, Clone>, after: map<string, Clone>, remote: Remote, r: Result<string, GitError>)
  {
    var dir := repo.cacheDir;
    && after - {dir} == before - {dir}
    && r == Outcome(repo, At(before, dir), remote)
    && (r.Ok? ==> At(after, dir) == Some(Clone(Tree(r.value), r.value)))
    && (r == Err(AuthInvalid) ==> At(after, dir) == At(before, dir))
    && (r == Err(CloneFailed) ==> dir !in after)
    && (r == Err(HeadUnresolved) ==>
        var cloned := Recloned(repo.cfg, remote(repo.cfg.auth));
        cloned.Some? && At(after, dir) == Some(Clone(Tree(cloned.value), cloned.value)))
  }

  /** `Ensured` in terms of the configuration and the answers. */
  lemma EnsuredExact(
    repo: Repo, before: map<string, Clone>, after: map<string, Clone>, remote: Remote, r: Result<string, GitError>)
    requires Ensured(repo, before, after, remote, r)
    ensures Returns(repo, At(before, repo.cacheDir), remote, r)
    ensures Leaves(repo, At(before, repo.cacheDir), At(after, repo.cacheDir), remote, r)
  {
    OutcomeReturns(repo, At(before, repo.cacheDir), remote);
  }

  class Disk {
    var clones: map<string, Clone>

    constructor ()
      ensures Valid() && clones == map[]
    {
      clones := map[];
    }

    ghost predicate Valid()
      reads this
    {
      forall d :: d in clones ==> Intact(clones[d])
    }

    method RemoveAll(dir: string)
      modifies this
      ensures clones == old(clones) - {dir}
    {
      clones := clones - {dir};
    }

    method CheckoutRevision(dir: string, a: CheckoutAnswers) returns (ok: bool)
      requires dir in clones
      modifies this
      ensures ok <==> ChecksOut(a)
      ensures ok ==> clones == old(clones)[dir := Clone(Tree(a.resolved.value), a.resolved.value)]
      ensures dir in clones && clones - {dir} == old(clones) - {dir}
    {
      if a.resolved.None? || !a.worktree {
        return false;
      }
      if a.spoiled.Some? {
        clones := clones[dir := clones[dir].(files := a.spoiled.value)];
        return false;
      }
      clones := clones[dir := Clone(Tree(a.resolved.value), a.resolved.value)];
      return true;
    }

    /** Brings a clone up to date; if it fails, the clone may be spoiled. */
    method UpdateAndResolve(repo: Repo, a: Answers) returns (r: Result<string, GitError>)
      requires repo.cacheDir in clones && Intact(clones[repo.cacheDir])
      modifies this
      ensures clones - {repo.cacheDir} == old(clones) - {repo.cacheDir}
      ensures r == match Updated(repo.cfg, old(clones[repo.cacheDir].head), a)
                   case Some(sha) => Ok(sha)
                   case None => Err(UpdateFailed)
      ensures r.Ok? <==> CanUpdate(repo.cfg, a)
      ensures r.Ok? && repo.cfg.revision != "" ==> Some(r.value) == a.updateCheckout.resolved
      ensures r.Ok? && repo.cfg.revision == "" ==>
        r.value == if a.pulled.Received? then a.pulled.head else old(clones[repo.cacheDir].head)
      ensures r.Ok? ==> clones == old(clones)[repo.cacheDir := Clone(Tree(r.value), r.value)]
    {
      var dir := repo.cacheDir;
      if !a.openable || !a.fetched {
        return Err(UpdateFailed);
      }
      if repo.cfg.revision != "" {
        var ok := CheckoutRevision(dir, a.updateCheckout);
        if !ok || !a.updateHead {
          return Err(UpdateFailed);
        }
        return Ok(clones[dir].head);
      }
      if !a.worktree {
        return Err(UpdateFailed);
      }
      match a.pulled {
        case Broken(left) =>
          clones := clones[dir := left];
          return Err(UpdateFailed);
        case Received(sha) =>
          clones := clones[dir := Clone(Tree(sha), sha)];
        case UpToDate =>
      }
      if !a.updateHead {
        return Err(UpdateFailed);
      }
      return Ok(clones[dir].head);
    }

    method EnsureCloned(repo: Repo, remote: Remote) returns (r: Result<string, GitError>)
      requires Valid()
      modifies this
      ensures Valid() && Ensured(repo, old(clones), clones, remote, r)
      ensures Returns(repo, At(old(clones), repo.cacheDir), remote, r)
      ensures Leaves(repo, At(old(clones), repo.cacheDir), At(clones, repo.cacheDir), remote, r)
    {
      OutcomeReturns(repo, At(clones, repo.cacheDir), remote);
      var dir := repo.cacheDir;
      if !AuthOk(repo.cfg.auth) {
        return Err(AuthInvalid);
      }
      var a := remote(repo.cfg.auth);
      if dir in clones {
        r := UpdateAndResolve(repo, a);
        if r.Ok? {
          return;
        }
        RemoveAll(dir);
      }
      if !a.parent {
        return Err(CloneFailed);
      }
      if !a.cloned.Received? {
        RemoveAll(dir);
        return Err(CloneFailed);
      }
      clones := clones[dir := Clone(Tree(a.cloned.head), a.cloned.head)];
      if repo.cfg.revision != "" {
        var ok := CheckoutRevision(dir, a.cloneCheckout);
        if !ok {
          RemoveAll(dir);
          return Err(CloneFailed);
        }
      }
      if !a.cloneHead {
        return Err(HeadUnresolved);
      }
      return Ok(clones[dir].head);
    }
  }

  // ---- the registry -----------------------------------------------------------------------

  class GitEntry {
    const repo: Repo
    const cacheDir: string
    var commitSHA: string

    constructor (repo: Repo)
      ensures this.repo == repo && cacheDir == repo.cacheDir && commitSHA == ""
    {
      this.repo, cacheDir, commitSHA := repo, repo.cacheDir, "";
    }

    function Value(): CachedRepo
      reads this
    {
      CachedRepo(repo, commitSHA)
    }

    /** The part of `EnsureCached` that runs under the entry's write lock. */
    method Refresh(disk: Disk, remote: Remote) returns (r: Result<string, GitError>)
      requires disk.Valid()
      modifies this, disk
      ensures disk.Valid() && Ensured(repo, old(disk.clones), disk.clones, remote, r)
      ensures Value() == if r.Ok? then CachedRepo(repo, r.value) else old(Value())
    {
      r := disk.EnsureCloned(repo, remote);
      if r.Ok? {
        commitSHA := r.value;
      }
    }
  }

  datatype CachedRepo = CachedRepo(repo: Repo, commitSHA: string)

  type View = map<ObjectKey, CachedRepo>

  /** The entry is made anew when the key has none or its directory changed; otherwise it stays, credentials and all. */
  function EntryFor(view: View, key: ObjectKey, repo: Repo): CachedRepo {
    if key in view && view[key].repo.cacheDir == repo.cacheDir then view[key] else CachedRepo(repo, "")
  }

  /** The directory evicted to make room for a changed configuration. */
  function Evicted(view: View, key: ObjectKey, repo: Repo): set<string> {
    if key in view && view[key].repo.cacheDir != repo.cacheDir then {view[key].repo.cacheDir} else {}
  }

  /**
   Credentials are pinned by the first configuration of a directory: whatever credentials a
   later call brings for the same URL, branch and revision, the entry goes on with those it
   has, so the call ends as it would have with the old ones.
   */
  lemma CredentialsPinned(
    view: View, key: ObjectKey, cfg: Config, root: Option<string>, rotated: Auth, before: Option<Clone>, remote: Remote)
    requires New(cfg, root).Ok? && key in view && view[key].repo == New(cfg, root).value
    ensures var repo := EntryFor(view, key, New(cfg.(auth := rotated), root).value).repo;
      repo.cfg.auth == cfg.auth && Outcome(repo, before, remote) == Outcome(New(cfg, root).value, before, remote)
  {
  }

  /** The directory of the key, if it is there, holds the commit published for the key. */
  predicate Coherent(view: View, clones: map<string, Clone>, key: ObjectKey) {
    key in view && view[key].repo.cacheDir in clones ==> clones[view[key].repo.cacheDir].head == view[key].commitSHA
  }

  /** No two keys share a directory, every directory belongs to a key, and every key is coherent. */
  ghost predicate Sound(view: View, clones: map<string, Clone>) {
    && (forall k, l :: k in view && l in view && view[k].repo.cacheDir == view[l].repo.cacheDir ==> k == l)
    && (forall d :: d in clones ==> exists k :: k in view && view[k].repo.cacheDir == d)
    && (forall k :: Coherent(view, clones, k))
  }

  /** The registry after `EnsureCached`. */
  function EntriesAfter(view: View, key: ObjectKey, repo: Repo, r: Result<string, GitError>): View {
    var e := EntryFor(view, key, repo);
    view[key := if r.Ok? then CachedRepo(e.repo, r.value) else e]
  }

  /**
   What the answers must be for a call to leave a clone that is not the published commit: the
   credentials are good, there is no clone or its update fails, the new clone succeeds but its
   HEAD cannot be read, and the commit cloned is another than the one published.
   */
  predicate HeadLost(view: View, clones: map<string, Clone>, key: ObjectKey, repo: Repo, remote: Remote) {
    var e := EntryFor(view, key, repo);
    var before, a := At(clones - Evicted(view, key, repo), repo.cacheDir), remote(e.repo.cfg.auth);
    && AuthOk(e.repo.cfg.auth)
    && (before.None? || Updated(e.repo.cfg, before.value.head, a).None?)
    && Recloned(e.repo.cfg, a).Some? && !a.cloneHead
    && Recloned(e.repo.cfg, a).value != e.commitSHA
  }

  /**
   Calls of `EnsureCached` keep the registry sound, successful or not, when the directory is
   nobody else's: with exactly one exception, said of the call's inputs.
   */
  lemma EnsureKeepsSound(
    view: View, clones: map<string, Clone>, key: ObjectKey, repo: Repo, remote: Remote, r: Result<string, GitError>,
    after: map<string, Clone>)
    requires Sound(view, clones) && forall l :: l in view && l != key ==> view[l].repo.cacheDir != repo.cacheDir
    requires Ensured(EntryFor(view, key, repo).repo, clones - Evicted(view, key, repo), after, remote, r)
    ensures Sound(EntriesAfter(view, key, repo, r), after)
      <==> !HeadLost(view, clones, key, repo, remote)
  {
    var evicted, dir, view' := Evicted(view, key, repo), repo.cacheDir, EntriesAfter(view, key, repo, r);
    OwnCoherence(view, clones, key, repo, remote, r, after);
    forall d | d in after ensures exists k :: k in view' && view'[k].repo.cacheDir == d {
      OwnedAfter(view, clones, key, repo, after, view', d);
    }
    forall l | l != key ensures Coherent(view', after, l) {
      assert Coherent(view, clones, l);
      OtherCoherence(view, clones, after, dir, evicted, l);
    }
  }

  lemma OwnedAfter(
    view: View, clones: map<string, Clone>, key: ObjectKey, repo: Repo, after: map<string, Clone>,
    view': View, d: string)
    requires Sound(view, clones) && d in after
      && after - {repo.cacheDir} == clones - Evicted(view, key, repo) - {repo.cacheDir}
    requires key in view' && view'[key].repo.cacheDir == repo.cacheDir
    requires forall l :: l in view && l != key ==> l in view' && view'[l] == view[l]
    ensures exists k :: k in view' && view'[k].repo.cacheDir == d
  {
    if d != repo.cacheDir {
      assert d in after - {repo.cacheDir};
      var k :| k in view && view[k].repo.cacheDir == d;
      assert k in view' && view'[k].repo.cacheDir == d;
    }
  }

  lemma OtherCoherence(
    view: View, clones: map<string, Clone>, after: map<string, Clone>, dir: string, evicted: set<string>, l: ObjectKey)
    requires Coherent(view, clones, l) && after - {dir} == clones - evicted - {dir}
    requires l in view ==> view[l].repo.cacheDir != dir
    ensures Coherent(view, after, l)
  {
    if l in view && view[l].repo.cacheDir in after {
      var d := view[l].repo.cacheDir;
      assert after[d] == (after - {dir})[d] == (clones - evicted - {dir})[d] == clones[d];
    }
  }

  lemma OwnCoherence(
    view: View, clones: map<string, Clone>, key: ObjectKey, repo: Repo, remote: Remote, r: Result<string, GitError>,
    after: map<string, Clone>)
    requires Sound(view, clones) && forall l :: l in view && l != key ==> view[l].repo.cacheDir != repo.cacheDir
    requires Ensured(EntryFor(view, key, repo).repo, clones - Evicted(view, key, repo), after, remote, r)
    ensures Coherent(EntriesAfter(view, key, repo, r), after, key)
      <==> !HeadLost(view, clones, key, repo, remote)
  {
    assert Coherent(view, clones, key);
    if repo.cacheDir in clones {
      var k :| k in view && view[k].repo.cacheDir == repo.cacheDir;
      assert k == key;
    }
  }

  /** What `Read` returns: the bytes of the file in the directory, and the commit published for the entry. */
  function ReadResult(view: View, clones: map<string, Clone>, key: ObjectKey, path: string)
    : Result<(Bytes, string), GitError>
  {
    if key !in view then Err(NotCached)
    else if CleanPath(path).None? then Err(InvalidPath)
    else
      var c, clean := At(clones, view[key].repo.cacheDir), CleanPath(path).value;
      if c.Some? && clean in c.value.files then Ok((c.value.files[clean], view[key].commitSHA)) else Err(ReadFailed)
  }

  /** In the exceptional case the next read returns the file of the new clone with the commit published before. */
  lemma HeadLostMisreads(
    view: View, clones: map<string, Clone>, key: ObjectKey, repo: Repo, remote: Remote, r: Result<string, GitError>,
    after: map<string, Clone>, path: string)
    requires HeadLost(view, clones, key, repo, remote)
    requires Ensured(EntryFor(view, key, repo).repo, clones - Evicted(view, key, repo), after, remote, r)
    requires EntryFor(view, key, repo).repo.cacheDir == repo.cacheDir && CleanPath(path).Some?
    requires var cfg := EntryFor(view, key, repo).repo.cfg;
      CleanPath(path).value in Tree(Recloned(cfg, remote(cfg.auth)).value)
    ensures r == Err(HeadUnresolved)
    ensures var e := EntryFor(view, key, repo);
      var cloned := Recloned(e.repo.cfg, remote(e.repo.cfg.auth)).value;
      && cloned != e.commitSHA
      && ReadResult(EntriesAfter(view, key, repo, r), after, key, path) ==
         Ok((Tree(cloned)[CleanPath(path).value], e.commitSHA))
  {
  }

  /** `Forget` keeps the registry sound: the directory goes with the entry. */
  lemma ForgetKeepsSound(view: View, clones: map<string, Clone>, key: ObjectKey)
    requires Sound(view, clones) && key in view
    ensures Sound(view - {key}, clones - {view[key].repo.cacheDir})
  {
    var view', after := view - {key}, clones - {view[key].repo.cacheDir};
    forall d | d in after ensures exists k :: k in view' && view'[k].repo.cacheDir == d {
      var k :| k in view && view[k].repo.cacheDir == d;
      assert k in view';
    }
    forall l ensures Coherent(view', after, l) {
      assert Coherent(view, clones, l);
    }
  }

  class Registry {
    var entries: map<ObjectKey, GitEntry>
    const disk: Disk

    constructor ()
      ensures Valid() && ViewOf() == map[] && fresh(disk) && disk.clones == map[]
    {
      entries := map[];
      disk := new Disk();
    }

    /** Every key has an entry of its own, whose directory is its repository's. */
    ghost predicate Valid()
      reads this, disk
    {
      && disk.Valid()
      && (forall k :: k in entries ==> entries[k].cacheDir == entries[k].repo.cacheDir)
      && (forall k, l :: k in entries && l in entries && entries[k] == entries[l] ==> k == l)
    }

    ghost function Entries(): set<GitEntry>
      reads this
    {
      set k | k in entries :: entries[k]
    }

    ghost function ViewOf(): View
      reads this, Entries()
    {
      map k | k in entries :: entries[k].Value()
    }

    method Enter(key: ObjectKey, repo: Repo) returns (e: GitEntry)
      requires Valid()
      modifies this`entries
      ensures Valid() && fresh(e) && entries == old(entries)[key := e]
      ensures ViewOf() == old(ViewOf())[key := CachedRepo(repo, "")]
    {
      ghost var view := ViewOf();
      e := new GitEntry(repo);
      entries := entries[key := e];
      assert ViewOf() == view[key := CachedRepo(repo, "")];
    }

    /** The part of `EnsureCached` that runs under the registry's mutex. */
    method Install(key: ObjectKey, repo: Repo) returns (e: GitEntry)
      requires Valid()
      modifies this, disk
      ensures Valid() && key in entries && entries[key] == e
      ensures e in old(Entries()) || fresh(e)
      ensures ViewOf() == old(ViewOf())[key := EntryFor(old(ViewOf()), key, repo)]
      ensures disk.clones == old(disk.clones) - Evicted(old(ViewOf()), key, repo)
    {
      ghost var view := ViewOf();
      if key !in entries || entries[key].cacheDir != repo.cacheDir {
        if key in entries {
          disk.RemoveAll(entries[key].cacheDir);
        }
        e := Enter(key, repo);
      } else {
        e := entries[key];
        assert view == view[key := e.Value()];
      }
    }

    /** What `EnsureCached` did: the key's entry, published commit and directories, and nothing else. */
    ghost predicate Cached(
      key: ObjectKey, repo: Repo, remote: Remote, r: Result<string, GitError>, view: View, clones: map<string, Clone>)
      reads this, Entries(), disk
    {
      && Ensured(EntryFor(view, key, repo).repo, clones - Evicted(view, key, repo), disk.clones, remote, r)
      && ViewOf() == EntriesAfter(view, key, repo, r)
    }

    method EnsureCached(key: ObjectKey, cfg: Config, root: Option<string>, remote: Remote)
      returns (r: Result<string, GitError>)
      requires Valid()
      modifies this, Entries(), disk
      ensures Valid()
      ensures New(cfg, root).Err? ==>
        r == Err(New(cfg, root).error) && ViewOf() == old(ViewOf()) && disk.clones == old(disk.clones)
      ensures New(cfg, root).Ok? ==> Cached(key, New(cfg, root).value, remote, r, old(ViewOf()), old(disk.clones))
    {
      var made := New(cfg, root);
      if made.Err? {
        return Err(made.error);
      }
      r := CacheRepo(key, made.value, remote);
    }

    method CacheRepo(key: ObjectKey, repo: Repo, remote: Remote) returns (r: Result<string, GitError>)
      requires Valid()
      modifies this, Entries(), disk
      ensures Valid() && Cached(key, repo, remote, r, old(ViewOf()), old(disk.clones))
    {
      ghost var start := EntryFor(ViewOf(), key, repo);
      var e := Install(key, repo);
      assert e.Value() == start by {
        assert ViewOf()[key] == start;
      }
      r := RefreshEntry(key, remote);
    }

    method RefreshEntry(key: ObjectKey, remote: Remote) returns (r: Result<string, GitError>)
      requires Valid() && key in entries
      modifies entries[key], disk
      ensures Valid()
      ensures Ensured(entries[key].repo, old(disk.clones), disk.clones, remote, r)
      ensures entries[key].Value() ==
        if r.Ok? then CachedRepo(entries[key].repo, r.value) else old(entries[key].Value())
      ensures ViewOf() == old(ViewOf())[key := entries[key].Value()]
    {
      ghost var view := ViewOf();
      var e := entries[key];
      r := e.Refresh(disk, remote);
      assert ViewOf() == view[key := e.Value()] by {
        assert forall k :: k in entries && k != key ==> entries[k] != e;
      }
    }

    /** The bytes of the file in the directory, and the commit published for the entry. */
    method Read(key: ObjectKey, path: string) returns (r: Result<(Bytes, string), GitError>)
      requires Valid()
      ensures r == ReadResult(ViewOf(), disk.clones, key, path)
      ensures r == Err(NotCached) <==> key !in entries
      ensures r == Err(InvalidPath) <==> key in entries && CleanPath(path).None?
      ensures key in entries && CleanPath(path).Some? ==>
        var file, dir := CleanPath(path).value, entries[key].repo.cacheDir;
        r == if dir in disk.clones && file in disk.clones[dir].files
          then Ok((disk.clones[dir].files[file], entries[key].commitSHA)) else Err(ReadFailed)
      ensures Coherent(ViewOf(), disk.clones, key) && r.Ok? ==>
        var (content, sha) := r.value;
        CleanPath(path).value in Tree(sha) && content == Tree(sha)[CleanPath(path).value]
    {
      if key !in entries {
        return Err(NotCached);
      }
      var e := entries[key];
      var clean := CleanPath(path);
      if clean.None? {
        return Err(InvalidPath);
      }
      if e.repo.cacheDir !in disk.clones || clean.value !in disk.clones[e.repo.cacheDir].files {
        return Err(ReadFailed);
      }
      return Ok((disk.clones[e.repo.cacheDir].files[clean.value], e.commitSHA));
    }

    method Forget(key: ObjectKey)
      requires Valid()
      modifies this, disk
      ensures Valid()
      ensures ViewOf() == old(ViewOf()) - {key}
      ensures disk.clones == old(disk.clones) - if key in old(ViewOf()) then {old(ViewOf())[key].repo.cacheDir} else {}
    {
      if key in entries {
        var e := entries[key];
        entries := entries - {key};
        disk.RemoveAll(e.cacheDir);
      }
    }
  }
}
