/**
 internal/controller/objectsource_controller.go as one call that changes the registry and the
 status in place. It does what the steps of `SourceSync` do one after the other.
 */
module SourceControllers {
  import opened Wrappers
  import opened ObjectEntries
  import opened Conditions
  import opened SourceSync

  /** What reading the resource came to: an error other than not-found ends the reconcile at once. */
  datatype Read = Found(cr: CR) | NotFound | GetFailed
  {
    /** A resource that is gone, or on its way out. */
    predicate Gone() {
      NotFound? || (Found? && cr.deleting)
    }
  }

  function Cached(view: map<ObjectKey, EntryValue>, key: ObjectKey): Option<EntryValue> {
    if key in view then Some(view[key]) else None
  }

  /** Spec check, credentials, refresh: what an undisturbed attempt comes to after the force-sync check. */
  function AfterCheck(
    cr: CR, entry: Option<EntryValue>, failure: Option<string>, fetcher: Fetcher, message: string): State
  {
    var s := State(ObjectSource, Some(cr), {cr}, cr.rv + 1, entry, Checked(cr));
    var s := After(s, Resolve(failure));
    if s.pc.Refreshing? then After(s, Get(fetcher, message)) else s
  }

  function Undisturbed(
    cr: CR, entry: Option<EntryValue>, failure: Option<string>, fetcher: Fetcher, message: string): State
  {
    var s := State(ObjectSource, Some(cr), {cr}, cr.rv + 1, entry, Loaded(cr));
    AfterCheck(cr, After(s, ForceSync).entry, failure, fetcher, message)
  }

  /** The token and generation are those of the version that was read. */
  function AttemptAt(cr: CR, now: nat, authOK: string, waiting: string): Attempt {
    Attempt(cr.token, cr.generation, now, authOK, waiting)
  }

  // ---- what a reconcile comes to, in terms of the resource and the answers -----------------

  /** What the refresh finds cached: nothing if a force-sync is pending or there is no entry of the mode. */
  function CachedFor(cr: CR, before: Option<EntryValue>, mode: Mode): EntryValue {
    if before.Some? && before.value.mode == mode && (cr.token == "" || cr.token == cr.status.lastToken) then
      before.value
    else EntryValue(mode, None, "", [])
  }

  /** What the cache keeps when nothing is fetched: a pending force-sync has dropped the entry all the same. */
  function Dropped(cr: CR, before: Option<EntryValue>): Option<EntryValue> {
    if cr.token != "" && cr.token != cr.status.lastToken then None else before
  }

  /**
   How an attempt ends, and with which entry. A URL is fetched with the cached tag: 200 brings
   body and tag, 304 and errors leave the pair. A bucket is only asked whether it is there.
   */
  ghost predicate EndsWith(
    cr: CR, before: Option<EntryValue>, failure: Option<string>, fetcher: Fetcher, message: string,
    after: Option<EntryValue>, o: Outcome)
  {
    if (cr.spec.url != "" && cr.spec.bucket) || (cr.spec.url == "" && !cr.spec.bucket) then
      after == Dropped(cr, before) && o == SpecInvalid
    else if failure.Some? then after == Dropped(cr, before) && o == AuthFailed(failure.value)
    else if cr.spec.bucket then
      var e := CachedFor(cr, before, Bucket);
      && after == Some(EntryValue(Bucket, Some(fetcher), e.etag, e.content))
      && o == if fetcher.reachable then Synced("", message) else FetchFailed(message)
    else
      var e := CachedFor(cr, before, URL);
      match fetcher.fetch("", e.etag)
      case Fetched(body, tag) => after == Some(EntryValue(URL, Some(fetcher), tag, body)) && o == Synced(tag, message)
      case NotModified =>
        after == Some(EntryValue(URL, Some(fetcher), e.etag, e.content)) && o == Synced(e.etag, message)
      case FetchError =>
        after == Some(EntryValue(URL, Some(fetcher), e.etag, e.content)) && o == FetchFailed(message)
  }

  ghost predicate Ready(cr: CR, st: Status, version: string, message: string) {
    && st.cacheReady && Says(st.conditions, SOURCE_READY, CondTrue, "Ready", message)
    && st.lastSynced == version && st.lastToken == cr.token && st.observed == cr.generation
  }

  ghost predicate NotReady(cr: CR, st: Status, reason: string, message: string) {
    && !st.cacheReady && Says(st.conditions, SOURCE_READY, CondFalse, reason, message)
    && st.lastSynced == cr.status.lastSynced && st.lastToken == cr.status.lastToken && st.observed == cr.status.observed
  }

  /** The status that says how the attempt ended. */
  ghost predicate Tells(cr: CR, o: Outcome, waiting: string, st: Status) {
    match o
    case SpecInvalid => NotReady(cr, st, "InvalidSpec", waiting)
    case AuthFailed(_) => NotReady(cr, st, "AuthFailed", waiting)
    case FetchFailed(message) => NotReady(cr, st, "FetchFailed", message)
    case Synced(version, message) => Ready(cr, st, version, message)
  }

  /** What the machine's undisturbed steps come to, answer by answer. */
  lemma UndisturbedExact(
    cr: CR, before: Option<EntryValue>, failure: Option<string>, fetcher: Fetcher, message: string)
    ensures var done := Undisturbed(cr, before, failure, fetcher, message);
      done.pc.Finished? && EndsWith(cr, before, failure, fetcher, message, done.entry, done.pc.outcome)
  {
  }

  lemma StatusTells(cr: CR, o: Outcome, a: Attempt)
    requires a.token == cr.token && a.generation == cr.generation && Unique(cr.status.conditions)
    ensures Tells(cr, o, a.waiting, StatusAfter(cr.status, o, a))
  {
    StatusInvariant(cr.status, o, a);
    StatusReports(cr.status, o, a);
  }

  class ObjectSourceReconciler {
    const registry: ObjectRegistry

    constructor (registry: ObjectRegistry)
      ensures this.registry == registry
    {
      this.registry := registry;
    }

    method Refresh(key: ObjectKey, cr: CR, failure: Option<string>, fetcher: Fetcher, message: string)
      returns (o: Outcome)
      requires registry.Valid()
      modifies registry, registry.Entries()
      ensures registry.Valid()
      ensures var done := AfterCheck(cr, Cached(old(registry.View()), key), failure, fetcher, message);
        && Cached(registry.View(), key) == done.entry && o == done.pc.outcome
        && registry.View() - {key} == old(registry.View()) - {key}
    {
      if (cr.spec.url != "") == cr.spec.bucket {
        return SpecInvalid;
      }
      if failure.Some? {
        return AuthFailed(failure.value);
      }
      var mode := if cr.spec.url != "" then URL else Bucket;
      ghost var view := registry.View();
      var r := registry.EnsureObjectCached(key, mode, fetcher);
      ghost var after := Refreshed(Installed(view, key, mode), fetcher).0;
      assert registry.View() - {key} == view - {key};
      return if r.Ok? then Synced(r.value, message) else FetchFailed(message);
    }

    /**
     A resource that is gone or on its way out has its entry dropped and no status written; a
     failed read leaves everything as it is. `buildFetcher` is given by its result: a failure,
     or none and the fetcher for the mode.
     */
    method Reconcile(
      key: ObjectKey, read: Read, status: SourceStatus, failure: Option<string>, fetcher: Fetcher, message: string,
      now: nat, authOK: string, waiting: string)
      requires registry.Valid()
      requires read.Found? ==> status.Value() == read.cr.status && Unique(read.cr.status.conditions)
      modifies registry, registry.Entries(), status
      ensures registry.Valid()
      ensures registry.View() - {key} == old(registry.View()) - {key}
      ensures read.GetFailed? ==> registry.View() == old(registry.View()) && status.Value() == old(status.Value())
      ensures read.Gone() ==> key !in registry.View() && status.Value() == old(status.Value())
      ensures read.Found? && !read.cr.deleting ==>
        var before, a := Cached(old(registry.View()), key), AttemptAt(read.cr, now, authOK, waiting);
        var done := Undisturbed(read.cr, before, failure, fetcher, message);
        && Cached(registry.View(), key) == done.entry
        && status.Value() == StatusAfter(read.cr.status, done.pc.outcome, a) && StatusOk(status.Value())
      ensures read.Found? && !read.cr.deleting ==> exists o ::
        && EndsWith(read.cr, Cached(old(registry.View()), key), failure, fetcher, message,
             Cached(registry.View(), key), o)
        && Tells(read.cr, o, waiting, status.Value())
    {
      ghost var before := registry.View();
      if read.GetFailed? {
        return;
      }
      if read.Gone() {
        registry.ForgetObject(key);
        assert registry.View() - {key} == before - {key};
        return;
      }
      var a := AttemptAt(read.cr, now, authOK, waiting);
      UndisturbedExact(read.cr, Cached(registry.View(), key), failure, fetcher, message);
      StatusTells(read.cr, Undisturbed(read.cr, Cached(registry.View(), key), failure, fetcher, message).pc.outcome, a);
      ReconcileLive(key, read.cr, status, failure, fetcher, message, a);
    }

    method ReconcileLive(
      key: ObjectKey, cr: CR, status: SourceStatus, failure: Option<string>, fetcher: Fetcher, message: string,
      a: Attempt)
      requires registry.Valid() && status.Value() == cr.status && Unique(cr.status.conditions)
      modifies registry, registry.Entries(), status
      ensures registry.Valid()
      ensures var done := Undisturbed(cr, Cached(old(registry.View()), key), failure, fetcher, message);
        && Cached(registry.View(), key) == done.entry
        && registry.View() - {key} == old(registry.View()) - {key}
        && status.Value() == StatusAfter(cr.status, done.pc.outcome, a) && StatusOk(status.Value())
    {
      var o := Attempt(key, cr, status.lastToken, failure, fetcher, message);
      ghost var view := registry.View();
      status.Record(o, a);
      assert registry.View() == view;
    }

    /** Force-sync drops the entry, content and ETag alike, before anything can fail. */
    method Attempt(
      key: ObjectKey, cr: CR, lastToken: string, failure: Option<string>, fetcher: Fetcher, message: string)
      returns (o: Outcome)
      requires registry.Valid() && lastToken == cr.status.lastToken
      modifies registry, registry.Entries()
      ensures registry.Valid()
      ensures var done := Undisturbed(cr, Cached(old(registry.View()), key), failure, fetcher, message);
        && Cached(registry.View(), key) == done.entry && o == done.pc.outcome
        && registry.View() - {key} == old(registry.View()) - {key}
      ensures EndsWith(
        cr, Cached(old(registry.View()), key), failure, fetcher, message, Cached(registry.View(), key), o)
    {
      ghost var view := registry.View();
      UndisturbedExact(cr, Cached(view, key), failure, fetcher, message);
      if cr.token != "" && cr.token != lastToken {
        registry.ForgetObject(key);
      }
      ghost var dropped := registry.View();
      assert dropped - {key} == view - {key};
      o := Refresh(key, cr, failure, fetcher, message);
      assert registry.View() - {key} == dropped - {key};
    }
  }
}
