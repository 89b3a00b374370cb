/** A run from the start that shows where the guarantees of the object cache end. */
module ObjectLimits {
  import opened Wrappers
  import opened GoStrings
  import opened ObjectEntries
  import opened ObjectCache
  import opened ObjectCacheTheorems

  // ---- a source at work --------------------------------------------------------------------

  /** The key's only entry, at rest. */
  predicate Resting(s: State, k: ObjectKey, e: Entry) {
    && WriterOf(s, k).Idle? && k in s.objects && s.objects[k] == 0 && s.heap == [e]
    && e.mode.URL? && e.writer.None? && e.readers == {}
  }

  /** The key's writer has the lock of its only entry and is at `w`. */
  predicate AtWork(s: State, k: ObjectKey, e: Entry, w: Writer) {
    WriterOf(s, k) == w && k in s.objects && s.objects[k] == 0 && s.heap == [e]
  }

  function Blank(url: string): Entry {
    Entry(url, URL, "", [], None, {})
  }

  lemma FirstLocked(s: State, k: ObjectKey, url: string) returns (t: State)
    requires WriterOf(s, k).Idle? && k !in s.objects && s.heap == []
    ensures Leads(s, [Begin(k, URL, url), Acquire(k)], t)
    ensures AtWork(t, k, Blank(url).(writer := Some(k)), Locked(0, URL, url, ([], ""))) && t.upstream == s.upstream
  {
    var s1 := After(s, Begin(k, URL, url));
    assert WriterOf(s1, k) == Installed(0, URL, url) && s1.heap == [Blank("")];
    t := After(s1, Acquire(k));
    TwoSteps(s, Begin(k, URL, url), s1, Acquire(k), t);
  }

  lemma LockedAgain(s: State, k: ObjectKey, e: Entry, url: string) returns (t: State)
    requires Resting(s, k, e)
    ensures Leads(s, [Begin(k, URL, url), Acquire(k)], t)
    ensures AtWork(t, k, e.(url := url, writer := Some(k)), Locked(0, URL, url, e.Pair())) && t.upstream == s.upstream
  {
    var s1 := After(s, Begin(k, URL, url));
    assert WriterOf(s1, k) == Installed(0, URL, url);
    t := After(s1, Acquire(k));
    TwoSteps(s, Begin(k, URL, url), s1, Acquire(k), t);
  }

  lemma FetchesAnew(s: State, k: ObjectKey, e: Entry, url: string, before: (Bytes, string), res: Resource)
    returns (t: State)
    requires AtWork(s, k, e, Locked(0, URL, url, before)) && url in s.upstream && s.upstream[url] == res
    ensures Leads(s, [FetchUrl(k, Fetched(res.body, res.etag)), StoreTag(k)], t)
    ensures AtWork(t, k, e.(etag := res.etag), Tagged(0, res.body, res.etag, before, res)) && t.upstream == s.upstream
  {
    var s1 := After(s, FetchUrl(k, Fetched(res.body, res.etag)));
    assert WriterOf(s1, k) == Answered(0, res.body, res.etag, before, res);
    t := After(s1, StoreTag(k));
    TwoSteps(s, FetchUrl(k, Fetched(res.body, res.etag)), s1, StoreTag(k), t);
  }

  lemma StoresAndLeaves(s: State, k: ObjectKey, e: Entry, before: (Bytes, string), res: Resource) returns (t: State)
    requires AtWork(s, k, e, Tagged(0, res.body, res.etag, before, res)) && e.mode.URL? && e.readers == {}
    ensures Leads(s, [StoreContent(k), Release(k)], t)
    ensures Resting(t, k, e.(content := res.body, writer := None)) && t.upstream == s.upstream
  {
    var s1 := After(s, StoreContent(k));
    assert WriterOf(s1, k) == Finished(0, Ok(res.etag), before, res);
    t := After(s1, Release(k));
    TwoSteps(s, StoreContent(k), s1, Release(k), t);
  }

  /** A resource is published and fetched for the first time. */
  function FetchRun(k: ObjectKey, url: string, res: Resource): seq<Step> {
    [Publish(url, res)] + [Begin(k, URL, url), Acquire(k)]
    + [FetchUrl(k, Fetched(res.body, res.etag)), StoreTag(k)] + [StoreContent(k), Release(k)]
  }

  lemma FetchedOnce(k: ObjectKey, url: string, res: Resource) returns (t: State)
    ensures Leads(START, FetchRun(k, url, res), t)
    ensures Resting(t, k, Entry(url, URL, res.etag, res.body, None, {})) && t.upstream == map[url := res]
  {
    var a := After(START, Publish(url, res));
    var b := FirstLocked(a, k, url);
    var c := FetchesAnew(b, k, Blank(url).(writer := Some(k)), url, ([], ""), res);
    t := StoresAndLeaves(c, k, Blank(url).(writer := Some(k), etag := res.etag), ([], ""), res);
    var l1, l2 := [Publish(url, res)], [Begin(k, URL, url), Acquire(k)];
    var l3, l4 := [FetchUrl(k, Fetched(res.body, res.etag)), StoreTag(k)], [StoreContent(k), Release(k)];
    OneStep(START, Publish(url, res), a);
    Follows(START, l1, a, l2, b);
    Follows(START, l1 + l2, b, l3, c);
    Follows(START, l1 + l2 + l3, c, l4, t);
  }

  // ---- a URL edited under a kept tag -------------------------------------------------------

  /** One resource is fetched; the source is pointed at another one with the same tag, and refreshed. */
  function EditRun(k: ObjectKey, before: string, was: Resource, url: string, res: Resource): seq<Step> {
    FetchRun(k, before, was) + [Publish(url, res)] + [Begin(k, URL, url), Acquire(k)] + [FetchUrl(k, NotModified)]
  }

  /**
   Without the assumption on URLs conditional GET fails, from the start: the entry keeps its
   tag when the URL is edited, so a second resource that happens to use the same tag is
   answered with 304, and the refresh ends well with the content of the first.
   */
  lemma UrlEditServesStaleContent(k: ObjectKey, was: Resource, res: Resource, before: string, url: string)
    returns (t: State)
    requires was.etag == res.etag != "" && was.body != res.body && before != url
    ensures Leads(START, EditRun(k, before, was, url, res), t)
    ensures WriterOf(t, k).Finished? && WriterOf(t, k).result == Ok(res.etag) && WriterOf(t, k).asOf == res
    ensures AtWork(t, k, Entry(url, URL, was.etag, was.body, Some(k), {}), WriterOf(t, k))
    ensures url in t.upstream && t.upstream[url].body != t.heap[0].content
  {
    var e := Entry(before, URL, was.etag, was.body, None, {});
    var a := FetchedOnce(k, before, was);
    var b := After(a, Publish(url, res));
    var c := LockedAgain(b, k, e, url);
    t := After(c, FetchUrl(k, NotModified));
    var l1, l2 := FetchRun(k, before, was), [Publish(url, res)];
    var l3, l4 := [Begin(k, URL, url), Acquire(k)], [FetchUrl(k, NotModified)];
    OneStep(a, Publish(url, res), b);
    OneStep(c, FetchUrl(k, NotModified), t);
    Follows(START, l1, a, l2, b);
    Follows(START, l1 + l2, b, l3, c);
    Follows(START, l1 + l2 + l3, c, l4, t);
  }
}
