/**
 internal/source/object_entry.go: the cache of one ObjectSource, changed in place. Here one
 call at a time; `ObjectCache` interleaves the critical sections of many calls.
 */
module ObjectEntries {
  import opened Wrappers
  import opened GoStrings

  datatype ObjectKey = ObjectKey(ns: string, name: string)

  datatype Mode = URL | Bucket

  /** What a GET came to: status 200, status 304, or any error. */
  datatype FetchResult = Fetched(content: Bytes, etag: string) | NotModified | FetchError

  /**
   A backend as it stands during one call: what Fetch answers for a path and If-None-Match,
   and whether Probe succeeds.
   */
  datatype Fetcher = Fetcher(fetch: (string, string) -> FetchResult, reachable: bool)

  datatype CacheError = NoCache | NotYetFetched | NoFetcher | BackendFailed

  /** The value of an entry. */
  datatype EntryValue = EntryValue(mode: Mode, fetcher: Option<Fetcher>, etag: string, content: Bytes)

  // ---- what one refresh does --------------------------------------------------------------

  /** A conditional GET with the stored tag: 200 replaces both fields, 304 and errors neither. */
  function Refreshed(e: EntryValue, f: Fetcher): (EntryValue, Result<string, CacheError>) {
    var e := e.(fetcher := Some(f));
    match e.mode
    case Bucket => (e, if f.reachable then Ok("") else Err(BackendFailed))
    case URL =>
      match f.fetch("", e.etag)
      case Fetched(content, etag) => (e.(content := content, etag := etag), Ok(etag))
      case NotModified => (e, Ok(e.etag))
      case FetchError => (e, Err(BackendFailed))
  }

  /**
   What one refresh does, answer by answer: the stored tag is sent along, 200 replaces content
   and tag, everything else leaves both; bucket mode only asks whether the backend is there.
   */
  lemma RefreshedExact(e: EntryValue, f: Fetcher)
    ensures var (after, r) := Refreshed(e, f);
      && after.mode == e.mode && after.fetcher == Some(f)
      && (e.mode == URL && f.fetch("", e.etag).Fetched? ==>
          && after.content == f.fetch("", e.etag).content && after.etag == f.fetch("", e.etag).etag
          && r == Ok(after.etag))
      && (e.mode == Bucket || !f.fetch("", e.etag).Fetched? ==> after.content == e.content && after.etag == e.etag)
      && (e.mode == URL && f.fetch("", e.etag).NotModified? ==> r == Ok(e.etag))
      && (e.mode == URL && f.fetch("", e.etag).FetchError? ==> r == Err(BackendFailed))
      && (e.mode == Bucket ==> r == if f.reachable then Ok("") else Err(BackendFailed))
  {
  }

  /** A resource as its server holds it, without an ETag if the tag is empty. */
  datatype Resource = Resource(body: Bytes, etag: string)

  /** RFC 9110, section 13.1.2: If-None-Match fails, and 304 is the answer, when the tag matches. */
  function Answer(res: Resource, ifNoneMatch: string): FetchResult {
    if ifNoneMatch != "" && ifNoneMatch == res.etag then NotModified else Fetched(res.body, res.etag)
  }

  /**
   A conditional GET leaves the body an unconditional one would have fetched, except in one
   situation: the stored tag is the resource's tag but the stored content is not its body.
   Tags that identify bodies exclude it; a URL that is edited under a kept tag does not.
   */
  lemma ConditionalGetExact(e: EntryValue, res: Resource, reachable: bool)
    requires e.mode == URL
    ensures var (after, result) := Refreshed(e, Fetcher((_, ifNoneMatch) => Answer(res, ifNoneMatch), reachable));
      && result == Ok(res.etag)
      && (after.content == res.body <==> !(e.etag != "" && e.etag == res.etag && e.content != res.body))
  {
  }

  /** The entry is made anew when the key has none or the mode changed; a new one holds nothing. */
  function Installed(view: map<ObjectKey, EntryValue>, key: ObjectKey, mode: Mode): EntryValue {
    if key in view && view[key].mode == mode then view[key] else EntryValue(mode, None, "", [])
  }

  // ---- the registry -----------------------------------------------------------------------

  class ObjectEntry {
    var mode: Mode
    var fetcher: Option<Fetcher>
    var etag: string
    var content: Bytes

    constructor (mode: Mode)
      ensures Value() == EntryValue(mode, None, "", [])
    {
      this.mode, fetcher, etag, content := mode, None, "", [];
    }

    function Value(): EntryValue
      reads this
    {
      EntryValue(mode, fetcher, etag, content)
    }

    /** The part of `EnsureObjectCached` that runs under the entry's write lock. */
    method Refresh(backend: Fetcher) returns (r: Result<string, CacheError>)
      modifies this
      ensures (Value(), r) == Refreshed(old(Value()), backend)
    {
      fetcher := Some(backend);
      match mode
      case Bucket =>
        if !backend.reachable {
          return Err(BackendFailed);
        }
        return Ok("");
      case URL =>
        match backend.fetch("", etag)
        case NotModified =>
          return Ok(etag);
        case FetchError =>
          return Err(BackendFailed);
        case Fetched(body, tag) =>
          etag := tag;
          content := body;
          return Ok(tag);
    }
  }

  class ObjectRegistry {
    var objects: map<ObjectKey, ObjectEntry>

    constructor ()
      ensures Valid() && View() == map[]
    {
      objects := map[];
    }

    /** Every key has an entry of its own. */
    ghost predicate Valid()
      reads this
    {
      forall k, l :: k in objects && l in objects && objects[k] == objects[l] ==> k == l
    }

    ghost function Entries(): set<ObjectEntry>
      reads this
    {
      set k | k in objects :: objects[k]
    }

    ghost function View(): map<ObjectKey, EntryValue>
      reads this, Entries()
    {
      map k | k in objects :: objects[k].Value()
    }

    /** The part of `EnsureObjectCached` that runs under the registry's mutex. */
    method Install(key: ObjectKey, mode: Mode) returns (e: ObjectEntry)
      requires Valid()
      modifies this
      ensures Valid() && key in objects && objects[key] == e
      ensures e in old(Entries()) || fresh(e)
      ensures View() == old(View())[key := Installed(old(View()), key, mode)]
    {
      if key in objects && objects[key].mode == mode {
        e := objects[key];
      } else {
        e := new ObjectEntry(mode);
        objects := objects[key := e];
      }
    }

    method EnsureObjectCached(key: ObjectKey, mode: Mode, fetcher: Fetcher) returns (r: Result<string, CacheError>)
      requires Valid()
      modifies this, Entries()
      ensures Valid()
      ensures var (after, result) := Refreshed(Installed(old(View()), key, mode), fetcher);
        View() == old(View())[key := after] && r == result
    {
      ghost var before := View();
      var e := Install(key, mode);
      ghost var start := Installed(before, key, mode);
      assert e.Value() == start by {
        assert View()[key] == start;
      }
      r := RefreshEntry(key, fetcher);
    }

    method RefreshEntry(key: ObjectKey, fetcher: Fetcher) returns (r: Result<string, CacheError>)
      requires Valid() && key in objects
      modifies objects[key]
      ensures Valid()
      ensures (objects[key].Value(), r) == Refreshed(old(objects[key].Value()), fetcher)
      ensures View() == old(View())[key := objects[key].Value()]
    {
      ghost var before := View();
      r := objects[key].Refresh(fetcher);
      assert View() == before[key := objects[key].Value()] by {
        assert forall k :: k in objects && k != key ==> objects[k] != objects[key];
      }
    }

    /** URL mode serves the cached pair and never an empty content; bucket mode asks the backend. */
    method ReadObject(key: ObjectKey, path: string) returns (r: Result<(Bytes, string), CacheError>)
      requires Valid()
      ensures var before := View();
        if key !in before then r == Err(NoCache)
        else match before[key].mode
          case URL =>
            if before[key].content == [] then r == Err(NotYetFetched)
            else r == Ok((before[key].content, before[key].etag))
          case Bucket =>
            match before[key].fetcher
            case None => r == Err(NoFetcher)
            case Some(f) =>
              match f.fetch(path, "")
              case Fetched(content, etag) => r == Ok((content, etag))
              case _ => r == Err(BackendFailed)
    {
      if key !in objects {
        return Err(NoCache);
      }
      var e := objects[key];
      match e.mode
      case URL =>
        if e.content == [] {
          return Err(NotYetFetched);
        }
        return Ok((e.content, e.etag));
      case Bucket =>
        if e.fetcher.None? {
          return Err(NoFetcher);
        }
        match e.fetcher.value.fetch(path, "")
        case Fetched(content, etag) => return Ok((content, etag));
        case _ => return Err(BackendFailed);
    }

    method ForgetObject(key: ObjectKey)
      requires Valid()
      modifies this
      ensures Valid()
      ensures View() == old(View()) - {key} && Entries() <= old(Entries())
    {
      objects := objects - {key};
    }
  }
}
