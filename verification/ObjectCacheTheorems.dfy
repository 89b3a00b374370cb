/** Linearizability of the object cache, and conditional GET as a refinement of plain GET. */
module ObjectCacheTheorems {
  import opened Wrappers
  import opened GoStrings
  import opened ObjectEntries
  import opened ObjectCache

  // ---- traces -----------------------------------------------------------------------------

  /** States `t` joined by steps `l`. */
  ghost predicate IsTrace(t: seq<State>, l: seq<Step>) {
    |t| == |l| + 1 && forall i :: 0 <= i < |l| ==> Enabled(t[i], l[i]) && t[i + 1] == After(t[i], l[i])
  }

  lemma StartInv()
    ensures Inv(START)
  {
    forall k ensures HolderOk(START, k) && WriterOk(START, WriterOf(START, k)) && InPlace(START, k) {
    }
  }

  lemma {:induction false} TraceInv(t: seq<State>, l: seq<Step>, n: nat)
    requires IsTrace(t, l) && Inv(t[0]) && n < |t|
    ensures Inv(t[n])
  {
    if n > 0 {
      TraceInv(t, l, n - 1);
      InvStep(t[n - 1], l[n - 1]);
    }
  }

  // ---- linearizable reads -----------------------------------------------------------------

  /** The entry is the one in the map for the key and holds this pair. */
  predicate Holding(s: State, key: ObjectKey, eid: nat, pair: (Bytes, string)) {
    key in s.objects && s.objects[key] == eid && EntryExists(s, eid) && s.heap[eid].Pair() == pair
  }

  ghost predicate HeldDuring(t: seq<State>, from: nat, to: nat, key: ObjectKey, eid: nat, pair: (Bytes, string))
    requires to < |t|
  {
    exists m :: from <= m <= to && Holding(t[m], key, eid, pair)
  }

  predicate Active(s: State, r: nat) {
    r in s.readers && (s.readers[r].Found? || s.readers[r].Reading? || s.readers[r].HasContent?)
  }

  /** An entry never moves to another key. */
  predicate Belongs(s: State, eid: nat, key: ObjectKey) {
    forall k :: k in s.objects && s.objects[k] == eid ==> k == key
  }

  /** One step either keeps the entry in the map, or leaves its pair as it was. */
  lemma FrozenOutsideMap(s: State, step: Step, t: State, key: ObjectKey, eid: nat)
    requires Inv(s) && Frame(s, step, t) && MapOk(t) && EntryExists(s, eid) && Belongs(s, eid, key)
    ensures EntryExists(t, eid) && Belongs(t, eid, key)
    ensures Holding(t, key, eid, t.heap[eid].Pair()) || t.heap[eid].Pair() == s.heap[eid].Pair()
  {
    if ByWriter(step) {
      assert InPlace(s, step.k) && InPlace(t, step.k);
    }
  }

  /**
   What one step does to a read under way: it goes on with the same entry, which either is in
   the map for the key afterwards or keeps its pair. Nothing moves the entry to another key.
   */
  predicate Calm(s: State, s': State, r: nat, key: ObjectKey) {
    r in s.readers ==>
      && r in s'.readers
      && (Active(s', r) ==>
          && Active(s, r) && s'.readers[r].eid == s.readers[r].eid && s'.readers[r].key == s.readers[r].key
          && (EntryExists(s, s.readers[r].eid) && Belongs(s, s.readers[r].eid, key) ==>
            CalmEntry(s, s', s.readers[r].eid, key)))
  }

  predicate CalmEntry(s: State, s': State, eid: nat, key: ObjectKey)
    requires EntryExists(s, eid)
  {
    && EntryExists(s', eid) && Belongs(s', eid, key)
    && (Holding(s', key, eid, s'.heap[eid].Pair()) || s'.heap[eid].Pair() == s.heap[eid].Pair())
  }

  lemma ReaderKeepsEntry(s: State, step: Step, r: nat)
    requires Enabled(s, step) && r in s.readers
    ensures r in After(s, step).readers
    ensures Active(After(s, step), r) ==>
      Active(s, r) && After(s, step).readers[r].eid == s.readers[r].eid
        && After(s, step).readers[r].key == s.readers[r].key
  {
  }

  lemma CalmStep(s: State, step: Step, r: nat, key: ObjectKey)
    requires Inv(s) && Enabled(s, step)
    ensures Calm(s, After(s, step), r, key)
  {
    if r in s.readers {
      ReaderKeepsEntry(s, step, r);
      if Active(After(s, step), r) && EntryExists(s, s.readers[r].eid) && Belongs(s, s.readers[r].eid, key) {
        Frames(s, step);
        MapStep(s, step);
        FrozenOutsideMap(s, step, After(s, step), key, s.readers[r].eid);
      }
    }
  }

  ghost predicate CalmTrace(t: seq<State>, r: nat, key: ObjectKey) {
    forall n :: 0 <= n < |t| - 1 ==> Calm(t[n], t[n + 1], r, key)
  }

  lemma TraceIsCalm(t: seq<State>, l: seq<Step>, r: nat, key: ObjectKey)
    requires IsTrace(t, l) && Inv(t[0])
    ensures CalmTrace(t, r, key)
  {
    forall n | 0 <= n < |t| - 1 ensures Calm(t[n], t[n + 1], r, key) {
      TraceInv(t, l, n);
      CalmStep(t[n], l[n], r, key);
    }
  }

  /** The reader works on the key's entry, whose pair is one it held in the map since `from`. */
  ghost predicate PairKnown(t: seq<State>, from: nat, j: nat, r: nat, key: ObjectKey)
    requires j < |t|
  {
    r in t[j].readers &&
    (Active(t[j], r) ==>
      var eid := t[j].readers[r].eid;
      && t[j].readers[r].key == key && EntryExists(t[j], eid) && Belongs(t[j], eid, key)
      && HeldDuring(t, from, j, key, eid, t[j].heap[eid].Pair()))
  }

  lemma LookUpFinds(s: State, r: nat, key: ObjectKey)
    requires Inv(s) && Enabled(s, LookUp(r, key))
    ensures var s' := After(s, LookUp(r, key));
      r in s'.readers &&
      (Active(s', r) ==>
        var eid := s'.readers[r].eid;
        && s'.readers[r].key == key && EntryExists(s', eid) && Belongs(s', eid, key)
        && Holding(s', key, eid, s'.heap[eid].Pair()))
  {
  }

  lemma ExtendHeld(t: seq<State>, from: nat, j: nat, key: ObjectKey, eid: nat)
    requires from < j < |t| && EntryExists(t[j - 1], eid) && EntryExists(t[j], eid)
    requires HeldDuring(t, from, j - 1, key, eid, t[j - 1].heap[eid].Pair())
    requires Holding(t[j], key, eid, t[j].heap[eid].Pair()) || t[j].heap[eid].Pair() == t[j - 1].heap[eid].Pair()
    ensures HeldDuring(t, from, j, key, eid, t[j].heap[eid].Pair())
  {
    var pair := t[j].heap[eid].Pair();
    if !Holding(t[j], key, eid, pair) {
      var m :| from <= m <= j - 1 && Holding(t[m], key, eid, pair);
    }
  }

  /**
   While a read is under way, the pair its entry holds is one the entry held in the map since
   the read began: an entry that left the map is never written again.
   */
  lemma {:induction false} PairWasCurrent(t: seq<State>, from: nat, j: nat, r: nat, key: ObjectKey)
    requires from <= j < |t| && CalmTrace(t, r, key) && PairKnown(t, from, from, r, key)
    ensures PairKnown(t, from, j, r, key)
    decreases j
  {
    if j > from {
      PairWasCurrent(t, from, j - 1, r, key);
      assert Calm(t[j - 1], t[j - 1 + 1], r, key);
      if Active(t[j], r) {
        ExtendHeld(t, from, j, key, t[j].readers[r].eid);
      }
    }
  }

  /**
   Linearizable reads. In every trace, a `ReadObject` call in URL mode that looked the key up
   at step `i` and completed at step `j` returns a pair that one single response delivered,
   with a content that is not empty, and that the entry of the key held, in the map, at some
   moment between lookup and completion: whatever refreshes, mode changes and evictions ran
   in between.
   */
  lemma LinearizableRead(t: seq<State>, l: seq<Step>, i: nat, j: nat, r: nat, key: ObjectKey)
    requires IsTrace(t, l) && t[0] == START && i < j < |l|
    requires l[i] == LookUp(r, key) && l[j] == ReadTag(r)
    ensures r in t[j + 1].readers && t[j + 1].readers[r].Done? && t[j + 1].readers[r].key == key
    ensures var done := t[j + 1].readers[r];
      && done.content != [] && Response(done.eid, done.content, done.etag) in t[j + 1].served
      && HeldDuring(t, i + 1, j, key, done.eid, (done.content, done.etag))
  {
    StartInv();
    TraceInv(t, l, i);
    TraceInv(t, l, j);
    TraceIsCalm(t, l, r, key);
    ReadStarts(t, l, i, r, key);
    PairWasCurrent(t, i + 1, j, r, key);
    ReadCompletes(t[j], r);
  }

  lemma ReadStarts(t: seq<State>, l: seq<Step>, i: nat, r: nat, key: ObjectKey)
    requires IsTrace(t, l) && i < |l| && Inv(t[i]) && l[i] == LookUp(r, key)
    ensures PairKnown(t, i + 1, i + 1, r, key)
  {
    LookUpFinds(t[i], r, key);
    if Active(t[i + 1], r) {
      var eid := t[i + 1].readers[r].eid;
      assert Holding(t[i + 1], key, eid, t[i + 1].heap[eid].Pair());
    }
  }

  lemma ReadCompletes(s: State, r: nat)
    requires Inv(s) && Enabled(s, ReadTag(r))
    ensures var p := s.readers[r];
      && EntryExists(s, p.eid) && p.content == s.heap[p.eid].content && p.content != []
      && Response(p.eid, p.content, s.heap[p.eid].etag) in s.served
      && After(s, ReadTag(r)).readers[r] == Done(p.key, p.eid, p.content, s.heap[p.eid].etag)
      && After(s, ReadTag(r)).served == s.served
  {
    assert ReaderOk(s, r);
    assert HoldsRead(s, r, s.readers[r].eid);
    ReaderExcludesWriter(s, r, s.readers[r].eid);
  }

  // ---- conditional GET refines plain GET --------------------------------------------------

  /** RFC 9110, section 8.8.3: a strong entity tag identifies the body of its resource. */
  const BodyFor: (string, string) -> Bytes

  predicate Tagging(url: string, body: Bytes, etag: string) {
    etag != "" ==> body == BodyFor(url, etag)
  }

  /** A refresh under a stored tag fetches from the URL that the tag came from. */
  predicate KeepsUrl(s: State, step: Step)
    requires Enabled(s, step)
  {
    step.Acquire? ==>
      var w := WriterOf(s, step.k);
      w.mode.URL? && s.heap[w.eid].etag != "" ==> w.url == s.heap[w.eid].url
  }

  predicate Honest(s: State, step: Step) {
    && Enabled(s, step) && KeepsUrl(s, step)
    && (step.Publish? ==> Tagging(step.url, step.res.body, step.res.etag))
  }

  ghost predicate WriterFaithful(s: State, k: ObjectKey) {
    match WriterOf(s, k)
    case Idle => true
    case Installed(_, _, _) => true
    case Locked(eid, _, url, _) => EntryExists(s, eid) && s.heap[eid].url == url
    case Answered(eid, body, etag, _, _) => EntryExists(s, eid) && Tagging(s.heap[eid].url, body, etag)
    case Tagged(eid, body, etag, _, _) => EntryExists(s, eid) && Tagging(s.heap[eid].url, body, etag)
    case Finished(eid, result, _, asOf) =>
      EntryExists(s, eid) && s.heap[eid].mode.URL? && result.Ok? ==>
        s.heap[eid].Pair() == (asOf.body, asOf.etag)
  }

  ghost predicate EntryFaithful(s: State, eid: nat) {
    EntryExists(s, eid) && s.heap[eid].mode.URL? && !MidStore(s, eid) ==>
      Tagging(s.heap[eid].url, s.heap[eid].content, s.heap[eid].etag)
  }

  ghost predicate Faithful(s: State) {
    && (forall u :: u in s.upstream ==> Tagging(u, s.upstream[u].body, s.upstream[u].etag))
    && (forall k :: WriterFaithful(s, k))
    && (forall e: nat :: EntryFaithful(s, e))
  }

  /** The entry its writer works on. */
  lemma EntryFaithfulOwn(s: State, step: Step)
    requires Honest(s, step) && ByWriter(step) && WriterFacts(s, step.k) && !WriterOf(s, step.k).Idle?
    requires WriterFaithful(s, step.k) && EntryFaithful(s, WriterOf(s, step.k).eid)
    requires s.heap[WriterOf(s, step.k).eid].writer.Some? ==> s.heap[WriterOf(s, step.k).eid].writer == Some(step.k)
    ensures EntryFaithful(After(s, step), WriterOf(s, step.k).eid)
  {
  }

  lemma EntryFaithfulOther(s: State, step: Step, t: State, eid: nat)
    requires Frame(s, step, t) && EntryFaithful(s, eid) && (EntryExists(s, eid) ==> LockOk(s, eid))
    requires ByWriter(step) ==> HolderOk(s, step.k) && (WriterOf(s, step.k).Idle? || WriterOf(s, step.k).eid != eid)
    ensures EntryFaithful(t, eid)
  {
  }

  lemma WriterIsOwn(s: State, k: ObjectKey)
    requires Inv(s) && k in s.objects && s.heap[s.objects[k]].writer.Some?
    ensures s.heap[s.objects[k]].writer == Some(k)
  {
    var other := s.heap[s.objects[k]].writer.value;
    assert LockOk(s, s.objects[k]) && InPlace(s, other);
  }

  lemma EntryFaithfulStep(s: State, step: Step, eid: nat)
    requires Inv(s) && Faithful(s) && Honest(s, step)
    ensures EntryFaithful(After(s, step), eid)
  {
    ActorFacts(s, step);
    assert EntryFaithful(s, eid) && (EntryExists(s, eid) ==> LockOk(s, eid));
    if ByWriter(step) && !WriterOf(s, step.k).Idle? && WriterOf(s, step.k).eid == eid {
      assert WriterFaithful(s, step.k);
      if s.heap[eid].writer.Some? {
        WriterIsOwn(s, step.k);
      }
      EntryFaithfulOwn(s, step);
    } else {
      Frames(s, step);
      EntryFaithfulOther(s, step, After(s, step), eid);
    }
  }

  lemma WriterFaithfulOther(s: State, step: Step, t: State, k: ObjectKey)
    requires Inv(s) && Faithful(s) && Frame(s, step, t) && !(ByWriter(step) && step.k == k)
    ensures WriterFaithful(t, k)
  {
    assert WriterFaithful(s, k) && WriterOk(s, WriterOf(s, k)) && HolderOk(s, k);
    assert ByWriter(step) ==> HolderOk(s, step.k);
    WriterStepOther(s, step, t, k);
  }

  lemma WriterFaithfulOwn(s: State, step: Step, k: ObjectKey)
    requires Honest(s, step) && ByWriter(step) && step.k == k && WriterFacts(s, k) && WriterFaithful(s, k)
    requires forall u :: u in s.upstream ==> Tagging(u, s.upstream[u].body, s.upstream[u].etag)
    requires !WriterOf(s, k).Idle? ==> EntryFaithful(s, WriterOf(s, k).eid)
    ensures WriterFaithful(After(s, step), k)
  {
  }

  lemma FaithfulStep(s: State, step: Step)
    requires Inv(s) && Faithful(s) && Honest(s, step)
    ensures Faithful(After(s, step))
  {
    forall e: nat ensures EntryFaithful(After(s, step), e) {
      EntryFaithfulStep(s, step, e);
    }
    forall k ensures WriterFaithful(After(s, step), k) {
      WriterFaithfulStep(s, step, k);
    }
    Frames(s, step);
  }

  lemma WriterFaithfulStep(s: State, step: Step, k: ObjectKey)
    requires Inv(s) && Faithful(s) && Honest(s, step)
    ensures WriterFaithful(After(s, step), k)
  {
    if ByWriter(step) && step.k == k {
      ActorFacts(s, step);
      assert WriterFaithful(s, k);
      assert !WriterOf(s, k).Idle? ==> EntryFaithful(s, WriterOf(s, k).eid);
      WriterFaithfulOwn(s, step, k);
    } else {
      Frames(s, step);
      WriterFaithfulOther(s, step, After(s, step), k);
    }
  }

  ghost predicate HonestTrace(t: seq<State>, l: seq<Step>) {
    IsTrace(t, l) && t[0] == START && forall i :: 0 <= i < |l| ==> Honest(t[i], l[i])
  }

  lemma {:induction false} TraceFaithful(t: seq<State>, l: seq<Step>, n: nat)
    requires HonestTrace(t, l) && n < |t|
    ensures Faithful(t[n])
  {
    StartInv();
    if n > 0 {
      TraceFaithful(t, l, n - 1);
      TraceInv(t, l, n - 1);
      FaithfulStep(t[n - 1], l[n - 1]);
    } else {
      forall k ensures WriterFaithful(START, k) {
      }
    }
  }

  /**
   Where tags identify bodies and no refresh takes a tag to another URL than it came from, a
   conditional GET is as good as a plain one: in every trace, a refresh that ends well leaves
   exactly the body and tag the upstream had at the moment of the fetch and returns that tag,
   and one that fails leaves the pair it found. Dropping the entry, or making it anew,
   drops the tag, so a URL may change whenever that happens.
   */
  lemma ConditionalGetRefinesGet(t: seq<State>, l: seq<Step>, n: nat, k: ObjectKey)
    requires HonestTrace(t, l) && n < |t| && WriterOf(t[n], k).Finished?
    ensures var w := WriterOf(t[n], k);
      && EntryExists(t[n], w.eid)
      && (w.result.Ok? && t[n].heap[w.eid].mode.URL? ==>
          t[n].heap[w.eid].Pair() == (w.asOf.body, w.asOf.etag) && w.result.value == w.asOf.etag)
      && (w.result.Err? ==> t[n].heap[w.eid].Pair() == w.before)
  {
    StartInv();
    TraceInv(t, l, n);
    TraceFaithful(t, l, n);
    assert WriterOk(t[n], WriterOf(t[n], k)) && WriterFaithful(t[n], k);
  }

  // ---- runs put together -------------------------------------------------------------------

  lemma Joined(t: seq<State>, l: seq<Step>, u: seq<State>, m: seq<Step>)
    requires IsTrace(t, l) && IsTrace(u, m) && t[|l|] == u[0]
    ensures IsTrace(t + u[1..], l + m)
  {
    var all, steps := t + u[1..], l + m;
    forall i | 0 <= i < |l|
      ensures Enabled(all[i], steps[i]) && all[i + 1] == After(all[i], steps[i])
    {
      assert all[i] == t[i] && all[i + 1] == t[i + 1] && steps[i] == l[i];
    }
    forall i | |l| <= i < |steps|
      ensures Enabled(all[i], steps[i]) && all[i + 1] == After(all[i], steps[i])
    {
      var j := i - |l|;
      assert all[i] == u[j] && all[i + 1] == u[j + 1] && steps[i] == m[j];
    }
  }

  /** A run, known by its first and its last state. */
  ghost predicate Leads(s: State, l: seq<Step>, t: State) {
    exists trace :: IsRun(trace, s, l, t)
  }

  ghost predicate IsRun(trace: seq<State>, s: State, l: seq<Step>, t: State) {
    IsTrace(trace, l) && trace[0] == s && trace[|l|] == t
  }

  lemma RunsJoin(x: seq<State>, s: State, l: seq<Step>, t: State, y: seq<State>, m: seq<Step>, u: State)
    requires IsRun(x, s, l, t) && IsRun(y, t, m, u)
    ensures IsRun(x + y[1..], s, l + m, u)
  {
    Joined(x, l, y, m);
  }

  lemma Follows(s: State, l: seq<Step>, t: State, m: seq<Step>, u: State)
    requires Leads(s, l, t) && Leads(t, m, u)
    ensures Leads(s, l + m, u)
  {
    var x :| IsRun(x, s, l, t);
    var y :| IsRun(y, t, m, u);
    RunsJoin(x, s, l, t, y, m, u);
  }

  lemma OneStep(s: State, a: Step, t: State)
    requires Enabled(s, a) && t == After(s, a)
    ensures Leads(s, [a], t)
  {
    assert IsRun([s, t], s, [a], t);
  }

  lemma TwoSteps(s: State, a: Step, t: State, b: Step, u: State)
    requires Enabled(s, a) && t == After(s, a) && Enabled(t, b) && u == After(t, b)
    ensures Leads(s, [a, b], u)
  {
    assert IsRun([s, t, u], s, [a, b], u);
  }
}
