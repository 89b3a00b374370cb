/** internal/transform/flat.go: key mapping and the content hash of a data map. */
module Flat {
  import opened Wrappers
  import opened GoStrings

  datatype DataMapping = DataMapping(key: string, from: string)

  /** The mapping names a source key that the decrypted file lacks. */
  datatype MissingKey = MissingKey(from: string, key: string)

  type DataMap = map<string, Bytes>

  // ---- mapping ----------------------------------------------------------------------------

  /** What the loop of `ApplyMapping` has built after the given mappings. */
  function Mapped(source: map<string, string>, mappings: seq<DataMapping>): Result<DataMap, MissingKey> {
    if mappings == [] then Ok(map[])
    else
      var last := mappings[|mappings| - 1];
      match Mapped(source, mappings[..|mappings| - 1])
      case Err(e) => Err(e)
      case Ok(out) =>
        if last.from in source then Ok(out[last.key := source[last.from]])
        else Err(MissingKey(last.from, last.key))
  }

  method ApplyMapping(source: map<string, string>, mappings: seq<DataMapping>)
    returns (r: Result<DataMap, MissingKey>)
    ensures r == Mapped(source, mappings)
  {
    var out: DataMap := map[];
    var i := 0;
    while i < |mappings|
      invariant 0 <= i <= |mappings|
      invariant Mapped(source, mappings[..i]) == Ok(out)
    {
      var m := mappings[i];
      assert mappings[..i + 1][..i] == mappings[..i];
      if m.from !in source {
        ErrorsPersist(source, mappings, i + 1);
        return Err(MissingKey(m.from, m.key));
      }
      out := out[m.key := source[m.from]];
      i := i + 1;
    }
    assert mappings[..i] == mappings;
    return Ok(out);
  }

  lemma {:induction false} ErrorsPersist(source: map<string, string>, mappings: seq<DataMapping>, n: nat)
    requires n <= |mappings| && Mapped(source, mappings[..n]).Err?
    ensures Mapped(source, mappings) == Mapped(source, mappings[..n])
    decreases |mappings| - n
  {
    if n < |mappings| {
      assert mappings[..n + 1][..n] == mappings[..n];
      ErrorsPersist(source, mappings, n + 1);
    } else {
      assert mappings[..n] == mappings;
    }
  }

  /** `i` is the last mapping that targets `k`. */
  ghost predicate LastFor(mappings: seq<DataMapping>, k: string, i: nat) {
    i < |mappings| && mappings[i].key == k && forall j :: i < j < |mappings| ==> mappings[j].key != k
  }

  /** `i` is the first mapping whose source key is absent. */
  ghost predicate FirstMissing(source: map<string, string>, mappings: seq<DataMapping>, i: nat) {
    i < |mappings| && mappings[i].from !in source && forall j :: 0 <= j < i ==> mappings[j].from in source
  }

  /** Every source key exists, `out` has exactly the mapped keys, and the last mapping of a key decides. */
  ghost predicate Realizes(source: map<string, string>, mappings: seq<DataMapping>, out: DataMap) {
    && (forall i :: 0 <= i < |mappings| ==> mappings[i].from in source)
    && (forall i :: 0 <= i < |mappings| ==> mappings[i].key in out)
    && (forall k | k in out :: exists i: nat :: LastFor(mappings, k, i) && out[k] == source[mappings[i].from])
  }

  /**
   Mapping is fail-closed and complete: a success realizes the mapping list, and a failure
   reports the first mapping whose source key is absent. As these exclude each other, it
   succeeds exactly when every source key exists.
   */
  lemma {:induction false} MappingIsFailClosed(source: map<string, string>, mappings: seq<DataMapping>)
    ensures match Mapped(source, mappings)
      case Ok(out) => Realizes(source, mappings, out)
      case Err(e) => exists i: nat ::
          FirstMissing(source, mappings, i) && e == MissingKey(mappings[i].from, mappings[i].key)
  {
    if mappings != [] {
      var n := |mappings| - 1;
      var front, last := mappings[..n], mappings[n];
      MappingIsFailClosed(source, front);
      match Mapped(source, front)
      case Err(e) =>
        var i: nat :| FirstMissing(source, front, i) && e == MissingKey(front[i].from, front[i].key);
        assert FirstMissing(source, mappings, i);
      case Ok(out) =>
        if last.from !in source {
          assert forall j :: 0 <= j < n ==> mappings[j] == front[j];
          assert FirstMissing(source, mappings, n);
        } else {
          MappingExtends(source, mappings, out);
        }
    }
  }

  lemma MappingExtends(source: map<string, string>, mappings: seq<DataMapping>, out: DataMap)
    requires mappings != []
    requires Realizes(source, mappings[..|mappings| - 1], out)
    requires mappings[|mappings| - 1].from in source
    ensures var last := mappings[|mappings| - 1];
      Realizes(source, mappings, out[last.key := source[last.from]])
  {
    var n := |mappings| - 1;
    var front, last := mappings[..n], mappings[n];
    var out' := out[last.key := source[last.from]];
    assert forall i :: 0 <= i < n ==> mappings[i] == front[i];
    forall k | k in out'
      ensures exists i: nat :: LastFor(mappings, k, i) && out'[k] == source[mappings[i].from]
    {
      if k == last.key {
        assert LastFor(mappings, k, n);
      } else {
        var i: nat :| LastFor(front, k, i) && out[k] == source[front[i].from];
        assert LastFor(mappings, k, i);
      }
    }
  }

  ghost predicate DistinctTargets(mappings: seq<DataMapping>) {
    forall i, j :: 0 <= i < j < |mappings| ==> mappings[i].key != mappings[j].key
  }

  /** With distinct target keys the order of `spec.data` does not matter. */
  lemma {:induction false} MappingOrderIrrelevant(
      source: map<string, string>, a: seq<DataMapping>, b: seq<DataMapping>)
    requires multiset(a) == multiset(b)
    requires DistinctTargets(a) && DistinctTargets(b)
    ensures Mapped(source, a).Ok? <==> Mapped(source, b).Ok?
    ensures Mapped(source, a).Ok? ==> Mapped(source, a) == Mapped(source, b)
  {
    SameMembers(a, b);
    SuccessCarries(source, a, b);
    SuccessCarries(source, b, a);
    if Mapped(source, a).Ok? {
      assert Mapped(source, a).value == Mapped(source, b).value;
    }
  }

  lemma SameMembers<T>(a: seq<T>, b: seq<T>)
    requires multiset(a) == multiset(b)
    ensures forall m :: m in a <==> m in b
  {
    forall m ensures m in a <==> m in b {
      assert m in a <==> m in multiset(a);
      assert m in b <==> m in multiset(b);
    }
  }

  lemma SuccessCarries(source: map<string, string>, a: seq<DataMapping>, b: seq<DataMapping>)
    requires forall m :: m in a <==> m in b
    requires DistinctTargets(b)
    ensures Mapped(source, b).Ok? ==> Mapped(source, a).Ok?
    ensures Mapped(source, a).Ok? && Mapped(source, b).Ok? ==>
      forall k :: k in Mapped(source, a).value ==>
        k in Mapped(source, b).value && Mapped(source, a).value[k] == Mapped(source, b).value[k]
  {
    MappingIsFailClosed(source, a);
    MappingIsFailClosed(source, b);
    if Mapped(source, b).Ok? {
      forall i | 0 <= i < |a| ensures a[i].from in source {
        assert a[i] in a;
        var j :| 0 <= j < |b| && b[j] == a[i];
      }
      if Mapped(source, a).Ok? {
        RealizesWithin(source, a, b, Mapped(source, a).value, Mapped(source, b).value);
      }
    }
  }

  lemma RealizesWithin(
      source: map<string, string>, a: seq<DataMapping>, b: seq<DataMapping>, x: DataMap, y: DataMap)
    requires forall m :: m in a <==> m in b
    requires DistinctTargets(b)
    requires Realizes(source, a, x) && Realizes(source, b, y)
    ensures forall k :: k in x ==> k in y && x[k] == y[k]
  {
    forall k | k in x ensures k in y && x[k] == y[k] {
      var i: nat :| LastFor(a, k, i) && x[k] == source[a[i].from];
      assert a[i] in b;
      var j :| 0 <= j < |b| && b[j] == a[i];
      var j': nat :| LastFor(b, k, j') && y[k] == source[b[j'].from];
    }
  }

  // ---- hashing ----------------------------------------------------------------------------

  /** The hexadecimal SHA-256 digest: some fixed function, about which nothing is assumed. */
  const Sha256Hex: Bytes -> string

  /** The bytes written for the given keys, in the order given. */
  function Framed(keys: seq<string>, data: DataMap): Bytes
    requires forall k :: k in keys ==> k in data
  {
    if keys == [] then []
    else keys[0] + [NUL] + data[keys[0]] + [NUL] + Framed(keys[1..], data)
  }

  /** The byte stream fed to SHA-256: entries framed by NUL bytes in ascending key order. */
  ghost function Encode(data: DataMap): Bytes {
    Framed(SortedKeys(data.Keys), data)
  }

  lemma {:induction false} FramedSplit(keys: seq<string>, data: DataMap, i: nat)
    requires forall k :: k in keys ==> k in data
    requires i < |keys|
    ensures Framed(keys[..i + 1], data) == Framed(keys[..i], data) + keys[i] + [NUL] + data[keys[i]] + [NUL]
  {
    if i > 0 {
      var rest := keys[1..];
      FramedSplit(rest, data, i - 1);
      assert keys[..i + 1][1..] == rest[..i] && keys[..i][1..] == rest[..i - 1];
    } else {
      assert keys[..1][1..] == [];
    }
  }

  /**
   Collects the keys in whatever order the runtime iterates the map and sorts them. The
   result does not depend on the iteration order.
   */
  method CollectKeys(data: DataMap) returns (keys: seq<string>)
    ensures keys == SortedKeys(data.Keys)
  {
    keys := [];
    var pending := data.Keys;
    while pending != {}
      invariant pending <= data.Keys && Distinct(keys)
      invariant forall k :: k in keys <==> k in data.Keys && k !in pending
      decreases |pending|
    {
      var k :| k in pending;
      keys := keys + [k];
      pending := pending - {k};
    }
    SortAscending(keys);
    keys := SortStrings(keys);
    AscendingUnique(keys, SortedKeys(data.Keys), data.Keys);
  }

  lemma WritesEntry(header: Bytes, keys: seq<string>, data: DataMap, i: nat, stream: Bytes)
    requires (forall k :: k in keys ==> k in data) && i < |keys|
    requires stream == header + Framed(keys[..i], data)
    ensures stream + keys[i] + [NUL] + data[keys[i]] + [NUL] == header + Framed(keys[..i + 1], data)
  {
    FramedSplit(keys, data, i);
    Appended(header, Framed(keys[..i], data), keys[i] + [NUL], data[keys[i]] + [NUL]);
  }

  lemma Appended(header: Bytes, stream: Bytes, key: Bytes, value: Bytes)
    ensures header + stream + key + value == header + (stream + key + value)
  {
  }

  /** Appends the framed entries to what was written before. */
  method WriteEntries(header: Bytes, data: DataMap) returns (stream: Bytes)
    ensures stream == header + Encode(data)
  {
    var keys := CollectKeys(data);
    stream := header;
    var i := 0;
    while i < |keys|
      invariant 0 <= i <= |keys|
      invariant stream == header + Framed(keys[..i], data)
    {
      WritesEntry(header, keys, data, i, stream);
      stream := stream + keys[i] + [NUL];
      stream := stream + data[keys[i]] + [NUL];
      i := i + 1;
    }
    assert keys[..i] == keys;
  }

  method HashSecretData(data: DataMap) returns (hash: string)
    ensures hash == ContentHash(Encode(data))
  {
    var stream := WriteEntries([], data);
    assert stream == Encode(data);
    hash := ContentHash(stream);
  }

  function ContentHash(stream: Bytes): string {
    "sha256:" + Sha256Hex(stream)
  }

  // ---- reading the stream back ------------------------------------------------------------

  /** Reads one NUL-framed stream back into a NUL-free map. */
  function Decode(stream: Bytes): (r: Option<DataMap>)
    ensures r.Some? ==> NulFreeMap(r.value)
    decreases |stream|
  {
    if stream == [] then Some(map[])
    else
      match Cut(stream, NUL)
      case None => None
      case Some((key, afterKey)) =>
        match Cut(afterKey, NUL)
        case None => None
        case Some((value, rest)) =>
          match Decode(rest)
          case None => None
          case Some(tail) => if key in tail then None else Some(tail[key := value])
  }

  predicate NulFreeMap(data: DataMap) {
    forall k :: k in data ==> NulFree(k) && NulFree(data[k])
  }

  ghost function Restrict(data: DataMap, keys: seq<string>): DataMap
    requires forall k :: k in keys ==> k in data
  {
    map k | k in data && k in keys :: data[k]
  }

  lemma {:induction false} DecodeEntry(key: string, value: Bytes, rest: Bytes)
    requires NulFree(key) && NulFree(value)
    requires Decode(rest).Some? && key !in Decode(rest).value
    ensures Decode(key + [NUL] + (value + [NUL] + rest)) == Some(Decode(rest).value[key := value])
  {
    var stream := key + [NUL] + (value + [NUL] + rest);
    CutOfJoin(key, value + [NUL] + rest, NUL);
    CutOfJoin(value, rest, NUL);
    assert stream[|key|] == NUL;
    assert stream != [];
  }

  lemma RestrictCons(keys: seq<string>, data: DataMap)
    requires (forall k :: k in keys ==> k in data) && keys != [] && keys[0] !in keys[1..]
    ensures keys[0] !in Restrict(data, keys[1..])
    ensures Restrict(data, keys) == Restrict(data, keys[1..])[keys[0] := data[keys[0]]]
  {
    assert forall k :: k in keys <==> k == keys[0] || k in keys[1..];
  }

  lemma FramedCons(keys: seq<string>, data: DataMap)
    requires (forall k :: k in keys ==> k in data) && keys != []
    ensures Framed(keys, data) == keys[0] + [NUL] + (data[keys[0]] + [NUL] + Framed(keys[1..], data))
  {
  }

  lemma {:induction false} DecodeFramed(keys: seq<string>, data: DataMap)
    requires forall k :: k in keys ==> k in data
    requires Distinct(keys) && NulFreeMap(data)
    ensures Decode(Framed(keys, data)) == Some(Restrict(data, keys))
  {
    if keys == [] {
      assert Restrict(data, keys) == map[];
    } else {
      var rest := keys[1..];
      assert Distinct(rest) && keys[0] !in rest;
      DecodeFramed(rest, data);
      FramedCons(keys, data);
      RestrictCons(keys, data);
      DecodeEntry(keys[0], data[keys[0]], Framed(rest, data));
    }
  }

  /**
   Decoding undoes encoding for exactly the maps whose keys and values contain no NUL; the
   decoder yields no others. `Collisions` says which streams have other readings.
   */
  lemma {:induction false} DecodeUndoesEncode(data: DataMap)
    ensures Decode(Encode(data)) == Some(data) <==> NulFreeMap(data)
  {
    if NulFreeMap(data) {
      var keys := SortedKeys(data.Keys);
      forall i, j | 0 <= i < j < |keys| ensures keys[i] != keys[j] {
        LessIrreflexive(keys[i]);
      }
      DecodeFramed(keys, data);
      assert Restrict(data, keys) == data;
    }
  }

  /** The stream identifies the data, as long as nothing contains the separator. */
  lemma {:induction false} EncodeInjective(a: DataMap, b: DataMap)
    requires NulFreeMap(a) && NulFreeMap(b)
    ensures Encode(a) == Encode(b) <==> a == b
  {
    DecodeUndoesEncode(a);
    DecodeUndoesEncode(b);
  }

  /** Two NULs inside a value are enough for two different maps to share a stream. */
  lemma {:induction false} EncodeAmbiguousWithNul(p: Bytes, q: Bytes, r: Bytes)
    requires Less("a", p)
    ensures Encode(map["a" := q + [NUL] + p + [NUL] + r]) == Encode(map["a" := q, p := r])
    ensures map["a" := q + [NUL] + p + [NUL] + r] != map["a" := q, p := r]
  {
    var joined: DataMap := map["a" := q + [NUL] + p + [NUL] + r];
    var split: DataMap := map["a" := q, p := r];
    LessIrreflexive("a");
    AscendingUnique(["a"], SortedKeys(joined.Keys), joined.Keys);
    AscendingUnique(["a", p], SortedKeys(split.Keys), split.Keys);
    assert ["a"][1..] == [] && ["a", p][1..] == [p] && [p][1..] == [];
    assert p in split && p !in joined;
    calc {
      Encode(joined);
      "a" + [NUL] + joined["a"] + [NUL] + Framed([], joined);
      "a" + [NUL] + q + [NUL] + (p + [NUL] + r + [NUL]);
      "a" + [NUL] + split["a"] + [NUL] + Framed([p], split);
      Encode(split);
    }
  }
}
