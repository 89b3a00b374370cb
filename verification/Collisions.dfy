/**
 Exactly when the bytes that are hashed identify the data: for which maps, and for which
 manifests, some other one has the same stream.
 */
module Collisions {
  import opened GoStrings
  import opened Flat
  import opened Manifests

  // ---- counting separators -----------------------------------------------------------------

  function CountNul(s: Bytes): nat {
    if s == [] then 0 else (if s[0] == NUL then 1 else 0) + CountNul(s[1..])
  }

  lemma {:induction false} CountConcat(a: Bytes, b: Bytes)
    ensures CountNul(a + b) == CountNul(a) + CountNul(b)
  {
    if a == [] {
      assert a + b == b;
    } else {
      CountConcat(a[1..], b);
      assert (a + b)[1..] == a[1..] + b;
    }
  }

  lemma {:induction false} CountZero(s: Bytes)
    ensures CountNul(s) == 0 <==> NulFree(s)
  {
    if s != [] {
      CountZero(s[1..]);
      assert s == [s[0]] + s[1..];
    }
  }

  predicate NulFreeEntry(data: DataMap, k: string) {
    k in data ==> NulFree(k) && NulFree(data[k])
  }

  /** An entry has its two separators, and more exactly if its key or its value contains one. */
  lemma CountEntry(key: string, value: Bytes, rest: Bytes)
    ensures CountNul(key + [NUL] + value + [NUL] + rest) == CountNul(key) + CountNul(value) + 2 + CountNul(rest)
  {
    assert CountNul([NUL]) == 1;
    CountConcat(key, [NUL]);
    CountConcat(key + [NUL], value);
    CountConcat(key + [NUL] + value, [NUL]);
    CountConcat(key + [NUL] + value + [NUL], rest);
  }

  lemma {:induction false} CountFramed(keys: seq<string>, data: DataMap)
    requires forall k :: k in keys ==> k in data
    ensures CountNul(Framed(keys, data)) >= 2 * |keys|
    ensures CountNul(Framed(keys, data)) == 2 * |keys| <==> forall k :: k in keys ==> NulFreeEntry(data, k)
  {
    if keys != [] {
      var rest := keys[1..];
      CountFramed(rest, data);
      CountEntry(keys[0], data[keys[0]], Framed(rest, data));
      CountZero(keys[0]);
      CountZero(data[keys[0]]);
      assert forall k :: k in keys <==> k == keys[0] || k in rest;
      assert NulFreeEntry(data, keys[0]) <==> CountNul(keys[0]) + CountNul(data[keys[0]]) == 0;
    }
  }

  lemma {:induction false} DistinctSize(keys: seq<string>, s: set<string>)
    requires Distinct(keys) && forall k :: k in keys <==> k in s
    ensures |keys| == |s|
  {
    if keys == [] {
      assert s == {};
    } else {
      var rest := keys[1..];
      assert Distinct(rest) && keys[0] !in rest;
      DistinctSize(rest, s - {keys[0]});
    }
  }

  lemma KeysListed(data: DataMap)
    ensures Distinct(SortedKeys(data.Keys)) && |SortedKeys(data.Keys)| == |data|
  {
    var keys := SortedKeys(data.Keys);
    forall i, j | 0 <= i < j < |keys| ensures keys[i] != keys[j] {
      LessIrreflexive(keys[i]);
    }
    DistinctSize(keys, data.Keys);
  }

  /** A stream has at least two separators for each entry, and no more exactly if the map contains none. */
  lemma CountEncode(data: DataMap)
    ensures CountNul(Encode(data)) >= 2 * |data|
    ensures CountNul(Encode(data)) == 2 * |data| <==> NulFreeMap(data)
  {
    KeysListed(data);
    CountFramed(SortedKeys(data.Keys), data);
    assert (forall k :: k in SortedKeys(data.Keys) ==> NulFreeEntry(data, k)) <==> NulFreeMap(data) by {
      if forall k :: k in SortedKeys(data.Keys) ==> NulFreeEntry(data, k) {
        forall k | k in data ensures NulFree(k) && NulFree(data[k]) {
          assert k in SortedKeys(data.Keys) && NulFreeEntry(data, k);
        }
      }
    }
  }

  /**
   The stream, key by key: nothing for an empty map, and otherwise the least key, its value, and
   the stream of the rest.
   */
  lemma EncodeExact(data: DataMap, k: string)
    requires k in data && forall other :: other in data && other != k ==> Less(k, other)
    ensures Encode(map[]) == []
    ensures Encode(data) == k + [NUL] + data[k] + [NUL] + Encode(data - {k})
  {
    EncodeNothing();
    var rest := data - {k};
    var more := SortedKeys(rest.Keys);
    LeastFirst(data.Keys, rest.Keys, k);
    assert SortedKeys(data.Keys)[1..] == more;
    FramedCons(SortedKeys(data.Keys), data);
    FramedAgree(more, data, rest);
    Bracketed(k, data[k], Encode(rest));
  }

  lemma Bracketed(k: Bytes, v: Bytes, rest: Bytes)
    ensures k + [NUL] + (v + [NUL] + rest) == k + [NUL] + v + [NUL] + rest
  {
  }

  /** The least element comes first. */
  lemma LeastFirst(keys: set<string>, rest: set<string>, k: string)
    requires rest == keys - {k} && k in keys && forall other :: other in rest ==> Less(k, other)
    ensures SortedKeys(keys) == [k] + SortedKeys(rest)
  {
    var more := SortedKeys(rest);
    forall j | 0 <= j < |more| ensures Less(k, more[j]) {
      assert more[j] in more;
    }
    AscendingUnique([k] + more, SortedKeys(keys), keys);
  }

  lemma {:induction false} FramedAgree(keys: seq<string>, a: DataMap, b: DataMap)
    requires forall k :: k in keys ==> k in a && k in b && a[k] == b[k]
    ensures Framed(keys, a) == Framed(keys, b)
  {
    if keys != [] {
      FramedAgree(keys[1..], a, b);
    }
  }

  // ---- other maps with the same stream -----------------------------------------------------

  lemma EncodeOne(key: string, value: Bytes)
    ensures Encode(map[key := value]) == key + [NUL] + value + [NUL]
  {
    var data: DataMap := map[key := value];
    AscendingUnique([key], SortedKeys(data.Keys), data.Keys);
    assert [key][1..] == [] && Framed([], data) == [];
    calc {
      Encode(data);
      Framed([key], data);
      key + [NUL] + data[key] + [NUL] + Framed([], data);
      key + [NUL] + value + [NUL];
    }
  }

  lemma {:induction false} FramedEnds(keys: seq<string>, data: DataMap)
    requires (forall k :: k in keys ==> k in data) && keys != []
    ensures Framed(keys, data) != [] && Framed(keys, data)[|Framed(keys, data)| - 1] == NUL
  {
    if |keys| > 1 {
      FramedEnds(keys[1..], data);
    } else {
      assert keys[1..] == [];
    }
  }

  /** A non-empty map's stream without its last separator. */
  lemma Stem(data: DataMap) returns (p: Bytes)
    requires data != map[]
    ensures Encode(data) == p + [NUL] && CountNul(p) + 1 == CountNul(Encode(data))
  {
    EncodeEnds(data);
    p := WithoutLast(Encode(data));
  }

  lemma WithoutLast(s: Bytes) returns (p: Bytes)
    requires s != [] && s[|s| - 1] == NUL
    ensures s == p + [NUL] && CountNul(p) + 1 == CountNul(s)
  {
    p := s[..|s| - 1];
    assert s[|s| - 1..] == [NUL];
    assert s == p + s[|s| - 1..];
    CountConcat(p, [NUL]);
    CountOne();
  }

  lemma CountOne()
    ensures CountNul([NUL]) == 1
  {
  }

  lemma EncodeEnds(data: DataMap)
    requires data != map[]
    ensures Encode(data) != [] && Encode(data)[|Encode(data)| - 1] == NUL
  {
    var k :| k in data;
    assert k in SortedKeys(data.Keys);
    FramedEnds(SortedKeys(data.Keys), data);
  }

  /** Around two separators. */
  lemma CutTwice(p: Bytes) returns (a: Bytes, b: Bytes, c: Bytes)
    requires CountNul(p) >= 2
    ensures p == a + [NUL] + b + [NUL] + c
  {
    CountZero(p);
    var outer := Cut(p, NUL).value;
    CountConcat(outer.0 + [NUL], outer.1);
    CountConcat(outer.0, [NUL]);
    assert CountNul([NUL]) == 1;
    CountZero(outer.0);
    CountZero(outer.1);
    var inner := Cut(outer.1, NUL).value;
    a, b, c := outer.0, inner.0, inner.1;
  }

  ghost predicate Collides(data: DataMap, other: DataMap) {
    other != data && Encode(other) == Encode(data)
  }

  /**
   The stream identifies a map exactly if the map has at most one entry and contains no NUL:
   any other map shares its stream with a map of one entry.
   */
  lemma EncodeCollidesExactly(data: DataMap)
    ensures (exists other :: Collides(data, other)) <==> |data| >= 2 || !NulFreeMap(data)
  {
    CountEncode(data);
    if |data| >= 2 || !NulFreeMap(data) {
      var other := OtherMap(data);
    } else {
      forall other | Encode(other) == Encode(data) ensures other == data {
        OnlyMap(data, other);
      }
    }
  }

  lemma OtherMap(data: DataMap) returns (other: DataMap)
    requires |data| >= 2 || !NulFreeMap(data)
    ensures Collides(data, other) && |other| == 1
  {
    CountEncode(data);
    var p := Stem(data);
    var a, b, c := CutTwice(p);
    var early, late := map[a := b + [NUL] + c], map[a + [NUL] + b := c];
    EncodeOne(a, b + [NUL] + c);
    EncodeOne(a + [NUL] + b, c);
    BothReadings(a, b, c);
    assert a in early && a !in late;
    other := if early == data then late else early;
  }

  lemma BothReadings(a: Bytes, b: Bytes, c: Bytes)
    ensures a + [NUL] + (b + [NUL] + c) + [NUL] == a + [NUL] + b + [NUL] + c + [NUL]
    ensures a != a + [NUL] + b
  {
    assert |a| < |a + [NUL] + b|;
  }

  lemma OnlyMap(data: DataMap, other: DataMap)
    requires |data| <= 1 && NulFreeMap(data) && Encode(other) == Encode(data)
    ensures other == data
  {
    CountEncode(data);
    CountEncode(other);
    if |data| == 0 {
      assert |other| == 0;
      assert data == map[] == other;
    } else {
      EncodeNothing();
      assert other != map[];
      assert |other| == 1;
      EncodeInjective(data, other);
    }
  }

  lemma EncodeNothing()
    ensures Encode(map[]) == []
  {
    var none: DataMap := map[];
    KeysListed(none);
    assert SortedKeys(none.Keys) == [];
  }

  // ---- manifests ---------------------------------------------------------------------------

  ghost predicate ManifestCollides(typ: string, data: DataMap, otherType: string, other: DataMap) {
    (otherType, other) != (typ, data) && EncodeManifest(otherType, other) == EncodeManifest(typ, data)
  }

  /**
   With the type in front the stream identifies a manifest exactly if it has no data and its
   type has at most one NUL; among NUL-free manifests it always does.
   */
  lemma ManifestCollidesExactly(typ: string, data: DataMap)
    ensures (exists t, d :: ManifestCollides(typ, data, t, d)) <==> data != map[] || CountNul(typ) >= 2
  {
    if data != map[] {
      var t := TypeSwallowsData(typ, data);
    } else if CountNul(typ) >= 2 {
      var t, d := TypeYieldsData(typ);
    } else {
      forall t, d | EncodeManifest(t, d) == EncodeManifest(typ, data) ensures (t, d) == (typ, data) {
        OnlyManifest(typ, t, d);
      }
    }
  }

  lemma TypeSwallowsData(typ: string, data: DataMap) returns (t: string)
    requires data != map[]
    ensures ManifestCollides(typ, data, t, map[])
  {
    var p := Stem(data);
    t := typ + [NUL] + p;
    EncodeNothing();
    assert TYPE_HEADER + t + [NUL] + [] == TYPE_HEADER + typ + [NUL] + (p + [NUL]);
  }

  lemma TypeYieldsData(typ: string) returns (t: string, d: DataMap)
    requires CountNul(typ) >= 2
    ensures ManifestCollides(typ, map[], t, d)
  {
    var a, b, c := CutTwice(typ);
    t, d := a, map[b := c];
    EncodeNothing();
    EncodeOne(b, c);
    assert TYPE_HEADER + a + [NUL] + (b + [NUL] + c + [NUL]) == TYPE_HEADER + typ + [NUL] + [];
    assert b in d;
  }

  lemma OnlyManifest(typ: string, t: string, d: DataMap)
    requires CountNul(typ) <= 1 && EncodeManifest(t, d) == EncodeManifest(typ, map[])
    ensures t == typ && d == map[]
  {
    EncodeNothing();
    Regroup(t, d);
    Regroup(typ, map[]);
    assert typ + [NUL] + [] == typ + [NUL];
    SameTails(TYPE_HEADER, t + [NUL] + Encode(d), typ + [NUL]);
    CountTail(t, Encode(d));
    CountTail(typ, []);
    CountEncode(d);
    assert |d| == 0;
    assert d == map[];
    SameHeads(t, typ);
  }

  lemma Regroup(typ: string, data: DataMap)
    ensures EncodeManifest(typ, data) == TYPE_HEADER + (typ + [NUL] + Encode(data))
  {
  }

  lemma CountTail(typ: string, rest: Bytes)
    ensures CountNul(typ + [NUL] + rest) == CountNul(typ) + 1 + CountNul(rest)
    ensures typ + [NUL] + [] == typ + [NUL]
  {
    CountConcat(typ + [NUL], rest);
    CountConcat(typ, [NUL]);
    CountOne();
  }

  lemma SameTails(header: Bytes, a: Bytes, b: Bytes)
    requires header + a == header + b
    ensures a == b
  {
    assert a == (header + a)[|header|..] && b == (header + b)[|header|..];
  }

  lemma SameHeads(a: Bytes, b: Bytes)
    requires a + [NUL] == b + [NUL]
    ensures a == b
  {
    assert a == (a + [NUL])[..|a|] && b == (b + [NUL])[..|b|];
  }
}
