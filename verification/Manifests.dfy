/** internal/transform/manifest.go: the merge of stringData and the hash of a manifest. */
module Manifests {
  import opened Wrappers
  import opened GoStrings
  import opened Flat
  import opened Secrets

  /** The single authoritative data map: stringData overrides data. */
  function Normalized(m: Manifest): Manifest {
    m.(data := m.data + m.stringData, stringData := map[])
  }

  /** The merge is right-biased, loses no key, invents none, and is done once and for all. */
  lemma NormalizedMerges(m: Manifest)
    ensures var n := Normalized(m);
      && n.data.Keys == m.data.Keys + m.stringData.Keys
      && (forall k | k in n.data :: n.data[k] == (if k in m.stringData then m.stringData[k] else m.data[k]))
      && n.stringData == map[] && Normalized(n) == n
      && n == m.(data := n.data, stringData := n.stringData)
  {
    var n := Normalized(m);
    assert Normalized(n).data == n.data;
  }

  const TYPE_HEADER := "type="

  /** The byte stream hashed for a manifest: the type in a header, then the data entries. */
  ghost function EncodeManifest(typ: string, data: DataMap): Bytes {
    TYPE_HEADER + typ + [NUL] + Encode(data)
  }

  method HashManifestSecret(m: Manifest) returns (hash: string)
    ensures hash == ContentHash(EncodeManifest(m.typ, m.data))
  {
    var stream := TYPE_HEADER;
    stream := stream + m.typ;
    stream := stream + [NUL];
    stream := WriteEntries(stream, m.data);
    hash := ContentHash(stream);
  }

  function DecodeManifest(stream: Bytes): (r: Option<(string, DataMap)>)
    ensures r.Some? ==> NulFree(r.value.0) && NulFreeMap(r.value.1)
  {
    if |stream| < |TYPE_HEADER| || stream[..|TYPE_HEADER|] != TYPE_HEADER then None
    else
      match Cut(stream[|TYPE_HEADER|..], NUL)
      case None => None
      case Some((typ, rest)) =>
        match Decode(rest)
        case None => None
        case Some(data) => Some((typ, data))
  }

  /** Type and data can be read back from the stream exactly when neither contains a NUL. */
  lemma DecodeUndoesEncodeManifest(typ: string, data: DataMap)
    ensures DecodeManifest(EncodeManifest(typ, data)) == Some((typ, data)) <==>
      NulFree(typ) && NulFreeMap(data)
  {
    var stream := EncodeManifest(typ, data);
    if NulFree(typ) && NulFreeMap(data) {
      assert stream[|TYPE_HEADER|..] == typ + [NUL] + Encode(data);
      CutOfJoin(typ, Encode(data), NUL);
      DecodeUndoesEncode(data);
    }
  }

  lemma EncodeManifestInjective(t: string, a: DataMap, u: string, b: DataMap)
    requires NulFree(t) && NulFree(u) && NulFreeMap(a) && NulFreeMap(b)
    ensures EncodeManifest(t, a) == EncodeManifest(u, b) <==> t == u && a == b
  {
    DecodeUndoesEncodeManifest(t, a);
    DecodeUndoesEncodeManifest(u, b);
  }
}
