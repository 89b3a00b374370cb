/** The SOPS format of a file, from the ending of its path. */
module Formats {
  /** `filepath.Ext`: from the last dot on, if no slash follows it. */
  function Ext(path: string): (r: string)
    ensures |r| <= |path| && r == path[|path| - |r|..]
  {
    if path == [] then ""
    else
      var front, last := path[..|path| - 1], path[|path| - 1];
      if last == '/' then ""
      else if last == '.' then [last]
      else if Ext(front) == "" then "" else Ext(front) + [last]
  }

  function LowerChar(c: char): char {
    if 'A' <= c <= 'Z' then (c as int + 32) as char else c
  }

  /** `strings.ToLower`, for ASCII. */
  function Lower(s: string): (r: string)
    ensures |r| == |s| && forall i :: 0 <= i < |s| ==> r[i] == LowerChar(s[i])
  {
    seq(|s|, i requires 0 <= i < |s| => LowerChar(s[i]))
  }

  /** The SOPS format for a file path. */
  function FormatFromPath(path: string): string {
    var ext := Lower(Ext(path));
    if ext == ".json" then "json"
    else if ext == ".env" || ext == ".ini" then "dotenv"
    else if ext == ".yml" || ext == ".yaml" then "yaml"
    else "binary"
  }

  /** A dot and then neither dots nor slashes. */
  predicate IsExt(ext: string) {
    ext != "" && ext[0] == '.' && '.' !in ext[1..] && '/' !in ext[1..]
  }

  /** The path ends in the text, in whatever case. */
  predicate EndsIn(path: string, ext: string) {
    |ext| <= |path| && Lower(path[|path| - |ext|..]) == ext
  }

  lemma {:induction false} ExtForm(path: string)
    ensures Ext(path) != "" ==> IsExt(Ext(path))
  {
    if path != [] && path[|path| - 1] !in {'/', '.'} {
      ExtForm(path[..|path| - 1]);
      Extended(Ext(path[..|path| - 1]), path[|path| - 1]);
    }
  }

  lemma Extended(ext: string, last: char)
    requires last !in {'/', '.'} && (ext != "" ==> IsExt(ext))
    ensures ext != "" ==> IsExt(ext + [last])
  {
    if ext != "" {
      assert (ext + [last])[1..] == ext[1..] + [last];
    }
  }

  /** No dot of the last element of the path is missed. */
  lemma {:induction false} ExtMisses(path: string, i: nat)
    requires i < |path| && path[i] == '.' && Ext(path) == ""
    ensures '/' in path[i..]
  {
    var n := |path| - 1;
    if path[n] == '/' {
      assert path[i..][n - i] == '/';
    } else {
      ExtMisses(path[..n], i);
      assert path[i..] == path[..n][i..] + [path[n]];
    }
  }

  lemma ExtIsEnding(path: string, ext: string)
    requires IsExt(ext)
    ensures Lower(Ext(path)) == ext <==> EndsIn(path, ext)
  {
    ExtForm(path);
    if EndsIn(path, ext) {
      var start := |path| - |ext|;
      LowerForm(path[start..], ext);
      if Ext(path) == "" {
        ExtMisses(path, start);
      }
      EndingsMeet(path, path[start..], Ext(path));
    }
  }

  /** Lower case changes neither dots nor slashes. */
  lemma LowerForm(tail: string, ext: string)
    requires IsExt(ext) && Lower(tail) == ext
    ensures IsExt(tail) && '/' !in tail
  {
    forall i | 0 <= i < |tail| ensures (i == 0 <==> tail[i] == '.') && tail[i] != '/' {
      assert ext[i] == LowerChar(tail[i]);
      assert i > 0 ==> ext[i] == ext[1..][i - 1];
    }
  }

  /** Two endings of a text that start with their only dot are one. */
  lemma EndingsMeet(path: string, a: string, b: string)
    requires |a| <= |path| && a == path[|path| - |a|..] && |b| <= |path| && b == path[|path| - |b|..]
    requires IsExt(a) && IsExt(b)
    ensures a == b
  {
    DotsDecide(path, |path| - |a|, |path| - |b|);
    DotsDecide(path, |path| - |b|, |path| - |a|);
  }

  lemma DotsDecide(path: string, i: nat, j: nat)
    requires i < |path| && j < |path| && path[i] == '.' && '.' !in path[j..][1..]
    ensures i <= j
  {
    forall n | j < n < |path| ensures path[n] != '.' {
      assert path[n] == path[j..][1..][n - j - 1];
    }
  }

  /** The format is decided by how the path ends, in whatever case; what is not known is binary. */
  lemma FormatExact(path: string)
    ensures FormatFromPath(path) == "json" <==> EndsIn(path, ".json")
    ensures FormatFromPath(path) == "dotenv" <==> EndsIn(path, ".env") || EndsIn(path, ".ini")
    ensures FormatFromPath(path) == "yaml" <==> EndsIn(path, ".yml") || EndsIn(path, ".yaml")
    ensures FormatFromPath(path) in {"json", "dotenv", "yaml", "binary"}
  {
    ExtIsEnding(path, ".json");
    ExtIsEnding(path, ".env");
    ExtIsEnding(path, ".ini");
    ExtIsEnding(path, ".yml");
    ExtIsEnding(path, ".yaml");
  }
}
