/** internal/cluster/sync.go: the revision of a snapshot, and the follow loop that
    compares it. SHA-256 is a parameter. */
module Revision {
  import opened Text
  import opened Ordering
  import opened Config
  import opened Settings
  import opened Pull

  const NUL := '\0'

  ghost function InputOf(values: map<string, string>, ks: seq<string>): string
    requires forall k | k in ks :: k in values
  {
    if ks == [] then "" else ks[0] + [NUL] + (values[ks[0]] + [NUL] + InputOf(values, ks[1..]))
  }

  /** The bytes that are hashed: every key and value in key order, each ended by NUL. */
  ghost function HashInput(values: map<string, string>): string {
    InputOf(values, Sorted(values.Keys))
  }

  method SnapshotRev(values: map<string, string>, hash: string -> string) returns (rev: string)
    ensures rev == hash(HashInput(values))
  {
    var keys := SortedKeys(values);
    var h := "";
    for n := 0 to |keys|
      invariant h + InputOf(values, keys[n..]) == HashInput(values)
    {
      hide IsLeast, StrictlySorted, Sorted, InputOf, HashInput;
      var written := keys[n] + [NUL] + values[keys[n]] + [NUL];
      InputFrom(values, keys, n);
      Regroup(h, written, InputOf(values, keys[n + 1..]));
      h := h + written;
    }
    assert h + "" == h;
    rev := hash(h);
  }

  lemma InputFrom(values: map<string, string>, keys: seq<string>, n: nat)
    requires n < |keys| && forall k | k in keys :: k in values
    ensures InputOf(values, keys[n..]) == keys[n] + [NUL] + values[keys[n]] + [NUL] + InputOf(values, keys[n + 1..])
  {
    assert keys[n..][1..] == keys[n + 1..];
    Regroup(keys[n] + [NUL], values[keys[n]] + [NUL], InputOf(values, keys[n + 1..]));
    Regroup(keys[n] + [NUL], values[keys[n]], [NUL]);
  }

  predicate NulFree(values: map<string, string>) {
    forall k | k in values :: NUL !in k && NUL !in values[k]
  }

  lemma CutFirst(a: string, b: string)
    requires NUL !in a
    ensures CutAt(a + [NUL] + b, NUL) == Parts(a, b)
  {
    CutOf(a, NUL, b);
  }

  lemma {:induction false} InputDetermines(v1: map<string, string>, ks1: seq<string>, v2: map<string, string>, ks2: seq<string>)
    requires forall k | k in ks1 :: k in v1
    requires forall k | k in ks2 :: k in v2
    requires NulFree(v1) && NulFree(v2)
    requires InputOf(v1, ks1) == InputOf(v2, ks2)
    ensures ks1 == ks2 && forall k | k in ks1 :: v1[k] == v2[k]
    decreases |ks1|
  {
    hide CutAt;
    if ks1 == [] || ks2 == [] {
      assert ks1 == [] && ks2 == [];
    } else {
      var k1, k2 := ks1[0], ks2[0];
      var rest1, rest2 := InputOf(v1, ks1[1..]), InputOf(v2, ks2[1..]);
      CutFirst(k1, v1[k1] + [NUL] + rest1);
      CutFirst(k2, v2[k2] + [NUL] + rest2);
      CutFirst(v1[k1], rest1);
      CutFirst(v2[k2], rest2);
      InputDetermines(v1, ks1[1..], v2, ks2[1..]);
      assert forall k | k in ks1 :: k == k1 || k in ks1[1..];
    }
  }

  /** The hash input is a canonical form of the map. */
  lemma HashInputIsCanonical(v1: map<string, string>, v2: map<string, string>)
    requires NulFree(v1) && NulFree(v2)
    ensures HashInput(v1) == HashInput(v2) <==> v1 == v2
  {
    hide IsLeast, StrictlySorted;
    if HashInput(v1) == HashInput(v2) {
      InputDetermines(v1, Sorted(v1.Keys), v2, Sorted(v2.Keys));
      assert forall k :: k in v1 <==> k in v2;
    }
  }

  // Two servers with one revision

  /** A server that has no INI file reports its shared files. */
  lemma FilesSnapshot(fs: Files, values: map<string, string>)
    requires forall path | path in fs :: !IsIniPath(path) && Classify(FileKey(path)) != "" && |fs[path]| <= MAX_FILE
    requires forall path | path in fs :: FileKey(path) in values
    requires forall key | key in values :: exists path :: path in fs && key == FileKey(path) && values[key] == fs[path]
    ensures IsSnapshot(fs, values)
  {
    hide Classify, IniPath, FileKey;
    forall key | key in values
      ensures Entry(fs, key, values[key])
    {
      var path :| path in fs && key == FileKey(path) && values[key] == fs[path];
      assert SharedFile(fs, path, key, values[key]);
    }
    forall key, value | Entry(fs, key, value)
      ensures key in values
    {
      NoSettings(fs, key, value);
      var path :| SharedFile(fs, path, key, value);
    }
  }

  lemma NoSettings(fs: Files, key: string, value: string)
    requires forall path | path in fs :: !IsIniPath(path)
    ensures forall s :: !SharedCell(fs, s, key, value)
  {
    hide Classify, IniPath, Parse;
  }

  const FILE_A := CUSTOM_CODE_DIR + "a"
  const FILE_B := CUSTOM_CODE_DIR + "b"

  lemma FilesAreShared()
    ensures FILE_A != FILE_B && FileKey(FILE_A) != FileKey(FILE_B) && |FileKey(FILE_B)| < 100
    ensures Classify(FileKey(FILE_A)) != "" && !IsIniPath(FILE_A)
    ensures Classify(FileKey(FILE_B)) != "" && !IsIniPath(FILE_B)
    ensures Less(FileKey(FILE_A), FileKey(FILE_B))
  {
    hide Classify, IniPath, Less;
    assert FILE_A[|FILE_A| - 1] == 'a' && FILE_B[|FILE_B| - 1] == 'b';
    CustomCodeIsShared("a");
    CustomCodeIsShared("b");
    FileKeyParts(FILE_A);
    FileKeyParts(FILE_B);
    SharedIsNoIni(FILE_A);
    SharedIsNoIni(FILE_B);
    Regroup(FILE_PREFIX, CUSTOM_CODE_DIR, "a");
    Regroup(FILE_PREFIX, CUSTOM_CODE_DIR, "b");
    LastDecides(FILE_PREFIX + CUSTOM_CODE_DIR, "a", "b");
  }

  lemma SharedIsNoIni(path: string)
    requires Classify(FileKey(path)) != ""
    ensures !IsIniPath(path)
  {
    hide ClassifyFile, ClassifyIni, IsIniPath;
    FileKeyParts(path);
    if IsIniPath(path) {
      IniPathIsNotShared(path);
    }
  }

  lemma {:induction false} LastDecides(s: string, a: string, b: string)
    requires Less(a, b)
    ensures Less(s + a, s + b)
    decreases |s|
  {
    if s == "" {
      assert s + a == a && s + b == b;
    } else {
      assert (s + a)[1..] == s[1..] + a && (s + b)[1..] == s[1..] + b;
      LastDecides(s[1..], a, b);
    }
  }

  /** A shared file with NUL characters, as a binary file may have, can imitate a second
      file: two servers with different snapshots that hash the same text. */
  lemma NulCollides() returns (fs1: Files, v1: map<string, string>, fs2: Files, v2: map<string, string>)
    ensures IsSnapshot(fs1, v1) && IsSnapshot(fs2, v2)
    ensures v1 != v2 && HashInput(v1) == HashInput(v2)
  {
    hide IsLeast, HashInput, InputOf, Classify, IsIniPath, IsSnapshot, FileKey, Less;
    FilesAreShared();
    var a, b := FileKey(FILE_A), FileKey(FILE_B);
    var long := "x" + [NUL] + (b + [NUL] + "y");
    fs1, v1 := map[FILE_A := long], map[a := long];
    fs2, v2 := map[FILE_A := "x", FILE_B := "y"], map[a := "x", b := "y"];
    FilesSnapshot(fs1, v1);
    assert v2[a] == fs2[FILE_A] && v2[b] == fs2[FILE_B];
    FilesSnapshot(fs2, v2);
    assert b in v2 && b !in v1;
    FirstInput(v1, a);
    SecondInput(v2, a, b);
    SameBytes(a, b);
  }

  lemma SameBytes(a: string, b: string)
    ensures var long := "x" + [NUL] + (b + [NUL] + "y");
            a + [NUL] + (long + [NUL] + "") == a + [NUL] + ("x" + [NUL] + (b + [NUL] + ("y" + [NUL] + "")))
  {
    var long := "x" + [NUL] + (b + [NUL] + "y");
    assert long + [NUL] + "" == "x" + [NUL] + (b + [NUL] + ("y" + [NUL] + ""));
  }

  lemma FirstInput(v: map<string, string>, a: string)
    requires v.Keys == {a}
    ensures HashInput(v) == a + [NUL] + (v[a] + [NUL] + "")
  {
    hide IsLeast, InputOf, Less;
    assert StrictlySorted([a]);
    SortedIsUnique([a], Sorted(v.Keys));
    OneInput(v, a);
  }

  lemma SecondInput(v: map<string, string>, a: string, b: string)
    requires v.Keys == {a, b} && Less(a, b)
    ensures HashInput(v) == a + [NUL] + (v[a] + [NUL] + (b + [NUL] + (v[b] + [NUL] + "")))
  {
    hide IsLeast, InputOf, Less;
    assert StrictlySorted([a, b]);
    SortedIsUnique([a, b], Sorted(v.Keys));
    TwoInputs(v, a, b);
  }

  lemma OneInput(v: map<string, string>, k: string)
    requires k in v
    ensures InputOf(v, [k]) == k + [NUL] + (v[k] + [NUL] + "")
  {
    assert [k][1..] == [];
  }

  lemma TwoInputs(v: map<string, string>, k: string, l: string)
    requires k in v && l in v
    ensures InputOf(v, [k, l]) == k + [NUL] + (v[k] + [NUL] + (l + [NUL] + (v[l] + [NUL] + "")))
  {
    assert [k, l][1..] == [l];
    OneInput(v, l);
  }
}
