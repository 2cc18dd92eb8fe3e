/** Path helpers of the file dialog: the gauge name taken from a library
    path, and the location of the gauge's sibling JSON mount descriptor.
    `std::filesystem::exists` is a predicate parameter. */
module FileDialog {
  import opened Wrappers

  const Separator: char := '/'
  const LibrarySuffix: string := ".so"
  const JsonExtension: string := ".json"

  /** `pat` occurs in `s` starting at index `i`. */
  predicate OccursAt(s: string, pat: string, i: nat) {
    i + |pat| <= |s| && s[i..i + |pat|] == pat
  }

  /** `pat` occurs anywhere in `s`. */
  ghost predicate Contains(s: string, pat: string) {
    exists i: nat :: OccursAt(s, pat, i)
  }

  /** `pre` is a prefix of `s`. */
  predicate IsPrefix(pre: string, s: string) {
    |pre| <= |s| && s[..|pre|] == pre
  }

  /** `suf` is a suffix of `s`. */
  predicate IsSuffix(suf: string, s: string) {
    |suf| <= |s| && s[|s| - |suf|..] == suf
  }

  /** `std::string::find_last_of('/')`: the index of the last separator. */
  function LastSeparator(s: string): (r: Option<nat>)
    ensures r.Some? ==> r.value < |s| && s[r.value] == Separator
    ensures r.Some? ==> forall j :: r.value < j < |s| ==> s[j] != Separator
    ensures r.None? ==> Separator !in s
  {
    if |s| == 0 then None
    else if s[|s| - 1] == Separator then Some(|s| - 1)
    else LastSeparator(s[..|s| - 1])
  }

  /** `std::string::find(pat)`: the first index at which `pat` occurs. */
  function Find(s: string, pat: string): (r: Option<nat>)
    ensures r.Some? ==> OccursAt(s, pat, r.value)
    ensures r.Some? ==> forall j: nat :: j < r.value ==> !OccursAt(s, pat, j)
    ensures r.None? ==> !Contains(s, pat)
    decreases |s|
  {
    if |pat| > |s| then
      assert forall j: nat :: !OccursAt(s, pat, j);
      None
    else if s[..|pat|] == pat then Some(0)
    else
      ShiftOccurrence(s, pat);
      assert !OccursAt(s, pat, 0);
      match Find(s[1..], pat)
      case Some(i) => Some(i + 1)
      case None =>
        assert forall j: nat :: !OccursAt(s, pat, j) by {
          forall j: nat ensures !OccursAt(s, pat, j) {
            if j > 0 {
              assert !OccursAt(s[1..], pat, j - 1);
            }
          }
        }
        None
  }

  /** Occurrences in `s[1..]` are the occurrences in `s` shifted by one. */
  lemma ShiftOccurrence(s: string, pat: string)
    requires |s| > 0
    ensures forall j: nat :: 0 < j ==> (OccursAt(s, pat, j) <==> OccursAt(s[1..], pat, j - 1))
  {
    forall j: nat | 0 < j
      ensures OccursAt(s, pat, j) <==> OccursAt(s[1..], pat, j - 1)
    {
      if j + |pat| <= |s| {
        assert s[1..][j - 1..j - 1 + |pat|] == s[j..j + |pat|];
      }
    }
  }

  /** The text after the last separator, or the whole path when there is none. */
  function BaseName(path: string): (r: string)
    ensures Separator !in r
    ensures IsSuffix(r, path)
    ensures |r| < |path| ==> path[|path| - |r| - 1] == Separator
  {
    match LastSeparator(path)
    case Some(i) => path[i + 1..]
    case None => path
  }

  /** The text before the last separator, or "" when there is none
      (`std::filesystem::path::parent_path` without its root special cases). */
  function ParentPath(path: string): (r: string)
    ensures IsPrefix(r, path)
    ensures |r| < |path|  || path == ""
    ensures r != "" ==> path[|r|] == Separator
    ensures Separator in path ==> |r| < |path| && path[|r|] == Separator && Separator !in path[|r| + 1..]
    ensures Separator !in path ==> r == ""
  {
    match LastSeparator(path)
    case Some(i) => path[..i]
    case None => ""
  }

  /** `dir / name` for a relative `name`. */
  function Join(dir: string, name: string): string {
    if dir == "" then name else dir + [Separator] + name
  }

  /** `FileDialog::GetFileName`: the base name cut before the first ".so"
      anywhere in it (not only a trailing one). */
  function GetFileName(path: string): string {
    var name := BaseName(path);
    match Find(name, LibrarySuffix)
    case Some(i) => name[..i]
    case None => name
  }

  /** An occurrence inside a prefix is an occurrence in the whole. */
  lemma PrefixOccurrence(s: string, k: nat, pat: string)
    requires k <= |s|
    ensures forall j: nat :: OccursAt(s[..k], pat, j) ==> OccursAt(s, pat, j)
  {
    forall j: nat | OccursAt(s[..k], pat, j)
      ensures OccursAt(s, pat, j)
    {
      assert s[..k][j..j + |pat|] == s[j..j + |pat|];
    }
  }

  /** The file name has no separator and no ".so", is a prefix of the base
      name, and is the whole base name or is followed in it by the first
      ".so". */
  lemma GetFileNameSpec(path: string)
    ensures var r := GetFileName(path);
            && Separator !in r
            && IsPrefix(r, BaseName(path))
            && !Contains(r, LibrarySuffix)
            && (r == BaseName(path) || OccursAt(BaseName(path), LibrarySuffix, |r|))
            && (!Contains(BaseName(path), LibrarySuffix) ==> r == BaseName(path))
  {
    var name := BaseName(path);
    match Find(name, LibrarySuffix)
    case Some(i) =>
      PrefixOccurrence(name, i, LibrarySuffix);
      assert forall j: nat :: OccursAt(name[..i], LibrarySuffix, j) ==> j < i by {
        forall j: nat | OccursAt(name[..i], LibrarySuffix, j)
          ensures j < i
        {
        }
      }
    case None =>
  }

  /** The descriptor path `parent_path / (GetFileName(path) + ".json")`. */
  function JsonSiblingPath(path: string): string {
    Join(ParentPath(path), GetFileName(path) + JsonExtension)
  }

  /** The descriptor path ends in ".json", lies in the library's directory
      and is named after the library's file name. */
  lemma JsonSiblingPathShape(path: string)
    ensures var r := JsonSiblingPath(path);
            && IsSuffix(JsonExtension, r)
            && ParentPath(r) == ParentPath(path)
            && BaseName(r) == GetFileName(path) + JsonExtension
  {
    FileNameIsPlain(path);
    DescriptorJoin(ParentPath(path), GetFileName(path));
  }

  /** The file name has no separator. */
  lemma FileNameIsPlain(path: string)
    ensures Separator !in GetFileName(path)
  {
    GetFileNameSpec(path);
  }

  /** A descriptor named `stem + ".json"` placed in `dir` ends in ".json"
      and splits back into `dir` and its name. */
  lemma DescriptorJoin(dir: string, stem: string)
    requires Separator !in stem
    ensures var r := Join(dir, stem + JsonExtension);
            && IsSuffix(JsonExtension, r)
            && ParentPath(r) == dir
            && BaseName(r) == stem + JsonExtension
  {
    var name := stem + JsonExtension;
    assert Separator !in name by {
      assert forall k :: 0 <= k < |JsonExtension| ==> JsonExtension[k] != Separator;
      assert forall k :: |stem| <= k < |name| ==> name[k] == JsonExtension[k - |stem|];
    }
    JoinSplits(dir, name);
  }

  /** Joining a separator-free name to a directory is undone by
      `ParentPath` and `BaseName`. */
  lemma JoinSplits(dir: string, name: string)
    requires Separator !in name
    ensures ParentPath(Join(dir, name)) == dir
    ensures BaseName(Join(dir, name)) == name
  {
    var p := Join(dir, name);
    if dir == "" {
      assert LastSeparator(p).None?;
    } else {
      var i := |dir|;
      assert p[i] == Separator;
      assert p[..i] == dir && p[i + 1..] == name;
      assert forall k :: i < k < |p| ==> p[k] == name[k - i - 1];
      assert LastSeparator(p) == Some(i);
    }
  }

  /** `FileDialog::GetJsonFilePath`: the sibling descriptor path when it
      exists, none otherwise. */
  function GetJsonFilePath(path: string, fileExists: string -> bool): (r: Option<string>)
    ensures r.Some? <==> fileExists(JsonSiblingPath(path))
    ensures r.Some? ==> r.value == JsonSiblingPath(path) && IsSuffix(JsonExtension, r.value)
  {
    var candidate := JsonSiblingPath(path);
    JsonSiblingPathShape(path);
    if fileExists(candidate) then Some(candidate) else None
  }

  /** Taking the file name a second time changes nothing. */
  lemma GetFileNameIdempotent(path: string)
    ensures GetFileName(GetFileName(path)) == GetFileName(path)
  {
    GetFileNameSpec(path);
    PlainNameUnchanged(GetFileName(path));
  }

  /** A name with no separator and no ".so" is its own file name. */
  lemma PlainNameUnchanged(name: string)
    requires Separator !in name && !Contains(name, LibrarySuffix)
    ensures GetFileName(name) == name
  {
    assert LastSeparator(name).None?;
    assert BaseName(name) == name;
    GetFileNameSpec(name);
  }
}
