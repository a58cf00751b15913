/**
 * PathLookup: resolving a bare command name against an extra folder and the PATH directories.
 * The file system is a set of existing paths; PATH arrives already split and expanded.
 */
module PathSearch {
  import opened Wrappers
  import opened Text

  /** The name already contains a forward or a backward slash. */
  predicate HasSeparator(s: string) {
    exists i :: 0 <= i < |s| && (s[i] == '/' || s[i] == '\\')
  }

  /** The characters at which Path.GetExtension stops looking for a dot (Windows). */
  predicate IsPathSeparator(c: char) {
    c == '\\' || c == '/' || c == ':'
  }

  /**
   * The extension Path.GetExtension(path) finds once positions end.. have been scanned without
   * meeting a dot or a separator: scanning on backwards from end, the suffix of the whole path that
   * starts at the first '.' met, or "" when a separator comes first, the scan runs out, or that dot
   * is the last character of the path.
   */
  function ExtensionBefore(path: string, end: nat): string
    requires end <= |path|
    decreases end
  {
    if end == 0 then ""
    else if path[end - 1] == '.' then (if end == |path| then "" else path[end - 1..])
    else if IsPathSeparator(path[end - 1]) then ""
    else ExtensionBefore(path, end - 1)
  }

  function GetExtension(path: string): string {
    ExtensionBefore(path, |path|)
  }

  /** A non-empty extension is a suffix of the path that starts with '.' and has no later dot or separator. */
  lemma {:induction false} ExtensionShape(path: string, end: nat)
    requires end <= |path|
    ensures var r := ExtensionBefore(path, end);
      r != "" ==> |r| <= |path| && |path| - |r| < end && r == path[|path| - |r|..] && r[0] == '.' &&
                  forall j :: |path| - |r| < j < end ==> path[j] != '.' && !IsPathSeparator(path[j])
    decreases end
  {
    if end > 0 && path[end - 1] != '.' && !IsPathSeparator(path[end - 1]) {
      ExtensionShape(path, end - 1);
    }
  }

  predicate IsExecutableExtension(ext: string) {
    var e := ToLower(ext); e == ".exe" || e == ".cmd" || e == ".bat"
  }

  /** A directory as it is probed: a backslash is appended unless it already ends with one. */
  function NormalizeDir(dir: string): (r: string)
    ensures EndsWith(r, "\\")
    ensures r == dir || r == dir + "\\"
    ensures EndsWith(dir, "\\") ==> r == dir
  {
    if EndsWith(dir, "\\") then dir else dir + "\\"
  }

  /** The four candidates of one directory, in probe order. */
  function Candidates(dir: string, file: string): seq<string> {
    var pfile := NormalizeDir(dir) + file;
    [pfile, pfile + ".exe", pfile + ".cmd", pfile + ".bat"]
  }

  /** A candidate is taken when it exists; the name itself must also carry an executable extension. */
  predicate Accepts(cands: seq<string>, k: nat, files: set<string>)
    requires k < |cands|
  {
    cands[k] in files && (k != 0 || IsExecutableExtension(GetExtension(cands[0])))
  }

  /** The outcome of probing one directory. */
  function Probe(dir: string, file: string, files: set<string>): Option<string> {
    var pfile := NormalizeDir(dir) + file;
    if pfile in files && IsExecutableExtension(GetExtension(pfile)) then Some(pfile)
    else if pfile + ".exe" in files then Some(pfile + ".exe")
    else if pfile + ".cmd" in files then Some(pfile + ".cmd")
    else if pfile + ".bat" in files then Some(pfile + ".bat")
    else None
  }

  /** The directories in search order: the extra folder first, then PATH as listed. */
  function SearchDirs(additionalSearchFolder: Option<string>, path: seq<string>): seq<string> {
    match additionalSearchFolder
    case Some(d) => [d] + path
    case None => path
  }

  /** The first probe outcome that is a hit, if any. */
  function FirstHit(probes: seq<Option<string>>): Option<string>
    decreases |probes|
  {
    if probes == [] then None
    else if probes[0].Some? then probes[0]
    else FirstHit(probes[1..])
  }

  /** The outcome of probing each directory, in search order. */
  function Probes(dirs: seq<string>, file: string, files: set<string>): (ps: seq<Option<string>>)
    ensures |ps| == |dirs|
  {
    seq(|dirs|, k requires 0 <= k < |dirs| => Probe(dirs[k], file, files))
  }

  /** Position k of the probe outcomes is the probe of directory k. */
  lemma ProbesAt(dirs: seq<string>, file: string, files: set<string>, k: nat)
    requires k < |dirs|
    ensures Probes(dirs, file, files)[k] == Probe(dirs[k], file, files)
  {
  }

  /** The first directory with a hit decides. */
  function Search(dirs: seq<string>, file: string, files: set<string>): Option<string> {
    FirstHit(Probes(dirs, file, files))
  }

  /** What PathLookup returns; None stands for null. */
  function Lookup(file: string, additionalSearchFolder: Option<string>, path: seq<string>, files: set<string>): Option<string> {
    if HasSeparator(file) || file == "cmd.exe" then Some(file)
    else Search(SearchDirs(additionalSearchFolder, path), file, files)
  }

  method PathLookup(file: string, additionalSearchFolder: Option<string>, path: seq<string>, files: set<string>)
    returns (r: Option<string>)
    ensures r == Lookup(file, additionalSearchFolder, path, files)
  {
    if HasSeparator(file) {
      return Some(file);
    }
    if file == "cmd.exe" {
      return Some(file);
    }
    var paths := path;
    if additionalSearchFolder.Some? {
      paths := [additionalSearchFolder.value] + paths;
    }
    ghost var probes := Probes(paths, file, files);
    ghost var target := Lookup(file, additionalSearchFolder, path, files);
    assert probes[0..] == probes;
    var i := 0;
    while i < |paths|
      invariant 0 <= i <= |paths|
      invariant FirstHit(probes[i..]) == target
    {
      var hit := ProbeDir(paths[i], file, files);
      ProbesAt(paths, file, files, i);
      FirstHitFrom(probes, i);
      if hit.Some? {
        return hit;
      }
      i := i + 1;
    }
    return None;
  }

  /** The body of PathLookup's loop: the four candidates of one directory, in order. */
  method ProbeDir(dir: string, file: string, files: set<string>) returns (r: Option<string>)
    ensures r == Probe(dir, file, files)
  {
    var p := dir;
    if !EndsWith(p, "\\") {
      p := p + "\\";
    }
    var pfile := p + file;
    if pfile in files {
      var ext := ToLower(GetExtension(pfile));
      if ext == ".exe" || ext == ".cmd" || ext == ".bat" {
        return Some(pfile);
      }
    }
    if pfile + ".exe" in files {
      return Some(pfile + ".exe");
    }
    if pfile + ".cmd" in files {
      return Some(pfile + ".cmd");
    }
    if pfile + ".bat" in files {
      return Some(pfile + ".bat");
    }
    return None;
  }

  /** The search from position i is decided by probe i when it hits, and continues past it otherwise. */
  lemma FirstHitFrom(probes: seq<Option<string>>, i: nat)
    requires i < |probes|
    ensures FirstHit(probes[i..]) == if probes[i].Some? then probes[i] else FirstHit(probes[i + 1..])
  {
    assert probes[i..][0] == probes[i];
    assert probes[i..][1..] == probes[i + 1..];
  }

  /** Within one directory the probe takes the first accepted candidate, in the fixed order name, .exe, .cmd, .bat. */
  lemma ProbeFirstAccepted(dir: string, file: string, files: set<string>)
    ensures var c := Candidates(dir, file);
      (Probe(dir, file, files).None? <==> forall k :: 0 <= k < 4 ==> !Accepts(c, k, files)) &&
      forall k :: 0 <= k < 4 && Accepts(c, k, files) && (forall j :: 0 <= j < k ==> !Accepts(c, j, files)) ==>
        Probe(dir, file, files) == Some(c[k])
  {
    var c := Candidates(dir, file);
    var pfile := NormalizeDir(dir) + file;
    assert c == [pfile, pfile + ".exe", pfile + ".cmd", pfile + ".bat"];
    assert Accepts(c, 0, files) <==> pfile in files && IsExecutableExtension(GetExtension(pfile));
    assert Accepts(c, 1, files) <==> pfile + ".exe" in files;
    assert Accepts(c, 2, files) <==> pfile + ".cmd" in files;
    assert Accepts(c, 3, files) <==> pfile + ".bat" in files;
  }

  lemma {:induction false} FirstHitNone(probes: seq<Option<string>>)
    ensures FirstHit(probes).None? <==> forall k :: 0 <= k < |probes| ==> probes[k].None?
    decreases |probes|
  {
    if probes != [] {
      FirstHitNone(probes[1..]);
      assert forall k :: 0 < k < |probes| ==> probes[1..][k - 1] == probes[k];
    }
  }

  lemma {:induction false} FirstHitAt(probes: seq<Option<string>>, k: nat)
    requires k < |probes| && probes[k].Some?
    requires forall j :: 0 <= j < k ==> probes[j].None?
    ensures FirstHit(probes) == probes[k]
    decreases k
  {
    if k > 0 {
      assert forall j :: 0 <= j < k - 1 ==> probes[1..][j] == probes[j + 1];
      FirstHitAt(probes[1..], k - 1);
    }
  }

  lemma {:induction false} FirstHitIsAHit(probes: seq<Option<string>>)
    requires FirstHit(probes).Some?
    ensures exists k :: 0 <= k < |probes| && probes[k] == FirstHit(probes)
    decreases |probes|
  {
    if probes[0].None? {
      FirstHitIsAHit(probes[1..]);
      var k :| 0 <= k < |probes[1..]| && probes[1..][k] == FirstHit(probes[1..]);
      assert probes[k + 1] == FirstHit(probes);
    }
  }

  /** The search finds nothing exactly when no directory hits. */
  lemma SearchNone(dirs: seq<string>, file: string, files: set<string>)
    ensures Search(dirs, file, files).None? <==> forall k :: 0 <= k < |dirs| ==> Probe(dirs[k], file, files).None?
  {
    FirstHitNone(Probes(dirs, file, files));
    forall k | 0 <= k < |dirs| {
      ProbesAt(dirs, file, files, k);
    }
  }

  /** The first directory, in search order, whose probe hits gives the result. */
  lemma SearchFirstHit(dirs: seq<string>, k: nat, file: string, files: set<string>)
    requires k < |dirs| && Probe(dirs[k], file, files).Some?
    requires forall j :: 0 <= j < k ==> Probe(dirs[j], file, files).None?
    ensures Search(dirs, file, files) == Probe(dirs[k], file, files)
  {
    forall j | 0 <= j <= k {
      ProbesAt(dirs, file, files, j);
    }
    FirstHitAt(Probes(dirs, file, files), k);
  }

  /** A directory's hit is one of its candidates and exists. */
  lemma ProbeShape(dir: string, file: string, files: set<string>)
    requires Probe(dir, file, files).Some?
    ensures Probe(dir, file, files).value in files
    ensures Probe(dir, file, files).value in Candidates(dir, file)
  {
  }

  /** A hit is an existing file in a probed directory: the directory, a backslash, the name, and maybe an extension. */
  lemma SearchResultShape(dirs: seq<string>, file: string, files: set<string>)
    requires Search(dirs, file, files).Some?
    ensures Search(dirs, file, files).value in files
    ensures exists k :: 0 <= k < |dirs| && Search(dirs, file, files).value in Candidates(dirs[k], file)
  {
    var probes := Probes(dirs, file, files);
    FirstHitIsAHit(probes);
    var k :| 0 <= k < |probes| && probes[k] == FirstHit(probes);
    ProbesAt(dirs, file, files, k);
    ProbeShape(dirs[k], file, files);
  }

  lemma LowerSuffixes()
    ensures ToLower(".exe") == ".exe" && ToLower(".cmd") == ".cmd" && ToLower(".bat") == ".bat"
  {
  }

  /** A path whose last four characters lower-case to a recognised suffix has them as its extension. */
  lemma SuffixIsExtension(path: string)
    requires |path| >= 4
    requires var t := ToLower(path[|path| - 4..]); t == ".exe" || t == ".cmd" || t == ".bat"
    ensures GetExtension(path) == path[|path| - 4..]
  {
    var tail := path[|path| - 4..];
    var t := ToLower(tail);
    assert ToLowerChar(tail[0]) == t[0] == '.';
    forall j | |path| - 4 < j < |path| ensures path[j] != '.' && !IsPathSeparator(path[j]) {
      assert path[j] == tail[j - (|path| - 4)];
      assert 'a' <= ToLowerChar(tail[j - (|path| - 4)]) <= 'z';
    }
    ExtensionScan(path, 4);
  }

  /** The extension test on the bare name agrees with a case-insensitive suffix test. */
  lemma ExecutableExtensionIff(path: string)
    ensures IsExecutableExtension(GetExtension(path)) <==>
            EndsWithIgnoreCase(path, ".exe") || EndsWithIgnoreCase(path, ".cmd") || EndsWithIgnoreCase(path, ".bat")
  {
    LowerSuffixes();
    ExtensionShape(path, |path|);
    var ext := GetExtension(path);
    if IsExecutableExtension(ext) {
      assert |ToLower(ext)| == 4;
      assert |ext| == 4 && ext == path[|path| - 4..];
    }
    if |path| >= 4 {
      var t := ToLower(path[|path| - 4..]);
      if t == ".exe" || t == ".cmd" || t == ".bat" {
        SuffixIsExtension(path);
      }
    }
  }

  /** Scanning back over the last n-1 characters, none a dot or separator, lands on the dot before them. */
  lemma {:induction false} ExtensionScan(path: string, n: nat)
    requires 2 <= n <= |path|
    requires path[|path| - n] == '.'
    requires forall j :: |path| - n < j < |path| ==> path[j] != '.' && !IsPathSeparator(path[j])
    ensures GetExtension(path) == path[|path| - n..]
  {
    var end := |path|;
    while end > |path| - n + 1
      invariant |path| - n + 1 <= end <= |path|
      invariant ExtensionBefore(path, end) == ExtensionBefore(path, |path|)
    {
      end := end - 1;
    }
  }

  /** Every candidate lies inside its directory, so it contains a backslash. */
  lemma CandidateHasSeparator(dir: string, file: string, r: string)
    requires r in Candidates(dir, file)
    ensures HasSeparator(r)
  {
    var d := NormalizeDir(dir);
    var pfile := d + file;
    assert d[|d| - 1] == '\\';
    assert r == pfile || r == pfile + ".exe" || r == pfile + ".cmd" || r == pfile + ".bat";
    assert r[|d| - 1] == '\\';
  }

  /** A lookup result, looked up again in any environment, comes back unchanged. */
  lemma LookupIdempotent(file: string, extra: Option<string>, path: seq<string>, files: set<string>,
                         extra': Option<string>, path': seq<string>, files': set<string>)
    requires Lookup(file, extra, path, files).Some?
    ensures var r := Lookup(file, extra, path, files).value;
      Lookup(r, extra', path', files') == Some(r)
  {
    var r := Lookup(file, extra, path, files).value;
    if !(HasSeparator(file) || file == "cmd.exe") {
      var dirs := SearchDirs(extra, path);
      SearchResultShape(dirs, file, files);
      var k :| 0 <= k < |dirs| && r in Candidates(dirs[k], file);
      CandidateHasSeparator(dirs[k], file, r);
    }
  }

  /** The extra folder is searched before every PATH directory. */
  lemma ExtraFolderFirst(file: string, extra: string, path: seq<string>, files: set<string>)
    requires !HasSeparator(file) && file != "cmd.exe"
    requires Probe(extra, file, files).Some?
    ensures Lookup(file, Some(extra), path, files) == Probe(extra, file, files)
  {
  }
}
