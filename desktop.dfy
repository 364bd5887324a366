/**
  The artifact sink of desktop_utils.py: copying a finished file into
  `<Desktop or home>/AI 工具輸出/<category>/`, probing `name_1.ext`,
  `name_2.ext`, … until a name is free. The file system is a `Disk` holding
  the set of existing file paths and the set of existing directory paths.
*/
module Desktop {
  import opened Common
  import opened Text
  import opened Paths

  const BaseOutputFolderName: string := "AI 工具輸出"

  /** Where an artifact landed: the full path and the file name shown to the user. */
  datatype Placed = Placed(path: string, name: string)

  class Disk {
    var files: set<string>
    var dirs: set<string>

    constructor (files0: set<string>, dirs0: set<string>)
      ensures files == files0 && dirs == dirs0
    {
      files := files0;
      dirs := dirs0;
    }
  }

  /** `get_desktop_path()`: `~/Desktop` when it is a directory, otherwise the home folder itself. */
  function DesktopPath(home: string, dirs: set<string>): string {
    if Join(home, "Desktop") in dirs then Join(home, "Desktop") else home
  }

  /** The base output folder `<desktop>/AI 工具輸出`. */
  function BaseFolder(home: string, dirs: set<string>): string {
    Join(DesktopPath(home, dirs), BaseOutputFolderName)
  }

  /** The category folder `<desktop>/AI 工具輸出/<subfolder>`. */
  function TargetFolder(home: string, dirs: set<string>, subfolder: string): string {
    Join(BaseFolder(home, dirs), subfolder)
  }

  /**
    Where an artifact lands: for a home folder and a category name without
    slashes, the category folder sits in the base output folder, which sits in
    the desktop (or the home folder itself when there is no desktop), and carries
    the category's name.
  */
  lemma TargetFolderPlacement(home: string, dirs: set<string>, subfolder: string)
    requires home != [] && home[0] == '/' && home[|home| - 1] != '/'
    requires subfolder != [] && !Contains(subfolder, '/')
    ensures Dirname(Dirname(TargetFolder(home, dirs, subfolder))) == DesktopPath(home, dirs)
    ensures Dirname(TargetFolder(home, dirs, subfolder)) == BaseFolder(home, dirs)
    ensures Basename(TargetFolder(home, dirs, subfolder)) == subfolder
    ensures DesktopPath(home, dirs) == home || DesktopPath(home, dirs) == home + "/Desktop"
  {
    var desktop := DesktopPath(home, dirs);
    DesktopIsFolder(home, dirs);
    PlainBaseName();
    DirnameOfJoin(desktop, BaseOutputFolderName);
    var base := BaseFolder(home, dirs);
    assert base == desktop + "/" + BaseOutputFolderName;
    DirnameOfJoin(base, subfolder);
    BasenameOfJoin(base, subfolder);
  }

  lemma DesktopIsFolder(home: string, dirs: set<string>)
    requires home != [] && home[|home| - 1] != '/'
    ensures var d := DesktopPath(home, dirs);
      (d == home || d == home + "/Desktop") && d != [] && d[|d| - 1] != '/'
  {
  }

  lemma PlainBaseName()
    ensures var name := BaseOutputFolderName;
      name != [] && name[0] != '/' && name[|name| - 1] != '/' && !Contains(name, '/')
  {
    var name := BaseOutputFolderName;
    assert forall i :: 0 <= i < |name| ==> name[i] != '/';
  }

  /** `f"{name}_{counter}{ext}"` with `name, ext = os.path.splitext(desired)`. */
  function Candidate(desired: string, k: nat): string {
    SplitExt(desired).0 + "_" + NatToString(k) + SplitExt(desired).1
  }

  /** The k-th name the probe tries: the desired name itself, then the numbered candidates. */
  function Probe(desired: string, k: nat): string {
    if k == 0 then desired else Candidate(desired, k)
  }

  /** `Probe(desired, k)` is the first name whose path in `folder` is not taken. */
  ghost predicate FirstFree(existing: set<string>, folder: string, desired: string, k: nat) {
    Join(folder, Probe(desired, k)) !in existing &&
    forall j :: 0 <= j < k ==> Join(folder, Probe(desired, j)) in existing
  }

  /** A dot-less name gets the counter at its very end. */
  lemma CandidateWithoutDot(desired: string, k: nat)
    requires !Contains(desired, '.')
    ensures Candidate(desired, k) == desired + "_" + NatToString(k)
  {
    NoDotNoExtension(desired);
  }

  /**
    `splitext` gives a numbered candidate back as its parts: the desired name's
    stem with `_<k>` appended, and the desired name's extension unchanged.
  */
  lemma CandidateSplits(desired: string, k: nat)
    ensures SplitExt(Candidate(desired, k)) == (SplitExt(desired).0 + "_" + NatToString(k), SplitExt(desired).1)
  {
    var parts := SplitExt(desired);
    var tag := "_" + NatToString(k);
    CandidateIsTagged(desired, k);
    PlainTag(k);
    TaggedSplits(parts.0, tag, parts.1);
  }

  /** A numbered candidate is the stem, then `_<k>`, then the extension. */
  lemma CandidateIsTagged(desired: string, k: nat)
    ensures Candidate(desired, k) == (SplitExt(desired).0 + ("_" + NatToString(k))) + SplitExt(desired).1
    ensures SplitExt(desired).0 + "_" + NatToString(k) == SplitExt(desired).0 + ("_" + NatToString(k))
  {
    var parts, digits := SplitExt(desired), NatToString(k);
    assert parts.0 + "_" + digits == parts.0 + ("_" + digits);
    assert parts.0 + "_" + digits + parts.1 == (parts.0 + ("_" + digits)) + parts.1;
  }

  /** The counter text `_<k>` has no '.' and no '/'. */
  lemma PlainTag(k: nat)
    ensures var tag := "_" + NatToString(k); tag[0] == '_' && !Contains(tag, '.') && !Contains(tag, '/')
  {
    var tag := "_" + NatToString(k);
    assert forall i :: 1 <= i < |tag| ==> tag[i] == NatToString(k)[i - 1];
  }

  /** A stem followed by `_<k>` still has a non-dot in its last component, so the extension splits off as before. */
  lemma TaggedSplits(stem: string, tag: string, ext: string)
    requires tag != [] && tag[0] == '_' && !Contains(tag, '.') && !Contains(tag, '/')
    requires ext == [] ==> !HasExtension(stem)
    requires ext != [] ==> ext[0] == '.' && !Contains(ext[1..], '.') && !Contains(ext, '/')
    ensures SplitExt((stem + tag) + ext) == (stem + tag, ext)
  {
    if ext == [] {
      NoExtensionAppend(stem, tag);
      assert (stem + tag) + ext == stem + tag;
    } else {
      LastIndexOfAppend(stem, tag, '/');
      assert (stem + tag)[|stem|] == '_';
      SplitExtOfParts(stem + tag, ext);
    }
  }

  /** Different probe indices give different names. */
  lemma {:induction false} ProbeInjective(desired: string, a: nat, b: nat)
    requires Probe(desired, a) == Probe(desired, b)
    ensures a == b
  {
    var (name, ext) := SplitExt(desired);
    if a != 0 && b != 0 {
      var sa, sb := NatToString(a), NatToString(b);
      assert |sa| == |sb|;
      var ca := Candidate(desired, a);
      assert ca == name + "_" + sa + ext;
      assert ca[|name| + 1..|name| + 1 + |sa|] == sa;
      assert Candidate(desired, b)[|name| + 1..|name| + 1 + |sb|] == sb;
      NatToStringInjective(a, b);
    }
  }

  /** Different probe indices give different paths inside one folder. */
  lemma ProbePathInjective(folder: string, desired: string, a: nat, b: nat)
    requires Join(folder, Probe(desired, a)) == Join(folder, Probe(desired, b))
    ensures a == b
  {
    var pa, pb := Probe(desired, a), Probe(desired, b);
    if pa != [] && pb != [] {
      assert pa[0] == pb[0] by {
        var name := SplitExt(desired).0;
        if name != [] {
          assert desired[0] == name[0];
        }
      }
      JoinInjective(folder, pa, pb);
    }
    ProbeInjective(desired, a, b);
  }

  /**
    The collision probe of `copy_to_desktop_folder`: keep the desired name when it
    is free, otherwise the smallest `k >= 1` with `name_k + ext` free.
  */
  method FreshName(existing: set<string>, folder: string, desired: string) returns (name: string, k: nat)
    ensures name == Probe(desired, k) && FirstFree(existing, folder, desired, k)
    ensures Join(folder, name) !in existing
    ensures Join(folder, desired) !in existing ==> name == desired && k == 0
  {
    var path := Join(folder, desired);
    name, k := desired, 0;
    var counter := 1;
    while path in existing
      invariant counter == k + 1
      invariant name == Probe(desired, k) && path == Join(folder, name)
      invariant forall j :: 0 <= j < k ==> Join(folder, Probe(desired, j)) in existing
      invariant Tried(folder, desired, k) <= existing
      decreases existing - Tried(folder, desired, k)
    {
      NotYetTried(folder, desired, k);
      TriedStep(folder, desired, k);
      name := Candidate(desired, counter);
      path := Join(folder, name);
      k, counter := counter, counter + 1;
    }
  }

  /** The paths the probe has tried before index `k`. */
  ghost function Tried(folder: string, desired: string, k: nat): set<string> {
    set j | 0 <= j < k :: Join(folder, Probe(desired, j))
  }

  lemma TriedStep(folder: string, desired: string, k: nat)
    ensures Tried(folder, desired, k + 1) == Tried(folder, desired, k) + {Join(folder, Probe(desired, k))}
  {
    var next := Join(folder, Probe(desired, k));
    forall p | p in Tried(folder, desired, k + 1) ensures p in Tried(folder, desired, k) + {next} {
      var j :| 0 <= j < k + 1 && p == Join(folder, Probe(desired, j));
      if j < k {
        assert p in Tried(folder, desired, k);
      }
    }
    assert next in Tried(folder, desired, k + 1);
  }

  /** The path probed at index `k` was not tried before. */
  lemma NotYetTried(folder: string, desired: string, k: nat)
    ensures Join(folder, Probe(desired, k)) !in Tried(folder, desired, k)
  {
    if Join(folder, Probe(desired, k)) in Tried(folder, desired, k) {
      var j :| 0 <= j < k && Join(folder, Probe(desired, j)) == Join(folder, Probe(desired, k));
      ProbePathInjective(folder, desired, j, k);
    }
  }

  /**
    `copy_to_desktop_folder(source, subfolder, desired)`. `mkdirFails` and
    `copyFails` stand for operating-system errors of `os.makedirs` and
    `shutil.copy2` beyond the ones the file sets determine; `makedirs` also
    fails when the base or the category folder exists as a file.
  */
  method CopyToDesktopFolder(fs: Disk, home: string, source: string, subfolder: string, desired: string,
                             mkdirFails: bool, copyFails: bool) returns (r: Option<Placed>)
    modifies fs
    ensures r == None <==>
      (source !in old(fs.files + fs.dirs) || mkdirFails ||
       BaseFolder(home, old(fs.dirs)) in old(fs.files) || TargetFolder(home, old(fs.dirs), subfolder) in old(fs.files) ||
       source in old(fs.dirs) || copyFails)
    ensures fs.dirs == old(fs.dirs) + (if MadeFolders(old(fs.files), old(fs.dirs), home, subfolder, source, mkdirFails) then
                                         {BaseFolder(home, old(fs.dirs)), TargetFolder(home, old(fs.dirs), subfolder)}
                                       else {})
    ensures r.Some? ==>
      var target := TargetFolder(home, old(fs.dirs), subfolder);
      var existing := old(fs.files) + fs.dirs;
      && r.value.path !in existing
      && r.value.name == Basename(r.value.path)
      && (exists k :: FirstFree(existing, target, desired, k) && r.value.path == Join(target, Probe(desired, k)))
      && fs.files == old(fs.files) + {r.value.path}
    ensures r.None? ==> fs.files == old(fs.files)
  {
    if source !in fs.files + fs.dirs {
      return None;
    }
    var base := BaseFolder(home, fs.dirs);
    var target := TargetFolder(home, fs.dirs, subfolder);
    if mkdirFails || base in fs.files || target in fs.files {
      return None;
    }
    fs.dirs := fs.dirs + {base, target};
    r := CopyInto(fs, source, target, desired, copyFails);
  }

  /** The probe and `shutil.copy2` into an existing category folder. */
  method CopyInto(fs: Disk, source: string, target: string, desired: string, copyFails: bool) returns (r: Option<Placed>)
    modifies fs
    ensures fs.dirs == old(fs.dirs)
    ensures r == None <==> source in fs.dirs || copyFails
    ensures r.Some? ==>
      var existing := old(fs.files) + fs.dirs;
      && r.value.path !in existing
      && r.value.name == Basename(r.value.path)
      && (exists k :: FirstFree(existing, target, desired, k) && r.value.path == Join(target, Probe(desired, k)))
      && fs.files == old(fs.files) + {r.value.path}
    ensures r.None? ==> fs.files == old(fs.files)
  {
    var name, k := FreshName(fs.files + fs.dirs, target, desired);
    var finalPath := Join(target, name);
    var display := Basename(finalPath);
    if source in fs.dirs || copyFails {
      return None;
    }
    fs.files := fs.files + {finalPath};
    r := Some(Placed(finalPath, display));
  }

  /** Whether `os.makedirs` ran and created the base and category folders. */
  predicate MadeFolders(files: set<string>, dirs: set<string>, home: string, subfolder: string, source: string, mkdirFails: bool) {
    source in files + dirs && !mkdirFails &&
    BaseFolder(home, dirs) !in files && TargetFolder(home, dirs, subfolder) !in files
  }

  /** An existing copy of the desired name makes the next copy `<stem>_1<ext>`. */
  lemma SecondCopyIsNumbered(folder: string, desired: string)
    ensures FirstFree({Join(folder, desired)}, folder, desired, 1)
    ensures Probe(desired, 1) == SplitExt(desired).0 + "_1" + SplitExt(desired).1
  {
    TriedStep(folder, desired, 0);
    assert Tried(folder, desired, 1) == {Join(folder, desired)};
    FirstFreeAfterTried(folder, desired, 1);
    NumberedOne(desired);
  }

  /** With the desired name and `<stem>_1<ext>` taken, the third copy is `<stem>_2<ext>`. */
  lemma ThirdCopyIsNumberedTwo(folder: string, desired: string)
    ensures FirstFree({Join(folder, desired), Join(folder, Probe(desired, 1))}, folder, desired, 2)
    ensures Probe(desired, 2) == SplitExt(desired).0 + "_2" + SplitExt(desired).1
  {
    TriedTwo(folder, desired);
    FirstFreeAfterTried(folder, desired, 2);
    NumberedTwo(desired);
  }

  lemma NumberedOne(desired: string)
    ensures Probe(desired, 1) == SplitExt(desired).0 + "_1" + SplitExt(desired).1
  {
    assert NatToString(1) == "1";
  }

  lemma NumberedTwo(desired: string)
    ensures Probe(desired, 2) == SplitExt(desired).0 + "_2" + SplitExt(desired).1
  {
    assert NatToString(2) == "2";
  }

  lemma TriedTwo(folder: string, desired: string)
    ensures Tried(folder, desired, 2) == {Join(folder, desired), Join(folder, Probe(desired, 1))}
  {
    TriedStep(folder, desired, 0);
    TriedStep(folder, desired, 1);
  }

  /** When exactly the first `k` probed paths are taken, the probe stops at index `k`. */
  lemma FirstFreeAfterTried(folder: string, desired: string, k: nat)
    ensures FirstFree(Tried(folder, desired, k), folder, desired, k)
  {
    NotYetTried(folder, desired, k);
    FirstFreeOfTried(Tried(folder, desired, k), folder, desired, k);
  }

  /** The first untried path after a run of taken ones is the first free one. */
  lemma FirstFreeOfTried(existing: set<string>, folder: string, desired: string, k: nat)
    requires Tried(folder, desired, k) <= existing
    requires Join(folder, Probe(desired, k)) !in existing
    ensures FirstFree(existing, folder, desired, k)
  {
    forall j | 0 <= j < k ensures Join(folder, Probe(desired, j)) in existing {
      assert Join(folder, Probe(desired, j)) in Tried(folder, desired, k);
    }
  }
}
