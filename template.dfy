/**
 * `create_project_structure` of template.py over an abstract file system:
 * a set of directories and a map from file paths to contents. A path is
 * the sequence of its components; the empty path is the directory the
 * relative paths start from, which always exists.
 *
 * For every entry in order: a missing parent directory is created with all
 * its missing ancestors (`mkdir(parents=True, exist_ok=True)`), then a
 * missing entry is written as a file. A regular file standing where a
 * directory is needed makes `mkdir` or `open` raise, which ends the call.
 */
module Template {
  import opened Wrappers
  import opened Strings

  type Path = seq<string>

  /** `Path.parent`; the parent of the start directory is itself. */
  function Parent(p: Path): (q: Path)
    ensures p != [] ==> |q| == |p| - 1 && q == p[..|p| - 1]
  {
    if p == [] then [] else p[..|p| - 1]
  }

  /** `Path.name`. */
  function Name(p: Path): string {
    if p == [] then "" else p[|p| - 1]
  }

  /** `Path.suffix`: from the last dot of the name, unless that dot leads or ends the name. */
  function Suffix(name: string): (ext: string)
    ensures ext == [] || (ext[0] == '.' && |ext| >= 2 && ext[1..] == LastSegment(name, '.'))
  {
    var last := LastSegment(name, '.');
    var dot := |name| - |last| - 1;
    if 0 < dot && last != [] then "." + last else ""
  }

  /** A name has a suffix exactly when its last dot is neither its first nor its last character. */
  lemma SuffixWhenDotInside(name: string)
    ensures Suffix(name) != [] <==> exists i :: 0 < i < |name| - 1 && name[i] == '.' && '.' !in name[i + 1..]
  {
    if Suffix(name) != [] {
      SuffixHasInnerDot(name);
    }
    if i :| 0 < i < |name| - 1 && name[i] == '.' && '.' !in name[i + 1..] {
      InnerDotGivesSuffix(name, i);
    }
  }

  lemma SuffixHasInnerDot(name: string)
    requires Suffix(name) != []
    ensures var dot := |name| - |LastSegment(name, '.')| - 1;
      0 < dot < |name| - 1 && name[dot] == '.' && '.' !in name[dot + 1..]
  {
  }

  lemma InnerDotGivesSuffix(name: string, i: nat)
    requires 0 < i < |name| - 1 && name[i] == '.' && '.' !in name[i + 1..]
    ensures Suffix(name) != []
  {
    assert name == name[..i] + ['.'] + name[i + 1..];
    LastSegmentOfJoin(name[..i], '.', name[i + 1..]);
  }

  const PyPlaceholder: string := "# Auto-generated file by template.py\n"
  const YamlPlaceholder: string := "# YAML configuration file\n"
  const SetupText: string :=
    "from setuptools import setup, find_packages\n\n"
    + "setup(\n"
    + "    name='end-to-end-semantic-segmentation',\n"
    + "    packages=find_packages(),\n"
    + "    install_requires=[],  # Add your dependencies here\n"
    + ")\n"

  /**
   * The content a new file receives. The suffix placeholders are assigned
   * first and then always replaced, so only the `setup.py` test decides.
   */
  function Content(name: string): (text: string)
    ensures Contains(name, "setup.py") ==> text == SetupText
    ensures !Contains(name, "setup.py") ==> text == ""
  {
    if Contains(name, "setup.py") then SetupText else ""
  }

  /** Every name with `setup.py` in it gets the setup script, whatever comes around it. */
  lemma SetupNamesGetScript(before: string, after: string)
    ensures Content(before + "setup.py" + after) == SetupText
  {
    ContainsInfix(before, "setup.py", after);
  }

  datatype FsState = FsState(dirs: set<Path>, files: map<Path, string>)

  /**
   * A tree: the start directory exists, nothing is both a directory and a
   * file, the ancestors of a directory are directories, and so are the
   * ancestors of a file.
   */
  ghost predicate ValidState(s: FsState) {
    && [] in s.dirs
    && (forall q :: q in s.dirs ==> q !in s.files)
    && (forall q, k :: q in s.dirs && 0 <= k <= |q| ==> q[..k] in s.dirs)
    && (forall q, k :: q in s.files && 0 <= k < |q| ==> q[..k] in s.dirs)
  }

  /** `Path.exists()`. */
  function PathExists(s: FsState, p: Path): bool {
    p in s.dirs || p in s.files
  }

  /** The path and all its ancestors. */
  function Prefixes(d: Path): set<Path> {
    set k | 0 <= k <= |d| :: d[..k]
  }

  /** `d.mkdir(parents=True, exist_ok=True)`: it raises when `d` or an ancestor is a regular file. */
  function MakeDirsIn(s: FsState, d: Path): (r: Option<FsState>)
    ensures r.None? <==> exists k :: 0 <= k <= |d| && d[..k] in s.files
    ensures r.Some? ==> r.value.dirs == s.dirs + Prefixes(d) && r.value.files == s.files
  {
    if exists k :: 0 <= k <= |d| && d[..k] in s.files then None
    else Some(FsState(s.dirs + Prefixes(d), s.files))
  }

  /** `open(p, 'w')` and a write: it raises unless the parent is a directory and `p` is not one. */
  function WriteIn(s: FsState, p: Path, text: string): (r: Option<FsState>)
    ensures r.None? <==> p == [] || Parent(p) !in s.dirs || p in s.dirs
    ensures r.Some? ==> r.value.dirs == s.dirs && r.value.files == s.files[p := text]
  {
    if p == [] || Parent(p) !in s.dirs || p in s.dirs then None
    else Some(FsState(s.dirs, s.files[p := text]))
  }

  /** The state a call leaves and whether it returned (false: it raised). */
  datatype Run = Run(state: FsState, ok: bool)

  /**
   * One pass of the loop body: the state it leaves and whether it returned.
   * A write that raises after `mkdir` succeeded leaves the new directories.
   */
  function Place(s: FsState, p: Path): Run {
    var ready := if PathExists(s, Parent(p)) then Some(s) else MakeDirsIn(s, Parent(p));
    match ready
    case None => Run(s, false)
    case Some(t) =>
      if PathExists(t, p) then Run(t, true)
      else match WriteIn(t, p, Content(Name(p)))
        case None => Run(t, false)
        case Some(u) => Run(u, true)
  }

  /** Some proper ancestor of `p` is a regular file. */
  ghost predicate Blocked(s: FsState, p: Path) {
    exists k :: 0 <= k < |p| && p[..k] in s.files
  }

  /** The whole loop: entries in list order, stopping at the first that raises. */
  function Scaffold(s: FsState, structure: seq<Path>): Run {
    if structure == [] then Run(s, true)
    else
      var before := Scaffold(s, structure[..|structure| - 1]);
      if !before.ok then before else Place(before.state, structure[|structure| - 1])
  }

  // ---------------------------------------------------------------------
  // One entry
  // ---------------------------------------------------------------------

  lemma PrefixOfPrefix(q: Path, k: nat, j: nat)
    requires j <= k <= |q|
    ensures q[..k][..j] == q[..j]
  {
  }

  /** An entry fails exactly when one of its ancestors is a regular file. */
  lemma PlaceFailsIffBlocked(s: FsState, p: Path)
    requires ValidState(s)
    ensures !Place(s, p).ok <==> Blocked(s, p)
    ensures !Place(s, p).ok ==> Place(s, p).state == s
  {
    if p != [] {
      var parent := Parent(p);
      assert forall k :: 0 <= k <= |parent| ==> parent[..k] == p[..k];
      if parent in s.dirs {
        assert forall k :: 0 <= k < |p| ==> p[..k] in s.dirs by {
          forall k | 0 <= k < |p| ensures p[..k] in s.dirs {
            assert parent[..k] in s.dirs;
          }
        }
      } else if parent in s.files {
        assert p[..|p| - 1] in s.files;
      } else {
        assert p !in Prefixes(parent);
      }
    }
  }

  lemma MakeDirsKeepsValid(s: FsState, d: Path)
    requires ValidState(s) && MakeDirsIn(s, d).Some?
    ensures ValidState(MakeDirsIn(s, d).value)
  {
    var t := MakeDirsIn(s, d).value;
    forall q, k | q in t.dirs && 0 <= k <= |q| ensures q[..k] in t.dirs {
      if q !in s.dirs {
        var j :| 0 <= j <= |d| && q == d[..j];
        PrefixOfPrefix(d, j, k);
      }
    }
    forall q | q in t.dirs ensures q !in t.files {
      if q !in s.dirs {
        var j :| 0 <= j <= |d| && q == d[..j];
      }
    }
  }

  lemma WriteKeepsValid(s: FsState, p: Path, text: string)
    requires ValidState(s) && WriteIn(s, p, text).Some?
    ensures ValidState(WriteIn(s, p, text).value)
  {
    var t := WriteIn(s, p, text).value;
    forall k | 0 <= k < |p| ensures p[..k] in t.dirs {
      PrefixOfPrefix(p, |p| - 1, k);
    }
  }

  /** An entry keeps the file system a tree. */
  lemma PlaceKeepsValid(s: FsState, p: Path)
    requires ValidState(s)
    ensures ValidState(Place(s, p).state)
  {
    if PathExists(s, Parent(p)) || MakeDirsIn(s, Parent(p)).Some? {
      var t := if PathExists(s, Parent(p)) then s else MakeDirsIn(s, Parent(p)).value;
      if !PathExists(s, Parent(p)) {
        MakeDirsKeepsValid(s, Parent(p));
      }
      if !PathExists(t, p) && WriteIn(t, p, Content(Name(p))).Some? {
        WriteKeepsValid(t, p, Content(Name(p)));
      }
    }
  }

  /**
   * After a successful entry: it exists, as the file written now or as
   * whatever was there; every ancestor is a directory; nothing that existed
   * was removed or rewritten; and the only new file is the entry itself,
   * with the content its name calls for.
   */
  lemma PlaceEffect(s: FsState, p: Path)
    requires ValidState(s) && Place(s, p).ok
    ensures var t := Place(s, p).state;
      && PathExists(t, p)
      && (forall k :: 0 <= k < |p| ==> p[..k] in t.dirs)
      && s.dirs <= t.dirs && s.files.Keys <= t.files.Keys
      && (forall q :: q in s.files ==> t.files[q] == s.files[q])
      && (forall q :: q in t.files && q !in s.files ==> q == p && t.files[q] == Content(Name(p)))
      && (forall q :: q in t.dirs && q !in s.dirs ==> exists k :: 0 <= k < |p| && q == p[..k])
  {
    var t := Place(s, p).state;
    PlaceKeepsValid(s, p);
    var parent := Parent(p);
    if p != [] {
      assert forall k :: 0 <= k <= |parent| ==> parent[..k] == p[..k];
      assert parent in t.dirs;
      forall k | 0 <= k < |p| ensures p[..k] in t.dirs {
        PrefixOfPrefix(p, |p| - 1, k);
      }
    }
    forall q | q in t.dirs && q !in s.dirs ensures exists k :: 0 <= k < |p| && q == p[..k] {
      var j :| 0 <= j <= |parent| && q == parent[..j];
      assert q == p[..j];
    }
  }

  /** A second pass over an entry that exists and whose parent is a directory changes nothing. */
  lemma PlaceExisting(s: FsState, p: Path)
    requires PathExists(s, p) && Parent(p) in s.dirs
    ensures Place(s, p) == Run(s, true)
  {
  }

  // ---------------------------------------------------------------------
  // The whole list
  // ---------------------------------------------------------------------

  /** Processing `a + b` is processing `a`, then `b` from where `a` left off, unless `a` raised. */
  lemma {:induction false} ScaffoldSplit(s: FsState, a: seq<Path>, b: seq<Path>)
    ensures Scaffold(s, a + b) ==
      (var r := Scaffold(s, a); if !r.ok then r else Scaffold(r.state, b))
    decreases |b|
  {
    if b == [] {
      assert a + b == a;
    } else {
      var b' := b[..|b| - 1];
      assert (a + b)[..|a + b| - 1] == a + b';
      assert (a + b)[|a + b| - 1] == b[|b| - 1];
      ScaffoldSplit(s, a, b');
    }
  }

  /** The file system stays a tree, also when the call stops early. */
  lemma {:induction false} ScaffoldKeepsValid(s: FsState, structure: seq<Path>)
    requires ValidState(s)
    ensures ValidState(Scaffold(s, structure).state)
  {
    if structure != [] {
      var before := Scaffold(s, structure[..|structure| - 1]);
      ScaffoldKeepsValid(s, structure[..|structure| - 1]);
      if before.ok {
        PlaceKeepsValid(before.state, structure[|structure| - 1]);
      }
    }
  }

  /** The call raises exactly when some entry, reached in order, has a regular file as an ancestor. */
  lemma {:induction false} ScaffoldFailsAtBlockedEntry(s: FsState, structure: seq<Path>)
    requires ValidState(s) && structure != []
    ensures var before := Scaffold(s, structure[..|structure| - 1]);
      Scaffold(s, structure).ok <==>
        before.ok && !Blocked(before.state, structure[|structure| - 1])
  {
    ScaffoldKeepsValid(s, structure[..|structure| - 1]);
    PlaceFailsIffBlocked(Scaffold(s, structure[..|structure| - 1]).state, structure[|structure| - 1]);
  }

  /** The entry exists and every ancestor of it is a directory. */
  ghost predicate Placed(t: FsState, p: Path) {
    PathExists(t, p) && forall k :: 0 <= k < |p| ==> p[..k] in t.dirs
  }

  /** Growing the file system keeps what was placed in it. */
  lemma PlacedKept(s: FsState, t: FsState, p: Path)
    requires Placed(s, p) && s.dirs <= t.dirs && s.files.Keys <= t.files.Keys
    ensures Placed(t, p)
  {
  }

  /** After a call that returned, every entry is placed. */
  lemma {:induction false} ScaffoldCreatesEntries(s: FsState, structure: seq<Path>)
    requires ValidState(s) && Scaffold(s, structure).ok
    ensures forall i :: 0 <= i < |structure| ==> Placed(Scaffold(s, structure).state, structure[i])
  {
    if structure != [] {
      var front := structure[..|structure| - 1];
      var last := structure[|structure| - 1];
      var before := Scaffold(s, front);
      ScaffoldCreatesEntries(s, front);
      ScaffoldKeepsValid(s, front);
      PlaceEffect(before.state, last);
      var t := Scaffold(s, structure).state;
      forall i | 0 <= i < |structure| ensures Placed(t, structure[i]) {
        if i < |front| {
          assert structure[i] == front[i];
          PlacedKept(before.state, t, front[i]);
        }
      }
    }
  }

  /**
   * Nothing that existed is removed or rewritten, and every new file is an
   * entry of the list holding the content its name calls for.
   */
  lemma {:induction false} ScaffoldPreserves(s: FsState, structure: seq<Path>)
    requires ValidState(s)
    ensures var t := Scaffold(s, structure).state;
      && s.dirs <= t.dirs && s.files.Keys <= t.files.Keys
      && (forall q :: q in s.files ==> t.files[q] == s.files[q])
      && (forall q :: q in t.files && q !in s.files ==> q in structure && t.files[q] == Content(Name(q)))
  {
    if structure != [] {
      var front := structure[..|structure| - 1];
      var last := structure[|structure| - 1];
      var before := Scaffold(s, front);
      ScaffoldPreserves(s, front);
      ScaffoldKeepsValid(s, front);
      assert structure == front + [last];
      if !before.ok {
        assert Scaffold(s, structure) == before;
      } else if !Place(before.state, last).ok {
        PlaceFailsIffBlocked(before.state, last);
        assert Scaffold(s, structure).state == before.state;
      } else {
        PlaceEffect(before.state, last);
        var t := Scaffold(s, structure).state;
        forall q | q in t.files && q !in s.files
          ensures q in structure && t.files[q] == Content(Name(q))
        {
          if q in before.state.files {
            assert q in front;
          }
        }
      }
    }
  }

  /**
   * Paths that are neither an entry nor an ancestor of one are left as
   * they were.
   */
  lemma {:induction false} ScaffoldLeavesOthers(s: FsState, structure: seq<Path>, q: Path)
    requires ValidState(s)
    requires forall i, k :: 0 <= i < |structure| && 0 <= k <= |structure[i]| ==> q != structure[i][..k]
    ensures var t := Scaffold(s, structure).state;
      (q in t.dirs <==> q in s.dirs) && (q in t.files <==> q in s.files)
  {
    if structure != [] {
      var front := structure[..|structure| - 1];
      var last := structure[|structure| - 1];
      var before := Scaffold(s, front);
      ScaffoldLeavesOthers(s, front, q);
      ScaffoldKeepsValid(s, front);
      if before.ok && Place(before.state, last).ok {
        PlaceEffect(before.state, last);
        assert q != last[..|last|];
        assert last[..|last|] == last;
      } else if before.ok {
        PlaceFailsIffBlocked(before.state, last);
      }
    }
  }

  /** Running the call again on the file system it produced changes nothing and does not raise. */
  lemma ScaffoldIdempotent(s: FsState, structure: seq<Path>)
    requires ValidState(s) && Scaffold(s, structure).ok
    ensures var t := Scaffold(s, structure).state; Scaffold(t, structure) == Run(t, true)
  {
    ScaffoldCreatesEntries(s, structure);
    AgainIsIdle(Scaffold(s, structure).state, structure, |structure|);
    assert structure[..|structure|] == structure;
  }

  /** Over entries that are all placed, the first `n` passes keep the state. */
  lemma {:induction false} AgainIsIdle(t: FsState, structure: seq<Path>, n: nat)
    requires n <= |structure|
    requires forall i :: 0 <= i < |structure| ==> Placed(t, structure[i])
    ensures Scaffold(t, structure[..n]) == Run(t, true)
  {
    if n > 0 {
      AgainIsIdle(t, structure, n - 1);
      assert structure[..n][..n - 1] == structure[..n - 1];
      var p := structure[n - 1];
      assert Placed(t, p);
      if p != [] {
        assert p[..|p| - 1] in t.dirs;
        PlaceExisting(t, p);
      }
    }
  }

  // ---------------------------------------------------------------------
  // The imperative version
  // ---------------------------------------------------------------------

  /** The real file system the script works on, reduced to its directories and files. */
  class FileSystem {
    var dirs: set<Path>
    var files: map<Path, string>

    function State(): FsState
      reads this
    {
      FsState(dirs, files)
    }

    constructor (dirs: set<Path>, files: map<Path, string>)
      ensures State() == FsState(dirs, files)
    {
      this.dirs := dirs;
      this.files := files;
    }

    method MakeDirs(d: Path) returns (ok: bool)
      modifies this
      ensures ok == MakeDirsIn(old(State()), d).Some?
      ensures State() == if ok then MakeDirsIn(old(State()), d).value else old(State())
    {
      if exists k :: 0 <= k <= |d| && d[..k] in files {
        return false;
      }
      dirs := dirs + Prefixes(d);
      ok := true;
    }

    method Write(p: Path, text: string) returns (ok: bool)
      modifies this
      ensures ok == WriteIn(old(State()), p, text).Some?
      ensures State() == if ok then WriteIn(old(State()), p, text).value else old(State())
    {
      if p == [] || Parent(p) !in dirs || p in dirs {
        return false;
      }
      files := files[p := text];
      ok := true;
    }
  }

  /**
   * create_project_structure: the loop over `structure`. It returns false
   * where the script raises, leaving what the earlier entries created.
   */
  method CreateProjectStructure(fs: FileSystem, structure: seq<Path>) returns (ok: bool)
    modifies fs
    ensures Run(fs.State(), ok) == Scaffold(old(fs.State()), structure)
  {
    ghost var start := fs.State();
    for i := 0 to |structure|
      invariant Scaffold(start, structure[..i]) == Run(fs.State(), true)
    {
      var path := structure[i];
      var parentDir := Parent(path);
      ghost var before := fs.State();
      assert structure[..i + 1] == structure[..i] + [path];
      ScaffoldSplit(start, structure[..i], [path]);
      assert Scaffold(before, [path]) == Place(before, path);
      ScaffoldSplit(start, structure[..i + 1], structure[i + 1..]);
      assert structure[..i + 1] + structure[i + 1..] == structure;
      if !PathExists(fs.State(), parentDir) {
        var made := fs.MakeDirs(parentDir);
        if !made {
          return false;
        }
      }
      if !PathExists(fs.State(), path) {
        var name := Name(path);
        var content := "";
        var suffix := Suffix(name);
        if suffix == ".py" {
          content := PyPlaceholder;
        } else if suffix == ".yaml" || suffix == ".yml" {
          content := YamlPlaceholder;
        }
        if Contains(name, "setup.py") {
          content := SetupText;
        } else {
          content := "";
        }
        var written := fs.Write(path, content);
        if !written {
          return false;
        }
      }
    }
    assert structure[..|structure|] == structure;
    ok := true;
  }
}
