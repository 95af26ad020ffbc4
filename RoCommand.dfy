/**
 * Command helpers of rocommand/ro_command.py: the search for the root of
 * the research object containing a directory, the filter that hides dot
 * files from `ro list`, and the argument and level guards of `ro add`,
 * `ro list` and `ro evaluate`.
 *
 * The file system enters as the set of paths that are directories; paths
 * are '/'-separated strings handled as Python's posixpath handles them.
 */
module RoCommand {
  import opened Wrappers

  /** The name of the RO metadata directory, ro_settings.MANIFEST_DIR. */
  const ManifestDir := ".ro"

  // ---------------------------------------------------------------------
  // posixpath

  predicate AllSlashes(s: string)
  {
    forall i :: 0 <= i < |s| ==> s[i] == '/'
  }

  /** The index just after the last '/' of p, 0 when there is none. */
  function AfterLastSlash(p: string): (i: nat)
    ensures i <= |p|
    ensures i > 0 ==> p[i - 1] == '/'
    ensures forall j :: i <= j < |p| ==> p[j] != '/'
  {
    if p == [] then 0
    else if p[|p| - 1] == '/' then |p|
    else AfterLastSlash(p[..|p| - 1])
  }

  /** `s.rstrip('/')`. */
  function RStripSlashes(s: string): (t: string)
    ensures t <= s
    ensures t == [] || t[|t| - 1] != '/'
    ensures forall j :: |t| <= j < |s| ==> s[j] == '/'
  {
    if s == [] then []
    else if s[|s| - 1] == '/' then RStripSlashes(s[..|s| - 1])
    else s
  }

  /**
   * `posixpath.dirname`: everything up to the last '/', with trailing
   * slashes removed unless that part is nothing but slashes.
   */
  function Dirname(p: string): (d: string)
    ensures d <= p
    ensures '/' !in p ==> d == ""
    ensures '/' in p ==> d != ""
  {
    var head := p[..AfterLastSlash(p)];
    if head != [] && !AllSlashes(head) then RStripSlashes(head) else head
  }

  /** `posixpath.join(a, b)`. */
  function Join(a: string, b: string): string
  {
    if |b| > 0 && b[0] == '/' then b
    else if a == [] || a[|a| - 1] == '/' then a + b
    else a + "/" + b
  }

  /** dirname leaves a path unchanged exactly when it is empty or all slashes ("/", "//", ...). */
  lemma DirnameFixpoint(p: string)
    ensures Dirname(p) == p <==> AllSlashes(p)
  {
    var i := AfterLastSlash(p);
    var head := p[..i];
    if AllSlashes(p) && p != [] {
      assert i == |p|;
      assert head == p;
    }
  }

  // ---------------------------------------------------------------------
  // ro_root_directory

  /**
   * The directories the search visits: d, dirname(d), ... while the path is
   * non-empty and dirname still changes it.
   */
  function Walk(d: string): (w: seq<string>)
    ensures d != "" ==> |w| > 0 && w[0] == d
    ensures d == "" ==> w == []
    decreases |d|
  {
    if d == "" then []
    else if Dirname(d) == d then [d]
    else
      assert |Dirname(d)| < |d|;
      [d] + Walk(Dirname(d))
  }

  /**
   * The walk goes up one directory at a time, never visits the empty path,
   * and stops at a path that is its own dirname (the file system root) or
   * whose dirname is empty (the top of a relative path).
   */
  lemma {:induction false} WalkShape(d: string)
    ensures var w := Walk(d);
      && (forall i :: 0 <= i < |w| - 1 ==> w[i + 1] == Dirname(w[i]))
      && (forall i :: 0 <= i < |w| ==> w[i] != "")
      && (d != "" ==> Dirname(w[|w| - 1]) == w[|w| - 1] || Dirname(w[|w| - 1]) == "")
    decreases |d|
  {
    if d != "" && Dirname(d) != d {
      var up := Dirname(d);
      assert |up| < |d|;
      WalkShape(up);
      var w := Walk(d);
      assert w == [d] + Walk(up);
      forall i | 0 <= i < |w| - 1
        ensures w[i + 1] == Dirname(w[i])
      {
        if i > 0 {
          assert w[i] == Walk(up)[i - 1];
        }
      }
    }
  }

  /** The first path of ws that has a metadata directory. */
  function FirstRoot(ws: seq<string>, dirs: set<string>): (r: Option<string>)
    ensures r.Some? ==>
      exists k :: 0 <= k < |ws| && ws[k] == r.value && Join(ws[k], ManifestDir) in dirs
        && forall j :: 0 <= j < k ==> Join(ws[j], ManifestDir) !in dirs
    ensures r.None? <==> forall k :: 0 <= k < |ws| ==> Join(ws[k], ManifestDir) !in dirs
  {
    if ws == [] then None
    else if Join(ws[0], ManifestDir) in dirs then Some(ws[0])
    else
      var r := FirstRoot(ws[1..], dirs);
      assert forall k :: 1 <= k < |ws| ==> ws[k] == ws[1..][k - 1];
      r
  }

  /** What `ro_root_directory` reports. */
  datatype RootResult =
    | Found(dir: string)
    | NotInTree             // ropath gives no directory
    | NoSuchDirectory       // the indicated directory does not exist
    | NotInResearchObject   // no directory on the walk holds a metadata directory

  /**
   * `ro_root_directory` (lines 42-73). roDir is what `ro_utils.ropath`
   * answers for the indicated directory (None outside the configured tree);
   * dirs is the set of paths that are directories.
   */
  method RoRootDirectory(roDir: Option<string>, dirs: set<string>) returns (r: RootResult)
    ensures roDir.None? || roDir.value == "" ==> r == NotInTree
    ensures roDir.Some? && roDir.value != "" && roDir.value !in dirs ==> r == NoSuchDirectory
    ensures roDir.Some? && roDir.value != "" && roDir.value in dirs ==>
      r == match FirstRoot(Walk(roDir.value), dirs)
           case Some(x) => Found(x)
           case None => NotInResearchObject
  {
    if roDir.None? || roDir.value == "" {
      return NotInTree;
    }
    var d := roDir.value;
    if d !in dirs {
      return NoSuchDirectory;
    }
    var next := d;
    var prev := "";
    while next != "" && next != prev
      invariant FirstRoot(Walk(d), dirs)
             == FirstRoot(if next != "" && next != prev then Walk(next) else [], dirs)
      decreases |next| + (if next == prev then 0 else 1)
    {
      var manifestdir := Join(next, ManifestDir);
      if manifestdir in dirs {
        return Found(next);
      }
      var up := Dirname(next);
      assert Walk(next)[1..] == if up == next then [] else Walk(up);
      prev := next;
      next := up;
    }
    return NotInResearchObject;
  }

  /** A directory that holds a metadata directory is its own root. */
  lemma RootOfRoot(d: string, dirs: set<string>)
    requires d != "" && Join(d, ManifestDir) in dirs
    ensures FirstRoot(Walk(d), dirs) == Some(d)
  {
  }

  /** The root found is the indicated directory or one of its ancestors, and holds a metadata directory. */
  lemma RootIsAncestor(d: string, dirs: set<string>)
    requires FirstRoot(Walk(d), dirs).Some?
    ensures var x := FirstRoot(Walk(d), dirs).value;
      x <= d && x != "" && Join(x, ManifestDir) in dirs
  {
    var w := Walk(d);
    var x := FirstRoot(w, dirs).value;
    var k :| 0 <= k < |w| && w[k] == x && Join(w[k], ManifestDir) in dirs;
    WalkShape(d);
    WalkPrefixes(d);
    assert w[k] in w;
  }

  lemma {:induction false} WalkPrefixes(d: string)
    ensures forall w :: w in Walk(d) ==> w <= d
    decreases |d|
  {
    if d != "" && Dirname(d) != d {
      assert |Dirname(d)| < |d|;
      WalkPrefixes(Dirname(d));
    }
  }

  // ---------------------------------------------------------------------
  // ro list: hidden files

  // The second alternative of the pattern `\.|.*/\.` used at line 297: a
  // "/." reached from the start without crossing a newline ('.' in a
  // regular expression does not match a newline).
  predicate SlashDotOnFirstLine(f: string)
    decreases |f|
  {
    if |f| < 2 || f[0] == '\n' then false
    else if f[0] == '/' && f[1] == '.' then true
    else SlashDotOnFirstLine(f[1..])
  }

  /** `notHidden` (lines 296-297): `re.match` finds no match at the start of f. */
  predicate NotHidden(f: string)
  {
    !((|f| > 0 && f[0] == '.') || SlashDotOnFirstLine(f))
  }

  lemma {:induction false} SlashDotOnFirstLineIff(f: string)
    ensures SlashDotOnFirstLine(f)
        <==> exists k :: 0 <= k < |f| - 1 && f[k] == '/' && f[k + 1] == '.' && '\n' !in f[..k]
    decreases |f|
  {
    if |f| >= 2 && f[0] != '\n' && !(f[0] == '/' && f[1] == '.') {
      SlashDotOnFirstLineIff(f[1..]);
      if exists k :: 0 <= k < |f| - 1 && f[k] == '/' && f[k + 1] == '.' && '\n' !in f[..k] {
        var k :| 0 <= k < |f| - 1 && f[k] == '/' && f[k + 1] == '.' && '\n' !in f[..k];
        assert k > 0;
        assert f[1..][k - 1] == '/' && f[1..][k] == '.';
        assert f[1..][..k - 1] == f[..k][1..];
      }
      if SlashDotOnFirstLine(f[1..]) {
        var k :| 0 <= k < |f[1..]| - 1 && f[1..][k] == '/' && f[1..][k + 1] == '.' && '\n' !in f[1..][..k];
        assert f[..k + 1] == [f[0]] + f[1..][..k];
        assert f[k + 1] == '/' && f[k + 2] == '.';
      }
    }
  }

  /** A path without newlines is hidden exactly when it starts with "." or contains "/.". */
  lemma HiddenIff(f: string)
    requires '\n' !in f
    ensures !NotHidden(f) <==> (|f| > 0 && f[0] == '.') || exists k :: 0 <= k < |f| - 1 && f[k] == '/' && f[k + 1] == '.'
  {
    SlashDotOnFirstLineIff(f);
    forall k | 0 <= k < |f| - 1
      ensures '\n' !in f[..k]
    {
      assert forall c :: c in f[..k] ==> c in f;
    }
  }

  /** `filter(notHidden, rofiles)` (line 298). */
  function Visible(files: seq<string>): (v: seq<string>)
    ensures |v| <= |files|
  {
    if files == [] then []
    else (if NotHidden(files[0]) then [files[0]] else []) + Visible(files[1..])
  }

  /** The listing keeps exactly the paths that are not hidden. */
  lemma {:induction false} VisibleMember(files: seq<string>, f: string)
    ensures f in Visible(files) <==> f in files && NotHidden(f)
  {
    if files != [] {
      VisibleMember(files[1..], f);
      assert files == [files[0]] + files[1..];
    }
  }

  /** The listing keeps the original order: filtering distributes over concatenation. */
  lemma {:induction false} VisibleAppend(a: seq<string>, b: seq<string>)
    ensures Visible(a + b) == Visible(a) + Visible(b)
  {
    if a == [] {
      assert a + b == b;
    } else {
      var ab := a + b;
      assert ab[0] == a[0];
      assert ab[1..] == a[1..] + b;
      VisibleAppend(a[1..], b);
      var keep := if NotHidden(a[0]) then [a[0]] else [];
      assert Visible(ab) == keep + Visible(a[1..] + b);
      assert Visible(a) == keep + Visible(a[1..]);
    }
  }

  /** Each path is listed as often as it occurs, when it is not hidden. */
  lemma {:induction false} VisibleCount(files: seq<string>, f: string)
    ensures multiset(Visible(files))[f] == if NotHidden(f) then multiset(files)[f] else 0
  {
    if files != [] {
      VisibleCount(files[1..], f);
      assert files == [files[0]] + files[1..];
    }
  }

  // ---------------------------------------------------------------------
  // Command guards

  /** Python's `s or default` on a string. */
  function OrDefault(s: string, default: string): string
  {
    if s != "" then s else default
  }

  /** What `ro add` passes on to the manifest update. */
  datatype AddRequest = AddRequest(roDir: string, roFile: string, recurse: bool)

  /**
   * `add` (lines 208-242) up to the manifest update; args holds the program
   * name, the command and its operands, root is what the root search
   * answered. A failure carries the exit status.
   */
  function Add(args: seq<string>, root: RootResult, all: bool): (r: Result<AddRequest, int>)
    ensures r.Failure? ==> r.error == 1
    ensures r.Success? <==> (|args| == 2 || |args| == 3) && root.Found?
    ensures r.Success? ==> r.value == AddRequest(root.dir, if |args| == 3 then args[2] else ".", all)
  {
    if |args| != 2 && |args| != 3 then Failure(1)
    else if !root.Found? then Failure(1)
    else Success(AddRequest(root.dir, if |args| == 3 then args[2] else ".", all))
  }

  /**
   * `list` (lines 273-300): the paths printed, one per line; without `-a`
   * the hidden ones are left out.
   */
  function List(root: RootResult, all: bool, files: seq<string>): (r: Result<seq<string>, int>)
    ensures r.Failure? <==> !root.Found?
    ensures r.Failure? ==> r.error == 1
    ensures r.Success? && all ==> r.value == files
    ensures r.Success? && !all ==> forall f :: f in r.value <==> f in files && NotHidden(f)
    ensures r.Success? && !all ==> r.value == Visible(files)
  {
    if !root.Found? then Failure(1)
    else if all then Success(files)
    else
      assert forall f :: f in Visible(files) <==> f in files && NotHidden(f) by {
        forall f ensures f in Visible(files) <==> f in files && NotHidden(f) {
          VisibleMember(files, f);
        }
      }
      Success(Visible(files))
  }

  /** The reporting levels `evaluate checklist` accepts (line 512). */
  const Levels: seq<string> := ["summary", "must", "should", "may", "full"]

  /** What `ro evaluate checklist` passes on to the evaluation and the report. */
  datatype EvalRequest = EvalRequest(roDir: string, minim: string, purpose: string, target: string, detail: string)

  /**
   * `evaluate` (lines 485-533) up to the evaluation: the guards in their
   * order, the defaults for omitted or empty operands, and the report
   * detail ("full" under `-a`, else the level).
   */
  function EvaluateCommand(args: seq<string>, root: RootResult, all: bool, level: string): (r: Result<EvalRequest, int>)
    ensures r.Failure? ==> r.error == 1
    ensures r.Success? <==>
      |args| >= 3 && root.Found? && args[2] == "checklist" && (|args| == 5 || |args| == 6) && level in Levels
    ensures r.Success? ==>
      && r.value.roDir == root.dir
      && r.value.minim == OrDefault(args[3], "minim.rdf")
      && r.value.purpose == OrDefault(args[4], "create")
      && r.value.target == (if |args| == 6 then OrDefault(args[5], ".") else ".")
      && r.value.detail in Levels
      && (all ==> r.value.detail == "full")
      && (!all ==> r.value.detail == level)
  {
    if |args| < 3 then Failure(1)
    else if !root.Found? then Failure(1)
    else if args[2] != "checklist" then Failure(1)
    else if |args| != 5 && |args| != 6 then Failure(1)
    else if level !in Levels then Failure(1)
    else
      Success(EvalRequest(
        root.dir,
        OrDefault(args[3], "minim.rdf"),
        OrDefault(args[4], "create"),
        if |args| > 5 then OrDefault(args[5], ".") else ".",
        if all then "full" else level))
  }
}
