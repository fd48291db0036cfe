/** Watch-input selection of the file-watching trigger strategy: the ancestor
    walk that decides whether a path lies under the build directory, the choice
    of which source inputs of a task are registered for watching, and the
    mapping of watcher notifications to rebuild triggers. */
module FileWatchStrategy {
  import opened Wrappers
  import opened FileSystems
  import opened Triggers

  // ---------------------------------------------------------------------------
  // Canonicalisation and the ancestor walk
  // ---------------------------------------------------------------------------

  /** A path that exists is replaced by its canonical form; any other path is kept as given. */
  function CanonicalizeFile(fs: FileSystem, file: Path): (r: Path)
    ensures !Exists(fs, file) ==> r == file
    ensures Exists(fs, file) ==> r == Canonicalize(fs, file)
    ensures Valid(fs) && Exists(fs, file) ==> IsCanonical(fs, r)
  {
    if Exists(fs, file) then Canonicalize(fs, file) else file
  }

  /** Canonicalising twice gives the same path as canonicalising once. */
  lemma CanonicalizeFileIdempotent(fs: FileSystem, file: Path)
    requires Valid(fs)
    ensures CanonicalizeFile(fs, CanonicalizeFile(fs, file)) == CanonicalizeFile(fs, file)
  {
  }

  /** Termination measure of the walk: a step either moves from a missing path to an
      existing one, or stays on the same side and shortens the canonicalised path. */
  ghost function WalkRank(fs: FileSystem, current: Path): nat {
    if Exists(fs, current) then 0 else 1
  }

  /** One step of the walk: `next` is the canonicalised parent of `current`. */
  ghost predicate WalkStep(fs: FileSystem, current: Path, next: Path) {
    Parent(current).Some? && next == CanonicalizeFile(fs, Parent(current).value)
  }

  /** Each element of `chain` after the first is the walk's step from the one before. */
  ghost predicate FollowsWalk(fs: FileSystem, chain: seq<Path>) {
    forall i | 0 <= i < |chain| - 1 :: WalkStep(fs, chain[i], chain[i + 1])
  }

  /** The successive values `c0 = canonicalizeFile(file)`,
      `c(i+1) = canonicalizeFile(parent(c(i)))` taken by the walk, ending at the root. */
  ghost function AncestorChain(fs: FileSystem, file: Path): (chain: seq<Path>)
    requires Valid(fs)
    ensures |chain| > 0 && chain[0] == CanonicalizeFile(fs, file)
    ensures chain[|chain| - 1] == []
    ensures FollowsWalk(fs, chain)
    decreases WalkRank(fs, file), |CanonicalizeFile(fs, file)|
  {
    var current := CanonicalizeFile(fs, file);
    match Parent(current)
    case None => [current]
    case Some(parent) =>
      var rest := AncestorChain(fs, parent);
      var chain := [current] + rest;
      forall i | 0 <= i < |chain| - 1
        ensures WalkStep(fs, chain[i], chain[i + 1])
      {
        if i > 0 {
          assert chain[i] == rest[i - 1] && chain[i + 1] == rest[i];
        }
      }
      chain
  }

  /** The loop of the containment check, started from `current`: canonicalise,
      compare with `root`, move to the parent, stop at the filesystem root. */
  function WalkFinds(fs: FileSystem, root: Path, current: Path): (found: bool)
    requires Valid(fs)
    ensures found <==> root in AncestorChain(fs, current)
    decreases WalkRank(fs, current), |CanonicalizeFile(fs, current)|
  {
    var canonical := CanonicalizeFile(fs, current);
    if canonical == root then true
    else
      match Parent(canonical)
      case None => false
      case Some(parent) => WalkFinds(fs, root, parent)
  }

  /** Whether `file` is `root` or lies below it, judged on canonicalised ancestors.
      A root that does not exist contains nothing. */
  function IsSameOrChildOf(fs: FileSystem, root: Path, file: Path): (r: bool)
    requires Valid(fs)
    ensures !Exists(fs, root) ==> !r
    ensures r <==> Exists(fs, root) && root in AncestorChain(fs, file)
  {
    Exists(fs, root) && WalkFinds(fs, root, file)
  }

  /** The walk from an existing path visits exactly the ancestors-or-self of its
      canonical form. */
  lemma {:induction false} ChainOfExistingPath(fs: FileSystem, file: Path, a: Path)
    requires Valid(fs)
    requires Exists(fs, file)
    ensures a in AncestorChain(fs, file) <==> a <= Canonicalize(fs, file)
    decreases |Canonicalize(fs, file)|
  {
    var c := Canonicalize(fs, file);
    assert IsCanonical(fs, c);
    if c != [] {
      var parent := c[..|c| - 1];
      assert IsCanonical(fs, parent);
      assert AncestorChain(fs, file) == [c] + AncestorChain(fs, parent);
      ChainOfExistingPath(fs, parent, a);
      assert a <= c <==> a == c || a <= parent;
    }
  }

  /** For an existing path, containment is the prefix relation between
      `root` and the path's canonical form. */
  lemma ExistingPathContainment(fs: FileSystem, root: Path, file: Path)
    requires Valid(fs)
    requires Exists(fs, file)
    ensures IsSameOrChildOf(fs, root, file) <==> root <= Canonicalize(fs, file)
  {
    ChainOfExistingPath(fs, file, root);
    if root <= Canonicalize(fs, file) {
      AncestorOfCanonicalIsCanonical(fs, Canonicalize(fs, file), root);
    }
  }

  /** An existing canonical directory is same-or-child of itself. */
  lemma CanonicalRootContainsItself(fs: FileSystem, root: Path)
    requires Valid(fs)
    requires IsCanonical(fs, root)
    ensures IsSameOrChildOf(fs, root, root)
  {
    ExistingPathContainment(fs, root, root);
  }

  /** A missing path is contained exactly when its parent is: the walk passes
      over it without canonicalising. The missing root directory is contained in nothing. */
  lemma MissingPathContainment(fs: FileSystem, root: Path, file: Path)
    requires Valid(fs)
    requires !Exists(fs, file)
    ensures file == [] ==> !IsSameOrChildOf(fs, root, file)
    ensures file != [] ==>
              (IsSameOrChildOf(fs, root, file) <==> IsSameOrChildOf(fs, root, file[..|file| - 1]))
  {
    if file != [] {
      assert AncestorChain(fs, file) == [file] + AncestorChain(fs, file[..|file| - 1]);
    }
  }

  /** The deepest ancestor-or-self of `file` that exists, if any. */
  ghost function DeepestExistingAncestor(fs: FileSystem, file: Path): (r: Option<Path>)
    ensures r.Some? ==> Exists(fs, r.value) && r.value <= file
    ensures forall k | 0 <= k <= |file| && Exists(fs, file[..k]) :: r.Some? && k <= |r.value|
  {
    if Exists(fs, file) then Some(file)
    else if file == [] then None
    else
      var parent := file[..|file| - 1];
      assert forall k | 0 <= k < |file| :: parent[..k] == file[..k];
      assert file[..|file|] == file;
      DeepestExistingAncestor(fs, parent)
  }

  /** `root` is an ancestor-or-self of the canonical form of the deepest existing
      ancestor of `file`; false when no ancestor of `file` exists. */
  ghost predicate UnderDeepestExistingAncestor(fs: FileSystem, root: Path, file: Path) {
    match DeepestExistingAncestor(fs, file)
    case None => false
    case Some(a) => root <= Canonicalize(fs, a)
  }

  /** Characterisation of the whole walk: `file` is same-or-child of `root` iff
      `root` is an ancestor-or-self of the canonical form of the deepest existing
      ancestor of `file`. */
  lemma {:induction false} ContainmentCharacterisation(fs: FileSystem, root: Path, file: Path)
    requires Valid(fs)
    ensures IsSameOrChildOf(fs, root, file) <==> UnderDeepestExistingAncestor(fs, root, file)
    decreases |file|
  {
    if Exists(fs, file) {
      ExistingPathContainment(fs, root, file);
    } else {
      MissingPathContainment(fs, root, file);
      if file != [] {
        ContainmentCharacterisation(fs, root, file[..|file| - 1]);
      }
    }
  }

  // ---------------------------------------------------------------------------
  // Input selection before a task executes
  // ---------------------------------------------------------------------------

  /** A directory tree among a task's source files: either an explicit list of
      files, or a directory watched as a whole. */
  datatype DirectoryTree = FileBackedTree(files: seq<Path>) | DirTree(dir: Path)

  /** A task's source inputs. A tree-backed collection carries the answer of its
      `hasDirectoryTrees()`, its trees, and its own file listing; when `hasTrees` is
      false it is iterated file by file through `files`, like a plain collection. */
  datatype SourceFiles =
    | NoSourceFiles
    | PlainFiles(files: seq<Path>)
    | TreeBacked(hasTrees: bool, trees: seq<DirectoryTree>, files: seq<Path>)
  {
    /** Whether selection iterates the collection's files rather than its trees. */
    predicate UsesFileList() {
      PlainFiles? || (TreeBacked? && !hasTrees)
    }
  }

  datatype Task = Task(path: string, buildDir: Path, sourceFiles: SourceFiles)

  /** One entry of the watch-inputs builder: a single file or a whole tree. */
  datatype WatchInput = WatchFile(file: Path) | WatchTree(dir: Path)

  /** The inputs registered for a task, keyed by the task's path. */
  datatype Registration = Registration(taskPath: string, inputs: seq<WatchInput>)

  function WatchedPath(w: WatchInput): Path {
    match w
    case WatchFile(f) => f
    case WatchTree(d) => d
  }

  /** The individual files that are not under the build root, in order. */
  function SelectFiles(fs: FileSystem, buildRoot: Path, files: seq<Path>): (r: seq<WatchInput>)
    requires Valid(fs)
    ensures |r| <= |files|
    ensures forall w | w in r :: w.WatchFile? && !IsSameOrChildOf(fs, buildRoot, WatchedPath(w))
    ensures forall f :: WatchFile(f) in r <==> f in files && !IsSameOrChildOf(fs, buildRoot, f)
  {
    if files == [] then []
    else
      var head := if IsSameOrChildOf(fs, buildRoot, files[0]) then [] else [WatchFile(files[0])];
      head + SelectFiles(fs, buildRoot, files[1..])
  }

  /** The entries contributed by a list of trees: the non-excluded files of
      file-backed trees, and every directory tree whose root is not under the build root. */
  function SelectTrees(fs: FileSystem, buildRoot: Path, trees: seq<DirectoryTree>): (r: seq<WatchInput>)
    requires Valid(fs)
    ensures forall w | w in r :: !IsSameOrChildOf(fs, buildRoot, WatchedPath(w))
    ensures forall f :: WatchFile(f) in r <==>
              !IsSameOrChildOf(fs, buildRoot, f) &&
              exists t | t in trees :: t.FileBackedTree? && f in t.files
    ensures forall d :: WatchTree(d) in r <==>
              DirTree(d) in trees && !IsSameOrChildOf(fs, buildRoot, d)
  {
    if trees == [] then []
    else
      var head :=
        match trees[0]
        case FileBackedTree(files) => SelectFiles(fs, buildRoot, files)
        case DirTree(dir) => if IsSameOrChildOf(fs, buildRoot, dir) then [] else [WatchTree(dir)];
      var tail := SelectTrees(fs, buildRoot, trees[1..]);
      assert forall t | t in trees :: t == trees[0] || t in trees[1..];
      head + tail
  }

  /** The registration `beforeExecute` makes for a task, or None when the task
      declares no source files and nothing is registered. */
  function WatchInputsFor(fs: FileSystem, task: Task): (r: Option<Registration>)
    requires Valid(fs)
    ensures r.None? <==> task.sourceFiles.NoSourceFiles?
    ensures r.Some? ==> r.value.taskPath == task.path
    ensures r.Some? ==>
              forall w | w in r.value.inputs ::
                !IsSameOrChildOf(fs, CanonicalizeFile(fs, task.buildDir), WatchedPath(w))
    ensures task.sourceFiles.UsesFileList() ==>
              forall w | w in r.value.inputs :: w.WatchFile?
    ensures task.sourceFiles.UsesFileList() ==>
              forall f :: WatchFile(f) in r.value.inputs <==>
                f in task.sourceFiles.files && !IsSameOrChildOf(fs, CanonicalizeFile(fs, task.buildDir), f)
    ensures task.sourceFiles.TreeBacked? && task.sourceFiles.hasTrees ==>
              forall f :: WatchFile(f) in r.value.inputs <==>
                !IsSameOrChildOf(fs, CanonicalizeFile(fs, task.buildDir), f) &&
                exists t | t in task.sourceFiles.trees :: t.FileBackedTree? && f in t.files
    ensures task.sourceFiles.TreeBacked? && task.sourceFiles.hasTrees ==>
              forall d :: WatchTree(d) in r.value.inputs <==>
                DirTree(d) in task.sourceFiles.trees &&
                !IsSameOrChildOf(fs, CanonicalizeFile(fs, task.buildDir), d)
  {
    var buildRoot := CanonicalizeFile(fs, task.buildDir);
    match task.sourceFiles
    case NoSourceFiles => None
    case PlainFiles(files) => Some(Registration(task.path, SelectFiles(fs, buildRoot, files)))
    case TreeBacked(hasTrees, trees, files) =>
      if hasTrees then Some(Registration(task.path, SelectTrees(fs, buildRoot, trees)))
      else Some(Registration(task.path, SelectFiles(fs, buildRoot, files)))
  }

  /** An existing path is excluded from watching exactly when the build directory
      exists and its canonical form is an ancestor-or-self of the path's canonical form. */
  lemma ExcludedIffUnderCanonicalBuildDir(fs: FileSystem, buildDir: Path, file: Path)
    requires Valid(fs)
    requires Exists(fs, file)
    ensures IsSameOrChildOf(fs, CanonicalizeFile(fs, buildDir), file) <==>
              Exists(fs, buildDir) && Canonicalize(fs, buildDir) <= Canonicalize(fs, file)
  {
    ExistingPathContainment(fs, CanonicalizeFile(fs, buildDir), file);
  }

  /** A directory tree is judged by its root alone: a tree whose root strictly
      contains the canonical build directory is still registered whole. */
  lemma TreeAroundBuildDirIsAddedWhole(fs: FileSystem, buildDir: Path, dir: Path)
    requires Valid(fs)
    requires IsCanonical(fs, buildDir) && IsCanonical(fs, dir)
    requires dir < buildDir
    ensures WatchTree(dir) in SelectTrees(fs, buildDir, [DirTree(dir)])
  {
    ExistingPathContainment(fs, buildDir, dir);
  }

  /** While the build directory does not exist yet, nothing is excluded. */
  lemma MissingBuildDirExcludesNothing(fs: FileSystem, task: Task)
    requires Valid(fs)
    requires !Exists(fs, task.buildDir)
    ensures task.sourceFiles.UsesFileList() ==>
              forall f | f in task.sourceFiles.files :: WatchFile(f) in WatchInputsFor(fs, task).value.inputs
  {
  }

  // ---------------------------------------------------------------------------
  // Watcher notifications
  // ---------------------------------------------------------------------------

  /** What the file watcher reports to its listener. */
  datatype WatcherNotification = Overflow | Change(file: Path)

  /** Every notification asks for a rebuild; the reason names the notification kind. */
  function OnNotification(n: WatcherNotification): (t: TriggerDetails)
    ensures t.triggerType == Rebuild
    ensures n.Overflow? <==> t.reason == "overflow in filewatching"
    ensures n.Change? <==> t.reason == "file change"
  {
    match n
    case Overflow => TriggerDetails(Rebuild, "overflow in filewatching")
    case Change(_) => TriggerDetails(Rebuild, "file change")
  }

  /** The trigger raised by a change does not depend on which file changed. */
  lemma ChangeTriggerIgnoresFile(a: Path, b: Path)
    ensures OnNotification(Change(a)) == OnNotification(Change(b))
  {
  }
}
