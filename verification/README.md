# Continuous-build trigger logic, modelled in Dafny

This project models two pieces of the continuous-build support of Gradle's launcher
(`org.gradle.launcher.continuous`):

- **`FileWatchStrategy`** decides, before each task executes, which of the task's source
  inputs are registered with the file watcher. Individual files, the files of file-backed
  trees, and whole directory trees are candidates. Anything that is the project's build
  directory or lies below it is skipped. "Below" is decided by walking a path's ancestors
  and canonicalising each one (`isSameOrChildOf`). The strategy's watcher callback turns an
  overflow or a change into a REBUILD trigger.
- **`TaskInputsWatcher`** collects a snapshot of the input files of every task executed once a build has started into a
  union collection that is never cleared. When a build finishes, it asks the watcher
  factory to watch the file-system roots of that union. Events are filtered: an UNDEFINED
  event always passes, and any other event passes only if the union would contain its file.
  A watcher error becomes a STOP trigger, and an accepted event becomes a REBUILD trigger.

The filesystem is abstract (`FileSystems`). A `FileSystem` is a finite map from every
existing path to its canonical form. A path is a sequence of name segments, and the empty
sequence is the filesystem root. `Valid` states the two facts about canonicalisation the
model relies on:

1. the canonical form of an existing path is itself canonical, so canonicalisation is idempotent;
2. the parent of a canonical path is canonical.

With these two facts the ancestor walk terminates. The measure is lexicographic: first
whether the current path exists, then the length of its canonical form. An existing path
moves to a canonical parent that is one segment shorter. A missing path either moves to an
existing parent or to a missing parent that is one segment shorter.

Modules: `Wrappers` (Option), `FileSystems`, `Triggers` (trigger type and reason),
`FileWatchStrategy`, `TaskInputsWatcher`.

## Model

| member | source | states |
|---|---|---|
| `FileWatchStrategy.CanonicalizeFile` | subprojects/launcher/src/main/java/org/gradle/launcher/continuous/FileWatchStrategy.java:123-125 | a missing path is returned unchanged; an existing one becomes the canonicaliser's result, which is canonical |
| `FileWatchStrategy.CanonicalizeFileIdempotent` | subprojects/launcher/src/main/java/org/gradle/launcher/continuous/FileWatchStrategy.java:123-125 | canonicalising a canonicalised path changes nothing |
| `FileWatchStrategy.AncestorChain` | subprojects/launcher/src/main/java/org/gradle/launcher/continuous/FileWatchStrategy.java:131-138 | the walk's successive paths form a finite chain: it starts at the canonicalised file, each later element is the canonicalised parent of the one before, and it ends at the filesystem root, so the loop terminates |
| `FileWatchStrategy.WalkFinds` | subprojects/launcher/src/main/java/org/gradle/launcher/continuous/FileWatchStrategy.java:131-139 | the loop returns true iff some element of the canonicalised ancestor chain equals the root |
| `FileWatchStrategy.IsSameOrChildOf` | subprojects/launcher/src/main/java/org/gradle/launcher/continuous/FileWatchStrategy.java:127-140 | false whenever the root does not exist; otherwise true iff the root occurs in the canonicalised ancestor chain |
| `FileWatchStrategy.ChainOfExistingPath` | subprojects/launcher/src/main/java/org/gradle/launcher/continuous/FileWatchStrategy.java:131-138 | from an existing path, the chain is exactly the ancestors-or-self of its canonical form |
| `FileWatchStrategy.ExistingPathContainment` | subprojects/launcher/src/main/java/org/gradle/launcher/continuous/FileWatchStrategy.java:127-140 | an existing file is same-or-child of a root iff the root is a prefix of the file's canonical path |
| `FileWatchStrategy.CanonicalRootContainsItself` | subprojects/launcher/src/main/java/org/gradle/launcher/continuous/FileWatchStrategy.java:127-140 | an existing canonical root is same-or-child of itself |
| `FileWatchStrategy.MissingPathContainment` | subprojects/launcher/src/main/java/org/gradle/launcher/continuous/FileWatchStrategy.java:132-137 | a missing path is contained exactly when its parent is; a missing filesystem root is contained in nothing |
| `FileWatchStrategy.ContainmentCharacterisation` | subprojects/launcher/src/main/java/org/gradle/launcher/continuous/FileWatchStrategy.java:127-140 | a file is same-or-child of a root iff the root is a prefix of the canonical form of the file's deepest existing ancestor (false if no ancestor exists) |
| `FileWatchStrategy.SelectFiles` | subprojects/launcher/src/main/java/org/gradle/launcher/continuous/FileWatchStrategy.java:107-113 | a plain file is added iff it is not same-or-child of the build root; only such files are added |
| `FileWatchStrategy.SelectTrees` | subprojects/launcher/src/main/java/org/gradle/launcher/continuous/FileWatchStrategy.java:95-106 | a file of a file-backed tree is added iff it is not under the build root; a directory tree is added whole iff its root is not under the build root; nothing added is under the build root |
| `FileWatchStrategy.WatchInputsFor` | subprojects/launcher/src/main/java/org/gradle/launcher/continuous/FileWatchStrategy.java:89-121 | a task without source files registers nothing; otherwise the registration carries the task path and no entry is same-or-child of the canonicalised build dir. When the file list is iterated (plain collection, or `hasDirectoryTrees()` false), only single files are registered, exactly the listed files not excluded. When trees are iterated, a file is registered iff it belongs to a file-backed tree and is not excluded, and a directory tree iff it is listed and its root is not excluded |
| `FileWatchStrategy.ExcludedIffUnderCanonicalBuildDir` | subprojects/launcher/src/main/java/org/gradle/launcher/continuous/FileWatchStrategy.java:91-112 | an existing input is excluded iff the build dir exists and its canonical path is a prefix of the input's canonical path |
| `FileWatchStrategy.TreeAroundBuildDirIsAddedWhole` | subprojects/launcher/src/main/java/org/gradle/launcher/continuous/FileWatchStrategy.java:103-105 | a directory tree whose root strictly contains the canonical build dir is still added whole: nothing inside an added tree is filtered |
| `FileWatchStrategy.MissingBuildDirExcludesNothing` | subprojects/launcher/src/main/java/org/gradle/launcher/continuous/FileWatchStrategy.java:128-130 | while the build dir does not exist, every plain source file is registered |
| `FileWatchStrategy.OnNotification` | subprojects/launcher/src/main/java/org/gradle/launcher/continuous/FileWatchStrategy.java:155-162 | every notification yields REBUILD; the reason is "overflow in filewatching" exactly for an overflow and "file change" exactly for a change |
| `FileWatchStrategy.ChangeTriggerIgnoresFile` | subprojects/launcher/src/main/java/org/gradle/launcher/continuous/FileWatchStrategy.java:159-162 | the trigger for a change is the same whichever file changed |
| `TaskInputsWatcher.NewInputsWatcher` | subprojects/launcher/src/main/java/org/gradle/launcher/continuous/TaskInputsWatcher.java:42-46 | the union starts empty and no task-execution listener is registered yet |
| `TaskInputsWatcher.AccumulatedInputs` | subprojects/launcher/src/main/java/org/gradle/launcher/continuous/TaskInputsWatcher.java:45 | the union's contents are exactly the paths some snapshot would contain |
| `TaskInputsWatcher.BeforeExecute` | subprojects/launcher/src/main/java/org/gradle/launcher/continuous/TaskInputsWatcher.java:52-55 | a task's input snapshot is unioned in, and nothing is removed |
| `TaskInputsWatcher.Step` | subprojects/launcher/src/main/java/org/gradle/launcher/continuous/TaskInputsWatcher.java:48-57 | a build start registers the listener; a task executed while the listener is registered adds its inputs; nothing else changes the union, and build finish leaves it as it is |
| `TaskInputsWatcher.AccumulatedInputsOnlyGrow` | subprojects/launcher/src/main/java/org/gradle/launcher/continuous/TaskInputsWatcher.java:48-57 | after any sequence of builds, the union holds exactly its earlier contents plus the inputs of every task executed after some build start |
| `TaskInputsWatcher.TaskBeforeBuildStartIsDropped` | subprojects/launcher/src/main/java/org/gradle/launcher/continuous/TaskInputsWatcher.java:48-57 | while no listener is registered and no build starts, the union does not change, whatever tasks execute |
| `TaskInputsWatcher.ErrorReason` | subprojects/launcher/src/main/java/org/gradle/launcher/continuous/TaskInputsWatcher.java:71 | the reason is "error " followed by the message, or by "null" when there is no message |
| `TaskInputsWatcher.OnOutcome` | subprojects/launcher/src/main/java/org/gradle/launcher/continuous/TaskInputsWatcher.java:66-92 | an error gives STOP with the error reason; an event gives a trigger iff it passes the filter `Accepts` (the `isSatisfiedBy` at :77-83), that is iff it is UNDEFINED or its file is in the union, and that trigger is REBUILD "file change" |
| `TaskInputsWatcher.UndefinedAlwaysRebuilds` | subprojects/launcher/src/main/java/org/gradle/launcher/continuous/TaskInputsWatcher.java:81 | an UNDEFINED event triggers a rebuild, whatever its file and whatever the union holds |
| `TaskInputsWatcher.AcceptanceIsPreserved` | subprojects/launcher/src/main/java/org/gradle/launcher/continuous/TaskInputsWatcher.java:81-82 | an event accepted now is still accepted after any further builds, because the union is never cleared |
| `TaskInputsWatcher.OnBuildFinished` | subprojects/launcher/src/main/java/org/gradle/launcher/continuous/TaskInputsWatcher.java:66-67 | the roots requested are `fileSystemRoots` applied to the union as it stands |
| `TaskInputsWatcher.RootsCoverEveryBuildSinceConstruction` | subprojects/launcher/src/main/java/org/gradle/launcher/continuous/TaskInputsWatcher.java:45-67 | the roots requested at build finish are the file-system roots of the inputs of every task executed since the first build start, across all builds |

## Left out

- The file watcher backend: creating watchers, `enterRegistrationMode`/`exitRegistrationMode` at build start and finish, and the `watch` calls themselves. This is external I/O whose behaviour is not visible. `WatchInputsFor` returns the entries added to the watch-inputs builder, in the abstraction described in the next line.
- FileWatchStrategy.WatchInputsFor: a `WatchTree` entry records only the tree's directory. The rest of the `DirectoryTree` object passed to the builder, such as its include and exclude patterns, is not modelled. What the watcher then observes inside the tree is not modelled either.
- Converting an `IOException` from watcher creation or registration into an unchecked exception. This is exception plumbing with no decision logic.
- The no-op `run()` and the empty build-listener callbacks.
- `DefaultTriggerGeneratorFactory`: it only wires objects together.
- `StopThenFireFileWatcherListener` and `FilteringFileWatcherListener` internals. The model maps every accepted event to a REBUILD trigger. It makes no claim that a session fires only once, because that guarantee comes from concurrent-delivery code that is not part of this model.
- TaskInputsWatcher.OnBuildFinished: how `getFileSystemRoots` derives roots from files is not visible, so the model takes it as a function parameter. The contract therefore only says which file set the roots are derived from, not what the roots are.
- `UnionFileCollection.wouldContain` is modelled as membership in some snapshot.
- Real symlink resolution and file existence: both are the abstract `FileSystem` map, constrained by `Valid`.
- Relative paths: every path is a segment sequence below one root. A relative single-segment path, whose parent is null in Java, is not distinguished from an absolute one.
- The file carried by an UNDEFINED event may be null in the watcher. The model always carries some path, which the filter never looks at for UNDEFINED events.
- Logging. Re-registering the task-execution listener on every build start is abstracted to a single `listening` flag. Once any build has started, every executed task is taken to be seen by a registered listener.
- Gradle API types (Task, Project, DirectoryTree, FileCollection) are replaced by small datatypes. The body of `hasDirectoryTrees()` is not visible, so a tree-backed collection carries its answer as a flag (`hasTrees`), next to its trees and its own file listing. The model does not relate the flag to the tree list.

## Behaviour worth noting

- `TaskInputsWatcher` creates its union once (TaskInputsWatcher.java:45) and never clears it. Inputs therefore accumulate across builds, and the filter reads the union as it stands when an event arrives (`AccumulatedInputsOnlyGrow`, `AcceptanceIsPreserved`, `RootsCoverEveryBuildSinceConstruction`).
- `TaskInputsWatcher` only sees tasks through the listener that `buildStarted` registers (TaskInputsWatcher.java:50-55). A task executed before the first build start is not captured (`TaskBeforeBuildStartIsDropped`).
- `TaskInputsWatcher` excludes nothing under the build directory. Every executed task's input files are added as they are (TaskInputsWatcher.java:54).
- `FileWatchStrategy` judges a directory tree by its root alone (FileWatchStrategy.java:103). A tree whose root contains the build directory is registered whole, and the strategy does not filter inside it (`TreeAroundBuildDirIsAddedWhole`).
- A missing file below an existing build directory is excluded. The walk passes over missing paths to their parent without canonicalising them, and reaches the build directory (FileWatchStrategy.java:131-137, `MissingPathContainment`).
- While the build directory does not exist, nothing is excluded, because a missing root contains nothing (FileWatchStrategy.java:128-130, `MissingBuildDirExcludesNothing`).
