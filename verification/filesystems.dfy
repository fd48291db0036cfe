/** An abstract filesystem: which paths exist and what each existing path
    canonicalises to once symbolic links are resolved. */
module FileSystems {
  import opened Wrappers

  /** A path is its sequence of name segments; the empty sequence is the filesystem root. */
  type Path = seq<string>

  /** Drops the last segment; the root has no parent (`File.getParentFile` gives null). */
  function Parent(p: Path): (r: Option<Path>)
    ensures r.None? <==> p == []
    ensures r.Some? ==> r.value < p && |r.value| + 1 == |p|
  {
    if p == [] then None else Some(p[..|p| - 1])
  }

  /** `resolved` maps every existing path to its canonical form; paths outside
      its domain do not exist. */
  datatype FileSystem = FileSystem(resolved: map<Path, Path>)

  predicate Exists(fs: FileSystem, p: Path) {
    p in fs.resolved
  }

  /** The platform canonicaliser, defined on existing paths only. */
  function Canonicalize(fs: FileSystem, p: Path): Path
    requires Exists(fs, p)
  {
    fs.resolved[p]
  }

  predicate IsCanonical(fs: FileSystem, p: Path) {
    Exists(fs, p) && Canonicalize(fs, p) == p
  }

  /** The two facts about canonicalisation the model relies on:
      the canonical form of an existing path exists and is its own canonical form,
      and the parent of a canonical path is canonical. */
  predicate Valid(fs: FileSystem) {
    && (forall p | p in fs.resolved :: IsCanonical(fs, fs.resolved[p]))
    && (forall p | p in fs.resolved && IsCanonical(fs, p) && p != [] :: IsCanonical(fs, p[..|p| - 1]))
  }

  /** Every ancestor of a canonical path is canonical, and hence exists. */
  lemma {:induction false} AncestorOfCanonicalIsCanonical(fs: FileSystem, c: Path, a: Path)
    requires Valid(fs)
    requires IsCanonical(fs, c)
    requires a <= c
    ensures IsCanonical(fs, a)
    decreases |c|
  {
    if a != c {
      var parent := c[..|c| - 1];
      assert IsCanonical(fs, parent);
      assert a <= parent;
      AncestorOfCanonicalIsCanonical(fs, parent, a);
    }
  }
}
