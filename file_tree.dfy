/**
  The file system the extractor works on, as a value.

  A path is the list of its components, so `out + [name]` is the folder `name`
  inside `out`.  The tree records the regular files (text and permission bits)
  and the set of existing directories.  The operations below are the effects of
  `os.makedirs`, `open(p, 'w')`, `os.chmod` and `shutil.move` when they succeed;
  whether they succeed is decided by the caller (see module Extractor).
 */
module FileTree {

  type Path = seq<string>

  /** A regular file: its text and its permission bits (384 is 0o600). */
  datatype FileData = FileData(text: string, mode: nat)

  datatype Tree = Tree(files: map<Path, FileData>, dirs: set<Path>)

  /** Owner read and write only: 0o600. */
  const OwnerOnly: nat := 384

  /** `p` is `root` itself or lies somewhere below it. */
  predicate Under(p: Path, root: Path)
  {
    root <= p
  }

  /** The non-empty prefixes of `p`: the directories `os.makedirs(p)` ensures exist. */
  function Lineage(p: Path): (r: set<Path>)
    ensures p != [] ==> p in r
  {
    assert p != [] ==> p == p[..|p|];
    set k | 1 <= k <= |p| :: p[..k]
  }

  /** The directory a file lives in. */
  function Parent(p: Path): Path
    requires p != []
  {
    p[..|p| - 1]
  }

  /**
    Every file sits in an existing directory, and every directory's ancestors
    exist: what any real file system guarantees.
   */
  ghost predicate Valid(t: Tree)
  {
    && (forall p | p in t.files :: p != [] && Lineage(Parent(p)) <= t.dirs)
    && (forall d | d in t.dirs :: Lineage(d) <= t.dirs)
  }

  /** `t` and `t'` agree on the file at `p`: both lack it, or both hold the same data. */
  ghost predicate Same(t: Tree, t': Tree, p: Path)
  {
    && (p in t.files <==> p in t'.files)
    && (p in t.files ==> t'.files[p] == t.files[p])
  }

  /** `p` holds exactly `text` in `t`. */
  ghost predicate Holds(t: Tree, p: Path, text: string)
  {
    p in t.files && t.files[p].text == text
  }

  /** `os.makedirs(p, exist_ok=True)`. */
  function MakeDirs(t: Tree, p: Path): Tree
  {
    t.(dirs := t.dirs + Lineage(p))
  }

  /** The file `open(p, 'w')` leaves: created with `newMode`, or truncated keeping its mode. */
  function Written(t: Tree, p: Path, text: string, newMode: nat): Tree
  {
    var mode := if p in t.files then t.files[p].mode else newMode;
    t.(files := t.files[p := FileData(text, mode)])
  }

  /** `os.chmod(p, mode)` on an existing file. */
  function Chmod(t: Tree, p: Path, mode: nat): Tree
  {
    if p in t.files then t.(files := t.files[p := t.files[p].(mode := mode)]) else t
  }

  /** `shutil.move(src, dst)` within one file system: a rename that replaces `dst`. */
  function Moved(t: Tree, src: Path, dst: Path): Tree
    requires src in t.files
  {
    t.(files := (t.files - {src})[dst := t.files[src]])
  }

  lemma LineageOfPrefix(p: Path, k: nat)
    requires k <= |p|
    ensures Lineage(p[..k]) <= Lineage(p)
  {
    forall d | d in Lineage(p[..k]) ensures d in Lineage(p) {
      var j :| 1 <= j <= k && d == p[..k][..j];
      assert d == p[..j];
    }
  }

  lemma LineageOfChild(p: Path, c: string)
    ensures Lineage(p + [c]) == Lineage(p) + {p + [c]}
  {
    var q := p + [c];
    assert q[..|q|] == q;
    forall d | d in Lineage(p) ensures d in Lineage(q) {
      var j :| 1 <= j <= |p| && d == p[..j];
      assert d == q[..j];
    }
    forall d | d in Lineage(q) ensures d in Lineage(p) + {q} {
      var j :| 1 <= j <= |q| && d == q[..j];
      if j <= |p| { assert d == p[..j]; }
    }
  }

  lemma ValidMakeDirs(t: Tree, p: Path)
    requires Valid(t)
    ensures Valid(MakeDirs(t, p)) && Lineage(p) <= MakeDirs(t, p).dirs
  {
    var t' := MakeDirs(t, p);
    forall d | d in t'.dirs ensures Lineage(d) <= t'.dirs {
      if d !in t.dirs {
        var k :| 1 <= k <= |p| && d == p[..k];
        LineageOfPrefix(p, k);
      }
    }
  }

  lemma ValidWritten(t: Tree, p: Path, text: string, newMode: nat)
    requires Valid(t) && p != [] && Lineage(Parent(p)) <= t.dirs
    ensures Valid(Written(t, p, text, newMode))
  {
  }

  lemma ValidChmod(t: Tree, p: Path, mode: nat)
    requires Valid(t)
    ensures Valid(Chmod(t, p, mode))
  {
  }

  lemma ValidMoved(t: Tree, src: Path, dst: Path)
    requires Valid(t) && src in t.files && dst != [] && Lineage(Parent(dst)) <= t.dirs
    ensures Valid(Moved(t, src, dst))
  {
  }
}
