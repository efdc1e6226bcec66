/**
  The record loop of `extract_certificates` (extractor.py:46-149) over the file
  tree of module FileTree.

  Every operation that can raise in the source (`os.makedirs`, the reads of the
  skip guard, `shutil.move`, `open(..., 'w')`, `os.chmod`) is decided by an
  environment value given per record: the model covers every combination of
  failures.  The clock becomes one timestamp per output file name, and the
  mode a newly created file gets (0o666 less the process umask) is given too.
 */
module Extractor {
  import opened Wrappers
  import opened FileTree
  import opened AcmeStore
  import opened SkipGuard

  const ArchiveName := "archive"

  /** The output files, in the order the archive loop visits them (extractor.py:99). */
  const OutputNames: seq<string> := [CertName, KeyName, CombinedName]

  /** The `-a` and `-s` switches. */
  datatype Config = Config(archiveOld: bool, skipExisting: bool)

  /**
    How a write of one file ends.  `OpenFails`: `open` raises, the file is
    untouched.  `Interrupted(k)`: the file was opened (created or truncated)
    and only its first `k` characters reached it before the error.
   */
  datatype WriteFault = NoFault | OpenFails | Interrupted(written: nat)

  /** Which operations of one record raise. */
  datatype Faults = Faults(
    folder: bool,           // os.makedirs(domain_folder), extractor.py:83
    read: bool,             // reading the existing files, extractor.py:17-20
    archiveFolder: bool,    // os.makedirs(archive_folder), extractor.py:98
    move: set<nat>,         // indices into OutputNames whose shutil.move raises, extractor.py:105
    cert: WriteFault,       // extractor.py:112-113
    key: WriteFault,        // extractor.py:120-121
    combined: WriteFault,   // extractor.py:128-130
    chmodKey: bool,         // extractor.py:137
    chmodCombined: bool)    // extractor.py:138

  /**
    The environment of one record: its failures, the timestamp read when
    output file `i` is archived, and the mode of a newly created file.
   */
  datatype Env = Env(faults: Faults, stamp: nat -> string, newMode: nat)

  /** How one record ends; each value stands for the diagnostic the source prints, if any. */
  datatype Status =
    | Aborted                 // KeyError at extractor.py:67: the run ends
    | Discarded(reason: Rejection)  // passed over before any file is touched
    | FolderFailed            // extractor.py:83 raised
    | Unchanged               // skipped by the skip guard, extractor.py:91-93
    | ArchiveFolderFailed     // extractor.py:98 raised
    | CertFailed              // extractor.py:114-116
    | KeyFailed               // extractor.py:122-124
    | CombinedFailed          // extractor.py:131-133
    | PermissionFailed        // extractor.py:139-141
    | Extracted               // extractor.py:143

  /** The record reached the writes of extractor.py:110-143. */
  predicate Wrote(s: Status)
  {
    s.CertFailed? || s.KeyFailed? || s.CombinedFailed? || s.PermissionFailed? || s.Extracted?
  }

  function OutputPath(folder: Path, i: nat): Path
    requires i < 3
  {
    folder + [OutputNames[i]]
  }

  /** `archive/<name>_<timestamp>` inside `folder`. */
  function ArchivePath(folder: Path, i: nat, stamp: string): Path
    requires i < 3
  {
    folder + [ArchiveName, OutputNames[i] + "_" + stamp]
  }

  /** The outputs in `t` that the archive loop moves away: present, and their move does not raise. */
  ghost function Moves(t: Tree, folder: Path, env: Env): set<nat>
  {
    set i | 0 <= i < 3 && OutputPath(folder, i) in t.files && i !in env.faults.move
  }

  /** Where the moved outputs among the first `n` end up. */
  ghost function MovedTargets(t: Tree, folder: Path, env: Env, n: nat): set<Path>
    requires n <= 3
  {
    set i | 0 <= i < n && i in Moves(t, folder, env) :: ArchivePath(folder, i, env.stamp(i))
  }

  ghost function OutputPaths(folder: Path): set<Path>
  {
    {folder + [CertName], folder + [KeyName], folder + [CombinedName]}
  }

  lemma ArchivePathsDistinct(folder: Path, i: nat, j: nat, s: string, u: string)
    requires i < 3 && j < 3
    ensures ArchivePath(folder, i, s) !in OutputPaths(folder)
    ensures i != j ==> ArchivePath(folder, i, s) != ArchivePath(folder, j, u)
  {
    var n := |folder|;
    if i != j {
      var a, b := ArchivePath(folder, i, s), ArchivePath(folder, j, u);
      assert a[n + 1] == OutputNames[i] + "_" + s && b[n + 1] == OutputNames[j] + "_" + u;
      assert a[n + 1][..2] == OutputNames[i][..2] && b[n + 1][..2] == OutputNames[j][..2];
      assert OutputNames[0][..2] == "ce" && OutputNames[1][..2] == "pr" && OutputNames[2][..2] == "co";
    }
  }

  /** What archiving did to output `i`: moved into `archive/` intact, or left where it was. */
  ghost predicate ArchivedOutput(t: Tree, t': Tree, folder: Path, env: Env, i: nat)
    requires i < 3
  {
    var src, dst := OutputPath(folder, i), ArchivePath(folder, i, env.stamp(i));
    if i in Moves(t, folder, env) then
      src !in t'.files && dst in t'.files && t'.files[dst] == t.files[src]
    else
      Same(t, t', src)
  }

  /** The archive step (extractor.py:99-108) took `t` to `t'`. */
  ghost predicate ArchivedFrom(t: Tree, t': Tree, folder: Path, env: Env)
  {
    && (forall i | 0 <= i < 3 :: ArchivedOutput(t, t', folder, env, i))
    && (forall p | p !in OutputPaths(folder) && p !in MovedTargets(t, folder, env, 3) :: Same(t, t', p))
  }

  /**
    The archive loop: each output that exists is moved to `archive/`, stamped
    with its own timestamp; a move that raises leaves that file in place and
    the loop goes on.
   */
  method ArchiveOutputs(t: Tree, folder: Path, env: Env) returns (t': Tree)
    requires Valid(t) && Lineage(folder + [ArchiveName]) <= t.dirs
    ensures Valid(t') && t'.dirs == t.dirs
    ensures ArchivedFrom(t, t', folder, env)
  {
    t' := t;
    assert Parent(ArchivePath(folder, 0, "")) == folder + [ArchiveName];
    for i := 0 to 3
      invariant Valid(t') && t'.dirs == t.dirs
      invariant forall j | 0 <= j < i :: ArchivedOutput(t, t', folder, env, j)
      invariant forall j | i <= j < 3 :: Same(t, t', OutputPath(folder, j))
      invariant forall p | p !in OutputPaths(folder) && p !in MovedTargets(t, folder, env, i) :: Same(t, t', p)
    {
      var src := OutputPath(folder, i);
      var before := t';
      assert i in Moves(t, folder, env) <==> src in before.files && i !in env.faults.move;
      if src in before.files && i !in env.faults.move {
        var dst := ArchivePath(folder, i, env.stamp(i));
        assert Parent(dst) == folder + [ArchiveName];
        forall j | 0 <= j < 3
          ensures dst != OutputPath(folder, j) && ArchivePath(folder, j, env.stamp(j)) != src
          ensures j != i ==> dst != ArchivePath(folder, j, env.stamp(j)) && OutputPath(folder, j) != src
        {
          assert OutputPath(folder, j)[|folder|] == OutputNames[j] && src[|folder|] == OutputNames[i];
          ArchivePathsDistinct(folder, i, j, env.stamp(i), env.stamp(j));
          ArchivePathsDistinct(folder, j, i, env.stamp(j), env.stamp(i));
        }
        OutputPathsDistinct(folder);
        ValidMoved(before, src, dst);
        t' := Moved(before, src, dst);
        forall j | 0 <= j < i ensures ArchivedOutput(t, t', folder, env, j) {
          assert ArchivedOutput(t, before, folder, env, j);
        }
        assert MovedTargets(t, folder, env, i + 1) == MovedTargets(t, folder, env, i) + {dst};
      } else {
        assert MovedTargets(t, folder, env, i + 1) == MovedTargets(t, folder, env, i);
      }
    }
  }

  /** The mode `open(p, 'w')` leaves on `p`: the old one if the file exists, else `newMode`. */
  function ModeAfterOpen(t: Tree, p: Path, newMode: nat): nat
  {
    if p in t.files then t.files[p].mode else newMode
  }

  /** One write of extractor.py:110-133, ending as `fault` says. */
  function WriteFile(t: Tree, p: Path, text: string, newMode: nat, fault: WriteFault): (r: Tree)
    ensures r.dirs == t.dirs
    ensures forall q | q != p :: Same(t, r, q)
    ensures fault.NoFault? ==> Holds(r, p, text) && r.files[p].mode == ModeAfterOpen(t, p, newMode)
    ensures fault.OpenFails? ==> Same(t, r, p)
    ensures fault.Interrupted? ==> p in r.files && r.files[p].text <= text && r.files[p].mode == ModeAfterOpen(t, p, newMode)
    ensures Valid(t) && p != [] && Lineage(Parent(p)) <= t.dirs ==> Valid(r)
  {
    match fault
    case NoFault =>
      ValidWrittenIfPossible(t, p, text, newMode);
      Written(t, p, text, newMode)
    case OpenFails => t
    case Interrupted(k) =>
      var kept := text[..if k < |text| then k else |text|];
      ValidWrittenIfPossible(t, p, kept, newMode);
      Written(t, p, kept, newMode)
  }

  lemma ValidWrittenIfPossible(t: Tree, p: Path, text: string, newMode: nat)
    ensures Valid(t) && p != [] && Lineage(Parent(p)) <= t.dirs ==> Valid(Written(t, p, text, newMode))
  {
    if Valid(t) && p != [] && Lineage(Parent(p)) <= t.dirs {
      ValidWritten(t, p, text, newMode);
    }
  }

  /** A failed write left `p` as it was, or holding a prefix of `text` with the mode `open` gave it. */
  ghost predicate FailedWrite(t: Tree, t': Tree, p: Path, text: string, newMode: nat)
  {
    || Same(t, t', p)
    || (p in t'.files && t'.files[p].text <= text && t'.files[p].mode == ModeAfterOpen(t, p, newMode))
  }

  /** `p` holds `text` with the mode `open` gave it. */
  ghost predicate Fresh(t: Tree, t': Tree, p: Path, text: string, newMode: nat)
  {
    Holds(t', p, text) && t'.files[p].mode == ModeAfterOpen(t, p, newMode)
  }

  /**
    The three writes of extractor.py:110-133.  `done` counts the files written
    in full before the first failure, which ends the record.
   */
  method WriteFiles(t: Tree, folder: Path, cert: string, key: string, env: Env) returns (t': Tree, done: nat)
    requires Valid(t) && Lineage(folder) <= t.dirs
    ensures Valid(t') && t'.dirs == t.dirs
    ensures forall p | p !in OutputPaths(folder) :: Same(t, t', p)
    ensures done <= 3
    ensures done == 0 <==> env.faults.cert != NoFault
    ensures done == 1 <==> env.faults.cert == NoFault && env.faults.key != NoFault
    ensures done == 3 <==> env.faults.cert == NoFault && env.faults.key == NoFault && env.faults.combined == NoFault
    ensures done == 0 ==> FailedWrite(t, t', folder + [CertName], cert, env.newMode)
    ensures done >= 1 ==> Fresh(t, t', folder + [CertName], cert, env.newMode)
    ensures done == 1 ==> FailedWrite(t, t', folder + [KeyName], key, env.newMode)
    ensures done >= 2 ==> Fresh(t, t', folder + [KeyName], key, env.newMode)
    ensures done == 2 ==> FailedWrite(t, t', folder + [CombinedName], cert + key, env.newMode)
    ensures done == 3 ==> Fresh(t, t', folder + [CombinedName], cert + key, env.newMode)
    ensures done < 1 ==> Same(t, t', folder + [KeyName])
    ensures done < 2 ==> Same(t, t', folder + [CombinedName])
  {
    var f := env.faults;
    var certFile, keyFile, combinedFile := folder + [CertName], folder + [KeyName], folder + [CombinedName];
    OutputPathsDistinct(folder);
    assert Parent(certFile) == folder && Parent(keyFile) == folder && Parent(combinedFile) == folder;

    var t1 := WriteFile(t, certFile, cert, env.newMode, f.cert);
    if f.cert != NoFault {
      return t1, 0;
    }
    var t2 := WriteFile(t1, keyFile, key, env.newMode, f.key);
    assert Same(t1, t2, certFile) && Same(t, t1, keyFile);
    forall p | p !in OutputPaths(folder) ensures Same(t, t2, p) {
      assert Same(t, t1, p) && Same(t1, t2, p);
    }
    if f.key != NoFault {
      assert Same(t, t1, combinedFile) && Same(t1, t2, combinedFile);
      return t2, 1;
    }
    var t3 := WriteFile(t2, combinedFile, cert + key, env.newMode, f.combined);
    assert Same(t2, t3, certFile) && Same(t2, t3, keyFile);
    assert Same(t, t1, combinedFile) && Same(t1, t2, combinedFile);
    forall p | p !in OutputPaths(folder) ensures Same(t, t3, p) {
      assert Same(t, t2, p) && Same(t2, t3, p);
    }
    t' := t3;
    done := if f.combined != NoFault then 2 else 3;
  }

  /**
    The two `os.chmod` calls of extractor.py:136-141; the first failure ends the
    record.
   */
  method RestrictModes(t: Tree, folder: Path, env: Env) returns (t': Tree, ok: bool)
    requires Valid(t) && folder + [KeyName] in t.files && folder + [CombinedName] in t.files
    ensures Valid(t') && t'.dirs == t.dirs
    ensures ok <==> !env.faults.chmodKey && !env.faults.chmodCombined
    ensures forall p | p != folder + [KeyName] && p != folder + [CombinedName] :: Same(t, t', p)
    ensures t'.files.Keys == t.files.Keys
    ensures t'.files[folder + [KeyName]] ==
      if env.faults.chmodKey then t.files[folder + [KeyName]]
      else t.files[folder + [KeyName]].(mode := OwnerOnly)
    ensures t'.files[folder + [CombinedName]] ==
      if !ok then t.files[folder + [CombinedName]]
      else t.files[folder + [CombinedName]].(mode := OwnerOnly)
  {
    var keyFile, combinedFile := folder + [KeyName], folder + [CombinedName];
    OutputPathsDistinct(folder);
    if env.faults.chmodKey {
      return t, false;
    }
    ValidChmod(t, keyFile, OwnerOnly);
    t' := Chmod(t, keyFile, OwnerOnly);
    if env.faults.chmodCombined {
      return t', false;
    }
    ValidChmod(t', combinedFile, OwnerOnly);
    t' := Chmod(t', combinedFile, OwnerOnly);
    ok := true;
  }

  /**
    The writes and permission changes of extractor.py:110-143, from the tree
    the archive step left.  The first failing step ends the record; what was
    written stays, what comes later is not touched.
   */
  method WriteOutputs(t: Tree, folder: Path, cert: string, key: string, env: Env) returns (t': Tree, status: Status)
    requires Valid(t) && Lineage(folder) <= t.dirs
    ensures Valid(t') && t'.dirs == t.dirs
    ensures forall p | p !in OutputPaths(folder) :: Same(t, t', p)
    ensures Wrote(status)
    ensures status == CertFailed <==> env.faults.cert != NoFault
    ensures status == KeyFailed <==> env.faults.cert == NoFault && env.faults.key != NoFault
    ensures status == CombinedFailed <==>
      env.faults.cert == NoFault && env.faults.key == NoFault && env.faults.combined != NoFault
    ensures status == Extracted <==>
      && env.faults.cert == NoFault && env.faults.key == NoFault && env.faults.combined == NoFault
      && !env.faults.chmodKey && !env.faults.chmodCombined
    // certificate.pem: written first, never chmod-ed
    ensures status == CertFailed ==> FailedWrite(t, t', folder + [CertName], cert, env.newMode)
    ensures status != CertFailed ==> Fresh(t, t', folder + [CertName], cert, env.newMode)
    // private_key.pem
    ensures status == CertFailed ==> Same(t, t', folder + [KeyName])
    ensures status == KeyFailed ==> FailedWrite(t, t', folder + [KeyName], key, env.newMode)
    ensures status == CombinedFailed || (status == PermissionFailed && env.faults.chmodKey) ==>
      Fresh(t, t', folder + [KeyName], key, env.newMode)
    ensures (status == PermissionFailed && !env.faults.chmodKey) || status == Extracted ==>
      Holds(t', folder + [KeyName], key) && t'.files[folder + [KeyName]].mode == OwnerOnly
    // combined.pem: the certificate followed by the key, nothing added
    ensures status == CertFailed || status == KeyFailed ==> Same(t, t', folder + [CombinedName])
    ensures status == CombinedFailed ==> FailedWrite(t, t', folder + [CombinedName], cert + key, env.newMode)
    ensures status == PermissionFailed ==> Fresh(t, t', folder + [CombinedName], cert + key, env.newMode)
    ensures status == Extracted ==>
      Holds(t', folder + [CombinedName], cert + key) && t'.files[folder + [CombinedName]].mode == OwnerOnly
  {
    var done;
    t', done := WriteFiles(t, folder, cert, key, env);
    if done < 3 {
      status := if done == 0 then CertFailed else if done == 1 then KeyFailed else CombinedFailed;
      return;
    }
    var written := t';
    var ok;
    var certFile, keyFile, combinedFile := folder + [CertName], folder + [KeyName], folder + [CombinedName];
    OutputPathsDistinct(folder);
    t', ok := RestrictModes(written, folder, env);
    assert Same(written, t', certFile);
    forall p | p !in OutputPaths(folder) ensures Same(t, t', p) {
      assert Same(t, written, p) && Same(written, t', p);
    }
    status := if ok then Extracted else PermissionFailed;
  }

  /** With `-a`, output `i` is moved into `archive/` before the writes. */
  ghost predicate Archived(t: Tree, folder: Path, cfg: Config, env: Env, i: nat)
  {
    cfg.archiveOld && i in Moves(t, folder, env)
  }

  /** The archive files a record may create or replace. */
  ghost function ArchiveTargets(t: Tree, folder: Path, cfg: Config, env: Env): set<Path>
  {
    if cfg.archiveOld then MovedTargets(t, folder, env, 3) else {}
  }

  /** Output `i` is as it was before the writes: moved away if archived, else as in `t`. */
  ghost predicate KeepsPrior(t: Tree, t': Tree, folder: Path, cfg: Config, env: Env, i: nat)
    requires i < 3
  {
    if Archived(t, folder, cfg, env, i) then OutputPath(folder, i) !in t'.files
    else Same(t, t', OutputPath(folder, i))
  }

  /** The mode output `i` has once written: the mode of the file it overwrites, or the new-file mode. */
  ghost function ModeBefore(t: Tree, folder: Path, cfg: Config, env: Env, i: nat): nat
    requires i < 3
  {
    if Archived(t, folder, cfg, env, i) then env.newMode
    else ModeAfterOpen(t, OutputPath(folder, i), env.newMode)
  }

  /** Output `i` holds `text` in full, with the mode its write gave it. */
  ghost predicate NewOutput(t: Tree, t': Tree, folder: Path, cfg: Config, env: Env, i: nat, text: string)
    requires i < 3
  {
    Holds(t', OutputPath(folder, i), text) && t'.files[OutputPath(folder, i)].mode == ModeBefore(t, folder, cfg, env, i)
  }

  /** The write of output `i` failed: the file is as before, or holds a prefix of `text`. */
  ghost predicate FailedOutput(t: Tree, t': Tree, folder: Path, cfg: Config, env: Env, i: nat, text: string)
    requires i < 3
  {
    var p := OutputPath(folder, i);
    || KeepsPrior(t, t', folder, cfg, env, i)
    || (p in t'.files && t'.files[p].text <= text && t'.files[p].mode == ModeBefore(t, folder, cfg, env, i))
  }

  /** What the archive step leaves of each output, seen from the tree before the record. */
  lemma StagedOutputs(t: Tree, staged: Tree, folder: Path, cfg: Config, env: Env)
    requires cfg.archiveOld ==> ArchivedFrom(t, staged, folder, env)
    requires !cfg.archiveOld ==> staged.files == t.files
    ensures forall i | 0 <= i < 3 ::
      && (Archived(t, folder, cfg, env, i) ==> OutputPath(folder, i) !in staged.files)
      && (!Archived(t, folder, cfg, env, i) ==> Same(t, staged, OutputPath(folder, i)))
      && ModeAfterOpen(staged, OutputPath(folder, i), env.newMode) == ModeBefore(t, folder, cfg, env, i)
  {
    forall i | 0 <= i < 3
      ensures && (Archived(t, folder, cfg, env, i) ==> OutputPath(folder, i) !in staged.files)
              && (!Archived(t, folder, cfg, env, i) ==> Same(t, staged, OutputPath(folder, i)))
              && ModeAfterOpen(staged, OutputPath(folder, i), env.newMode) == ModeBefore(t, folder, cfg, env, i)
    {
      if cfg.archiveOld {
        assert ArchivedOutput(t, staged, folder, env, i);
      }
    }
  }

  /** The directories and files a domain folder's work may change: its own outputs and archive files. */
  ghost predicate DomainFrame(t: Tree, t': Tree, folder: Path, cfg: Config, env: Env)
  {
    // only the folder, and with -a its archive/ subfolder, may be created
    && t.dirs <= t'.dirs <= t.dirs + Lineage(folder + [ArchiveName])
    && (!cfg.archiveOld ==> t'.dirs <= t.dirs + Lineage(folder))
    && (forall p | p !in OutputPaths(folder) && p !in ArchiveTargets(t, folder, cfg, env) :: Same(t, t', p))
  }

  /** Where the work on a domain folder stops, decided by the failures of `env` and the switches. */
  ghost predicate DomainStops(t: Tree, t': Tree, folder: Path, cert: string, key: string, cfg: Config, env: Env,
                              status: Status)
  {
    && (status == FolderFailed <==> env.faults.folder)
    && (status == Unchanged <==>
          !env.faults.folder && cfg.skipExisting && Compare(t, folder, cert, key, env.faults.read))
    && (status == ArchiveFolderFailed <==>
          && !env.faults.folder && !(cfg.skipExisting && Compare(t, folder, cert, key, env.faults.read))
          && cfg.archiveOld && env.faults.archiveFolder)
    && (status == FolderFailed || status == Unchanged ==> t' == t)
    && (status == ArchiveFolderFailed ==> t' == MakeDirs(t, folder))
    && (Wrote(status) || status.FolderFailed? || status.Unchanged? || status.ArchiveFolderFailed?)
    // the writes, in order; the first failure ends the record
    && (status == CertFailed <==> Wrote(status) && env.faults.cert != NoFault)
    && (status == KeyFailed <==> Wrote(status) && env.faults.cert == NoFault && env.faults.key != NoFault)
    && (status == CombinedFailed <==>
          Wrote(status) && env.faults.cert == NoFault && env.faults.key == NoFault && env.faults.combined != NoFault)
    && (status == Extracted <==>
          && Wrote(status) && env.faults.cert == NoFault && env.faults.key == NoFault && env.faults.combined == NoFault
          && !env.faults.chmodKey && !env.faults.chmodCombined)
  }

  /** Once the writes start, the folder (and with `-a` its `archive/`) exists and every moved output is kept intact. */
  ghost predicate DomainArchived(t: Tree, t': Tree, folder: Path, cfg: Config, env: Env, status: Status)
  {
    && (Wrote(status) ==> Lineage(folder) <= t'.dirs)
    && (Wrote(status) && cfg.archiveOld ==> Lineage(folder + [ArchiveName]) <= t'.dirs)
    && (Wrote(status) ==> forall i | 0 <= i < 3 && Archived(t, folder, cfg, env, i) ::
          var dst := ArchivePath(folder, i, env.stamp(i));
          dst in t'.files && t'.files[dst] == t.files[OutputPath(folder, i)])
  }

  /** The three output files after the writes: new, failed or as before, as the status says. */
  ghost predicate DomainOutputs(t: Tree, t': Tree, folder: Path, cert: string, key: string, cfg: Config, env: Env,
                                status: Status)
  {
    && (status == CertFailed ==>
          && FailedOutput(t, t', folder, cfg, env, 0, cert)
          && KeepsPrior(t, t', folder, cfg, env, 1) && KeepsPrior(t, t', folder, cfg, env, 2))
    && (status == KeyFailed ==>
          && NewOutput(t, t', folder, cfg, env, 0, cert)
          && FailedOutput(t, t', folder, cfg, env, 1, key) && KeepsPrior(t, t', folder, cfg, env, 2))
    && (status == CombinedFailed ==>
          && NewOutput(t, t', folder, cfg, env, 0, cert) && NewOutput(t, t', folder, cfg, env, 1, key)
          && FailedOutput(t, t', folder, cfg, env, 2, cert + key))
    && (status == PermissionFailed ==>
          && NewOutput(t, t', folder, cfg, env, 0, cert) && NewOutput(t, t', folder, cfg, env, 2, cert + key)
          && Holds(t', folder + [KeyName], key)
          && t'.files[folder + [KeyName]].mode ==
               if env.faults.chmodKey then ModeBefore(t, folder, cfg, env, 1) else OwnerOnly)
    && (status == Extracted ==>
          && NewOutput(t, t', folder, cfg, env, 0, cert)
          && Holds(t', folder + [KeyName], key) && t'.files[folder + [KeyName]].mode == OwnerOnly
          && Holds(t', folder + [CombinedName], cert + key) && t'.files[folder + [CombinedName]].mode == OwnerOnly)
    // ... so a second pass with -s and a clean read leaves the folder alone
    && (status == Extracted ==> Holds(t', folder + [CertName], cert) && Compare(t', folder, cert, key, false))
  }

  /**
    What the work on one domain folder (extractor.py:83-143) does, from the
    tree `t` before the record to the tree `t'` after it.
   */
  ghost predicate DomainOutcome(t: Tree, t': Tree, folder: Path, cert: string, key: string, cfg: Config, env: Env,
                                status: Status)
  {
    && DomainFrame(t, t', folder, cfg, env)
    && DomainStops(t, t', folder, cert, key, cfg, env, status)
    && DomainArchived(t, t', folder, cfg, env, status)
    && DomainOutputs(t, t', folder, cert, key, cfg, env, status)
  }

  /**
    One domain folder, from `os.makedirs` to the increment (extractor.py:83-143):
    the skip guard, the optional archive step, the three writes and the two
    permission changes, each able to end the record.
   */
  method WriteDomain(t: Tree, folder: Path, cert: string, key: string, cfg: Config, env: Env)
    returns (t': Tree, status: Status)
    requires Valid(t)
    ensures Valid(t') && DomainFrame(t, t', folder, cfg, env)
    ensures DomainStops(t, t', folder, cert, key, cfg, env, status)
    ensures DomainArchived(t, t', folder, cfg, env, status)
    ensures DomainOutputs(t, t', folder, cert, key, cfg, env, status)
  {
    var f := env.faults;
    if f.folder {
      return t, FolderFailed;
    }
    ValidMakeDirs(t, folder);
    LineageOfChild(folder, ArchiveName);
    var made := MakeDirs(t, folder);
    if cfg.skipExisting && Compare(made, folder, cert, key, f.read) {
      // both files exist, so the folder and its ancestors already did
      assert Parent(folder + [CertName]) == folder;
      assert made == t;
      return made, Unchanged;
    }
    var staged := made;
    if cfg.archiveOld {
      if f.archiveFolder {
        return made, ArchiveFolderFailed;
      }
      var archiveFolder := folder + [ArchiveName];
      ValidMakeDirs(made, archiveFolder);
      var withArchive := MakeDirs(made, archiveFolder);
      assert Moves(withArchive, folder, env) == Moves(t, folder, env);
      assert MovedTargets(withArchive, folder, env, 3) == MovedTargets(t, folder, env, 3);
      staged := ArchiveOutputs(withArchive, folder, env);
      forall i | 0 <= i < 3 ensures ArchivedOutput(t, staged, folder, env, i) {
        assert ArchivedOutput(withArchive, staged, folder, env, i);
      }
    }
    StagedOutputs(t, staged, folder, cfg, env);
    OutputPathsDistinct(folder);
    assert OutputPath(folder, 0) == folder + [CertName];
    assert OutputPath(folder, 1) == folder + [KeyName];
    assert OutputPath(folder, 2) == folder + [CombinedName];
    t', status := WriteOutputs(staged, folder, cert, key, env);
    forall p | p !in OutputPaths(folder) && p !in ArchiveTargets(t, folder, cfg, env) ensures Same(t, t', p) {
      assert Same(staged, t', p);
      if cfg.archiveOld {
        assert ArchivedFrom(t, staged, folder, env);
      }
    }
    if cfg.archiveOld {
      forall i | 0 <= i < 3 && Archived(t, folder, cfg, env, i)
        ensures ArchivePath(folder, i, env.stamp(i)) in t'.files
        ensures t'.files[ArchivePath(folder, i, env.stamp(i))] == t.files[OutputPath(folder, i)]
      {
        ArchivePathsDistinct(folder, i, i, env.stamp(i), env.stamp(i));
        assert ArchivedOutput(t, staged, folder, env, i);
        assert Same(staged, t', ArchivePath(folder, i, env.stamp(i)));
      }
    }
  }

  /** Whatever a record may touch lies below its folder, hence below the output directory. */
  lemma TouchedUnder(t: Tree, out: Path, name: string, cfg: Config, env: Env, p: Path)
    requires !Under(p, out)
    ensures p !in OutputPaths(out + [name]) && p !in ArchiveTargets(t, out + [name], cfg, env)
  {
    var folder := out + [name];
    assert forall q :: q in OutputPaths(folder) ==> folder <= q;
  }

  /** The directories a record may create: the output directory's lineage, its folder and `archive/`. */
  lemma CreatedUnder(out: Path, name: string, d: Path)
    requires d in Lineage(out + [name] + [ArchiveName])
    ensures d in Lineage(out) || (Under(d, out) && d != out)
  {
    LineageOfChild(out, name);
    LineageOfChild(out + [name], ArchiveName);
  }

  /** The work on a folder of the output directory changes nothing outside it, and creates only its directories. */
  lemma FramedUnder(t: Tree, t': Tree, out: Path, name: string, cfg: Config, env: Env)
    requires DomainFrame(t, t', out + [name], cfg, env)
    ensures forall p | !Under(p, out) :: Same(t, t', p)
    ensures forall d | d in t'.dirs && d !in t.dirs :: d in Lineage(out) || (Under(d, out) && d != out)
  {
    forall p | !Under(p, out) ensures Same(t, t', p) {
      TouchedUnder(t, out, name, cfg, env, p);
    }
    forall d | d in t'.dirs && d !in t.dirs ensures d in Lineage(out) || (Under(d, out) && d != out) {
      CreatedUnder(out, name, d);
    }
  }

  /** The folder a prepared record writes to: `<output_dir>/<sanitized domain>`. */
  function DomainFolder(out: Path, p: Prepared): Path
    requires p.Ready?
  {
    out + [p.folder]
  }

  /** The logged outcome of a record matches what its pure steps decide. */
  ghost predicate Agrees(s: Status, e: CertEntry, decode: string -> Option<string>)
  {
    && (s == Aborted <==> Prepare(e, decode).Abort?)
    && (s.Discarded? <==> Prepare(e, decode).Rejected?)
    && (s.Discarded? ==> s.reason == Prepare(e, decode).reason)
    && (s == Extracted ==> Prepare(e, decode).Ready?)
  }

  /**
    What one iteration of the record loop does, from `t` to `t'`: the pure
    steps decide the status of a record that is not ready, and such a record
    changes nothing; a ready record's folder work is a DomainOutcome in its
    `*`-free folder.
   */
  ghost predicate RecordOutcome(t: Tree, t': Tree, out: Path, e: CertEntry, cfg: Config,
                                decode: string -> Option<string>, env: Env, status: Status)
  {
    && Agrees(status, e, decode)
    && (!Prepare(e, decode).Ready? ==> t' == t)
    && (Prepare(e, decode).Ready? ==>
          var p := Prepare(e, decode);
          DomainOutcome(t, t', DomainFolder(out, p), p.cert, p.key, cfg, env, status))
  }

  /**
    One iteration of the record loop (extractor.py:58-146): the pure steps of
    Prepare, then the folder work of WriteDomain.  Nothing outside the output
    directory changes, and no directory other than the output directory's
    ancestors or a directory below it is created.
   */
  method ProcessRecord(t: Tree, out: Path, e: CertEntry, cfg: Config, decode: string -> Option<string>, env: Env)
    returns (t': Tree, status: Status)
    requires Valid(t)
    ensures Valid(t') && t.dirs <= t'.dirs
    ensures forall d | d in t'.dirs && d !in t.dirs :: d in Lineage(out) || (Under(d, out) && d != out)
    ensures forall p | !Under(p, out) :: Same(t, t', p)
    ensures RecordOutcome(t, t', out, e, cfg, decode, env, status)
  {
    var prepared := Prepare(e, decode);
    match prepared
    case Abort =>
      return t, Aborted;
    case Rejected(reason) =>
      return t, Discarded(reason);
    case Ready(name, cert, key) =>
      var folder := out + [name];
      t', status := WriteDomain(t, folder, cert, key, cfg, env);
      assert DomainFolder(out, prepared) == folder;
      assert DomainOutcome(t, t', folder, cert, key, cfg, env, status);
      FramedUnder(t, t', out, name, cfg, env);
  }

  /**
    A record that was just extracted is skipped when processed again with `-s`,
    and nothing changes.  For texts without a carriage return, the text-mode
    comparison extractor.py:17-22 performs agrees that the folder matches.
   */
  method ExtractTwice(t: Tree, out: Path, e: CertEntry, cfg: Config, decode: string -> Option<string>, first: Env, second: Env)
    returns (t1: Tree, s1: Status, t2: Tree, s2: Status)
    requires Valid(t) && cfg.skipExisting && !second.faults.folder && !second.faults.read
    ensures s1 == Extracted ==> s2 == Unchanged && t2 == t1
    ensures Prepare(e, decode).Ready? && s1 == Extracted && '\r' !in Prepare(e, decode).cert && '\r' !in Prepare(e, decode).key ==>
      CompareAsWritten(t1, DomainFolder(out, Prepare(e, decode)), Prepare(e, decode).cert, Prepare(e, decode).key, false)
  {
    t1, s1 := ProcessRecord(t, out, e, cfg, decode, first);
    t2, s2 := ProcessRecord(t1, out, e, cfg, decode, second);
    var p := Prepare(e, decode);
    if p.Ready? && s1 == Extracted && '\r' !in p.cert && '\r' !in p.key {
      var folder := DomainFolder(out, p);
      assert Holds(t1, folder + [CertName], p.cert) && Holds(t1, folder + [KeyName], p.key);
      CompareAsWrittenAgrees(t1, folder, p.cert, p.key, false);
    }
  }

  /** The number of records in `log` that were extracted in full. */
  function CountExtracted(log: seq<Status>): (n: nat)
    ensures n <= |log|
    ensures n == |log| ==> forall i | 0 <= i < |log| :: log[i] == Extracted
  {
    if log == [] then 0
    else CountExtracted(log[..|log| - 1]) + (if log[|log| - 1] == Extracted then 1 else 0)
  }

  /** Record `i` of the run took `trees[i]` to `trees[i + 1]`, with the failures of `env(i)`, and was logged as `log[i]`. */
  ghost predicate RecordStep(trees: seq<Tree>, log: seq<Status>, out: Path, certificates: seq<CertEntry>, cfg: Config,
                             decode: string -> Option<string>, env: nat -> Env, i: nat)
  {
    && i < |log| && i + 1 < |trees| && i < |certificates|
    && RecordOutcome(trees[i], trees[i + 1], out, certificates[i], cfg, decode, env(i), log[i])
  }

  /** A chain of record steps, one record longer. */
  lemma ExtendTrace(trees: seq<Tree>, log: seq<Status>, t': Tree, status: Status, out: Path,
                    certificates: seq<CertEntry>, cfg: Config, decode: string -> Option<string>, env: nat -> Env)
    requires |trees| == |log| + 1 && |log| < |certificates|
    requires forall j | 0 <= j < |log| :: RecordStep(trees, log, out, certificates, cfg, decode, env, j)
    requires RecordOutcome(trees[|log|], t', out, certificates[|log|], cfg, decode, env(|log|), status)
    ensures forall j | 0 <= j < |log| + 1 :: RecordStep(trees + [t'], log + [status], out, certificates, cfg, decode, env, j)
  {
    forall j | 0 <= j < |log| + 1
      ensures RecordStep(trees + [t'], log + [status], out, certificates, cfg, decode, env, j)
    {
      if j < |log| {
        StepKept(trees, log, t', status, out, certificates, cfg, decode, env, j);
      } else {
        var trees', log' := trees + [t'], log + [status];
        assert log'[j] == status && trees'[j] == trees[|log|] && trees'[j + 1] == t';
      }
    }
  }

  /** A record step stays one when the run goes on. */
  lemma StepKept(trees: seq<Tree>, log: seq<Status>, t': Tree, status: Status, out: Path,
                 certificates: seq<CertEntry>, cfg: Config, decode: string -> Option<string>, env: nat -> Env, j: nat)
    requires RecordStep(trees, log, out, certificates, cfg, decode, env, j)
    ensures RecordStep(trees + [t'], log + [status], out, certificates, cfg, decode, env, j)
  {
    var trees', log' := trees + [t'], log + [status];
    assert log'[j] == log[j] && trees'[j] == trees[j] && trees'[j + 1] == trees[j + 1];
  }

  /** A record environment in which no operation raises. */
  predicate Clean(env: Env)
  {
    env.faults == Faults(false, false, false, {}, NoFault, NoFault, NoFault, false, false)
  }

  /** A ready record is extracted when nothing fails and `-s` is off. */
  lemma CleanRecordExtracted(t: Tree, t': Tree, out: Path, e: CertEntry, cfg: Config,
                             decode: string -> Option<string>, env: Env, status: Status)
    requires RecordOutcome(t, t', out, e, cfg, decode, env, status)
    requires Clean(env) && !cfg.skipExisting
    ensures status == Extracted <==> Prepare(e, decode).Ready?
  {
  }

  /** The number of records whose pure steps let them reach the folder work. */
  function ReadyCount(certificates: seq<CertEntry>, decode: string -> Option<string>): (n: nat)
    ensures n <= |certificates|
  {
    if certificates == [] then 0
    else
      var last := certificates[|certificates| - 1];
      ReadyCount(certificates[..|certificates| - 1], decode) + (if Prepare(last, decode).Ready? then 1 else 0)
  }

  /** When exactly the ready records are extracted, the count is the number of ready records. */
  lemma {:induction false} CountReady(log: seq<Status>, certificates: seq<CertEntry>, decode: string -> Option<string>)
    requires |log| <= |certificates|
    requires forall i | 0 <= i < |log| :: log[i] == Extracted <==> Prepare(certificates[i], decode).Ready?
    ensures CountExtracted(log) == ReadyCount(certificates[..|log|], decode)
  {
    if log != [] {
      var n := |log| - 1;
      assert certificates[..|log|][..n] == certificates[..n];
      assert certificates[..|log|][n] == certificates[n];
      CountReady(log[..n], certificates, decode);
    }
  }

  /**
    A run in which nothing fails and `-s` is off extracts exactly the records
    whose certificate and key decode and whose name is a string.
   */
  lemma CleanRunCount(trees: seq<Tree>, log: seq<Status>, out: Path, certificates: seq<CertEntry>, cfg: Config,
                      decode: string -> Option<string>, env: nat -> Env)
    requires |log| <= |certificates|
    requires forall i | 0 <= i < |log| :: RecordStep(trees, log, out, certificates, cfg, decode, env, i)
    requires !cfg.skipExisting && forall i | 0 <= i < |log| :: Clean(env(i))
    ensures CountExtracted(log) == ReadyCount(certificates[..|log|], decode)
    ensures |log| == |certificates| ==> CountExtracted(log) == ReadyCount(certificates, decode)
  {
    forall i | 0 <= i < |log| ensures log[i] == Extracted <==> Prepare(certificates[i], decode).Ready? {
      assert RecordStep(trees, log, out, certificates, cfg, decode, env, i);
      CleanRecordExtracted(trees[i], trees[i + 1], out, certificates[i], cfg, decode, env(i), log[i]);
    }
    CountReady(log, certificates, decode);
    assert certificates[..|certificates|] == certificates;
  }

  /** How a run ends: an uncaught exception, "No certificates found", or the summary line with its count. */
  datatype Report = Crashed | NoCertificates | Summary(count: nat)

  /**
    The `for` loop of extract_certificates (extractor.py:58-146) over a
    non-empty certificate list, from the tree in which the output directory
    exists.  `extracted` is `extracted_count`; the loop ends early only on
    the KeyError of extractor.py:67.
   */
  method ProcessRecords(t: Tree, out: Path, certificates: seq<CertEntry>, cfg: Config,
                        decode: string -> Option<string>, env: nat -> Env)
    returns (t': Tree, log: seq<Status>, extracted: nat, ghost trees: seq<Tree>)
    requires Valid(t) && Lineage(out) <= t.dirs
    ensures Valid(t') && t.dirs <= t'.dirs
    ensures forall p | !Under(p, out) :: Same(t, t', p)
    ensures forall d | d in t'.dirs && d !in t.dirs :: Under(d, out) && d != out
    // record i takes trees[i] to trees[i + 1] with the failures of env(i)
    ensures |log| <= |certificates| && |trees| == |log| + 1 && trees[0] == t && trees[|log|] == t'
    ensures forall i | 0 <= i < |log| :: RecordStep(trees, log, out, certificates, cfg, decode, env, i)
    ensures forall i | 0 <= i < |log| - 1 :: log[i] != Aborted
    ensures Aborted in log ==> log[|log| - 1] == Aborted
    ensures Aborted !in log ==> |log| == |certificates|
    ensures extracted == CountExtracted(log)
  {
    t', log, extracted, trees := t, [], 0, [t];
    var i := 0;
    while i < |certificates|
      invariant 0 <= i <= |certificates| && |log| == i
      invariant Valid(t') && t.dirs <= t'.dirs
      invariant forall p | !Under(p, out) :: Same(t, t', p)
      invariant forall d | d in t'.dirs && d !in t.dirs :: Under(d, out) && d != out
      invariant |trees| == i + 1 && trees[0] == t && trees[i] == t'
      invariant forall j | 0 <= j < i :: RecordStep(trees, log, out, certificates, cfg, decode, env, j)
      invariant Aborted !in log
      invariant extracted == CountExtracted(log)
    {
      var before := t';
      var status;
      t', status := ProcessRecord(before, out, certificates[i], cfg, decode, env(i));
      forall p | !Under(p, out) ensures Same(t, t', p) {
        assert Same(t, before, p) && Same(before, t', p);
      }
      ExtendTrace(trees, log, t', status, out, certificates, cfg, decode, env);
      assert (log + [status])[..i] == log;
      log, trees := log + [status], trees + [t'];
      if status == Aborted {
        return;
      }
      if status == Extracted {
        extracted := extracted + 1;
      }
      i := i + 1;
    }
  }

  /**
    `extract_certificates` after the JSON is loaded (extractor.py:46-149).
    `outDirFails` says that `os.makedirs(output_dir)` raises, which ends the
    run uncaught.  `log` holds the outcome of each record processed, in order.
   */
  method ExtractCertificates(t: Tree, out: Path, doc: Document, cfg: Config, decode: string -> Option<string>,
                             env: nat -> Env, outDirFails: bool)
    returns (t': Tree, report: Report, log: seq<Status>, ghost trees: seq<Tree>)
    requires Valid(t)
    ensures Valid(t') && t.dirs <= t'.dirs
    // the tool owns only the output tree: nothing outside it changes, nothing is deleted
    ensures forall p | !Under(p, out) :: Same(t, t', p)
    ensures forall d | d in t'.dirs && d !in t.dirs :: d in Lineage(out) || Under(d, out)
    ensures outDirFails ==> t' == t && report == Crashed && log == []
    ensures !outDirFails ==> Lineage(out) <= t'.dirs
    // with no certificates, only the output directory is created
    ensures report == NoCertificates <==> !outDirFails && SelectCertificates(doc).None?
    ensures report == NoCertificates ==> t' == MakeDirs(t, out) && log == []
    // the run is a chain of record outcomes, starting from the tree with the output directory made:
    // record i takes trees[i] to trees[i + 1] with the failures of env(i)
    ensures |trees| == |log| + 1 && trees[|log|] == t'
    ensures !outDirFails ==> trees[0] == MakeDirs(t, out)
    ensures SelectCertificates(doc).Some? ==>
      && |log| <= |SelectCertificates(doc).value|
      && forall i | 0 <= i < |log| :: RecordStep(trees, log, out, SelectCertificates(doc).value, cfg, decode, env, i)
    ensures forall i | 0 <= i < |log| - 1 :: log[i] != Aborted
    // a run ends early only on the KeyError of extractor.py:67
    ensures report == Crashed && !outDirFails ==> log != [] && log[|log| - 1] == Aborted
    ensures report.Summary? ==>
      && SelectCertificates(doc).Some? && |log| == |SelectCertificates(doc).value|
      && Aborted !in log
      && report.count == CountExtracted(log) <= |SelectCertificates(doc).value|
  {
    if outDirFails {
      return t, Crashed, [], [t];
    }
    ValidMakeDirs(t, out);
    var made := MakeDirs(t, out);
    var selected := SelectCertificates(doc);
    if selected.None? {
      return made, NoCertificates, [], [made];
    }
    var extracted;
    t', log, extracted, trees := ProcessRecords(made, out, selected.value, cfg, decode, env);
    forall p | !Under(p, out) ensures Same(t, t', p) {
      assert Same(t, made, p) && Same(made, t', p);
    }
    report := if Aborted in log then Crashed else Summary(extracted);
  }
}
