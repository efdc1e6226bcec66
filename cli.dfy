/**
  The command line of `main` (extractor.py:151-207): choosing the input and
  output paths from flags and positionals, and the exit status of a run.
 */
module Cli {
  import opened Wrappers
  import opened FileTree
  import opened AcmeStore
  import opened Extractor

  /** Python truthiness of an optional string argument: given and non-empty. */
  predicate Truthy(s: Option<string>)
  {
    s.Some? && s.value != ""
  }

  /** Python's `a or b`: `a` when it is truthy, otherwise `b`, whatever `b` is. */
  function Or(a: Option<string>, b: Option<string>): Option<string>
  {
    if Truthy(a) then a else b
  }

  /**
    `args.x_alt or args.x` followed by the `not x` test of extractor.py:196-199:
    the flag wins over the positional, and an empty string counts as missing.
   */
  function ResolvePath(flag: Option<string>, positional: Option<string>): (r: Option<string>)
    ensures r.Some? <==> Truthy(flag) || Truthy(positional)
    ensures r.Some? ==> r.value != ""
    ensures Truthy(flag) ==> r == flag
    ensures !Truthy(flag) && Truthy(positional) ==> r == positional
  {
    var chosen := Or(flag, positional);
    if Truthy(chosen) then chosen else None
  }

  /** The parsed command line: the two positionals, `-i`, `-o`, `-a` and `-s`. */
  datatype Args = Args(
    inputFile: Option<string>,
    outputDir: Option<string>,
    inputFileAlt: Option<string>,
    outputDirAlt: Option<string>,
    archive: bool,
    skipExisting: bool)

  /** Reading and parsing the input file (extractor.py:36-44). */
  datatype LoadResult = FileNotFound | InvalidJson | Loaded(doc: Document)

  /**
    `main` and the loading step of `extract_certificates`.  `load` reads and
    parses the file at the resolved input path; `locate` turns the resolved
    output path into its components, `~` expanded.  Exit status 1 stands for
    `sys.exit(1)` and for an exception that escapes the run.
   */
  method RunTool(args: Args, load: string -> LoadResult, locate: string -> Path, t: Tree,
                 decode: string -> Option<string>, env: nat -> Env, outDirFails: bool)
    returns (t': Tree, exitCode: nat, report: Option<Report>)
    requires Valid(t)
    ensures Valid(t') && exitCode <= 1
    // a missing path is a usage error: nothing is read or written
    ensures ResolvePath(args.inputFileAlt, args.inputFile).None? || ResolvePath(args.outputDirAlt, args.outputDir).None? ==>
      exitCode == 1 && t' == t && report.None?
    // an unreadable or invalid input file ends the run before the output directory is made
    ensures report.None? ==> exitCode == 1 && t' == t
    ensures report.Some? ==>
      && ResolvePath(args.inputFileAlt, args.inputFile).Some?
      && ResolvePath(args.outputDirAlt, args.outputDir).Some?
      && load(ResolvePath(args.inputFileAlt, args.inputFile).value).Loaded?
    ensures ResolvePath(args.inputFileAlt, args.inputFile).Some? && ResolvePath(args.outputDirAlt, args.outputDir).Some? ==>
      (report.Some? <==> load(ResolvePath(args.inputFileAlt, args.inputFile).value).Loaded?)
    // only the output tree changes
    ensures report.Some? ==>
      forall p | !Under(p, locate(ResolvePath(args.outputDirAlt, args.outputDir).value)) :: Same(t, t', p)
    // a run that completes exits 0, whatever happened to single records
    ensures exitCode == 0 <==> report.Some? && report.value != Crashed
  {
    var inputFile := ResolvePath(args.inputFileAlt, args.inputFile);
    var outputDir := ResolvePath(args.outputDirAlt, args.outputDir);
    if inputFile.None? || outputDir.None? {
      return t, 1, None;
    }
    match load(inputFile.value)
    case FileNotFound =>
      return t, 1, None;
    case InvalidJson =>
      return t, 1, None;
    case Loaded(doc) =>
      var cfg := Config(args.archive, args.skipExisting);
      var run, log;
      ghost var trees;
      t', run, log, trees := ExtractCertificates(t, locate(outputDir.value), doc, cfg, decode, env, outDirFails);
      report := Some(run);
      exitCode := if run == Crashed then 1 else 0;
  }
}
