# Traefik certificate extractor — a Dafny model

`extractor.py` reads the ACME state file of a Traefik reverse proxy. For each
certificate record it writes three files into `<output_dir>/<domain>/`:
`certificate.pem`, `private_key.pem` and `combined.pem` (the certificate
followed by the key). It then restricts the two files that hold the key to
mode 0o600. With `-s` it leaves a domain alone when the folder already holds
the same certificate and key. With `-a` it first moves the old files into
`archive/<name>_<timestamp>`.

This project models that decision-and-update core. The file system becomes a
value: a map from path (a list of components) to file text and mode, plus the
set of existing directories. Every operation that can raise in the source
(`os.makedirs`, the reads of the skip guard, `shutil.move`, `open(..., 'w')`,
`os.chmod`) becomes a per-record failure input. So the contracts cover every
combination of failures.

Files:

- `wrappers.dfy`: `Option`.
- `file_tree.dfy`: the file tree, its well-formedness (`Valid`: every file sits
  in an existing directory) and the effects of `makedirs`, a write, `chmod` and
  `move`.
- `acme_store.dfy`: the parsed document, choice of certificate list, domain
  resolution, folder-name sanitising, and the pure per-record steps (`Prepare`).
- `skip_guard.dfy`: `compare_certificates`, both as written and corrected (see
  Findings).
- `extractor.dfy`: the record loop of `extract_certificates`, with the archive
  loop, the three writes, the two permission changes and the counter.
- `cli.dfy`: path resolution in `main` and the exit status.

Behaviours of the code that the model keeps as they are:

- A record whose `certificate` or `key` is empty is skipped with no message
  (extractor.py:72). It does not get a diagnostic.
- Only element 0 of `domains` is read. If it has no `main`, the `KeyError` is
  raised outside the per-record `try` and ends the whole run (extractor.py:67).
  Other elements that have a `main` do not help.
- If `os.makedirs` fails for `archive/`, the record ends with no writes. That
  error is caught by the outer handler at extractor.py:144. Only a failed
  *move* lets the writes go ahead.
- The domain folder is created before the skip guard runs (extractor.py:83-91).
- The output directory is created before the certificate list is checked, so
  "no certificates found" still leaves it behind (extractor.py:46-56).

## Model

| member | source | states |
|---|---|---|
| AcmeStore.SelectCertificates | extractor.py:49-56 | `letsencrypt.Certificates` when non-empty, else `acme.Certificates`; None (stop early) exactly when both are empty |
| AcmeStore.AcmeFallbackAgrees | extractor.py:50-52 | a store with its list under `acme` only selects the same list as one with it under `letsencrypt` |
| AcmeStore.Lookup | extractor.py:62-63 | `key in obj` holds iff some entry has that key, and the value returned is that entry's value |
| AcmeStore.ResolveDomain | extractor.py:60-67 | the precedence: `domain.main`; else the first value of a non-empty `domain`; `unknown` for an empty `domain`; else `domains[0].main`, or the run-ending KeyError if it is missing; otherwise `unknown` |
| AcmeStore.MissingMainOnlyFromDomains | extractor.py:61-67 | the run aborts on a record iff it has no `domain`, a non-empty `domains`, and no `main` key in `domains[0]` |
| AcmeStore.DomainFieldDominates | extractor.py:61-66 | when `domain` is present, the value of `domains` never changes the resolved name |
| AcmeStore.OnlyFirstDomainsEntryRead | extractor.py:67 | elements of `domains` after the first never change the resolved name |
| AcmeStore.Sanitize | extractor.py:79 | the folder name contains no `*`; equals the domain when the domain has none; is 7 characters longer per `*` |
| AcmeStore.SanitizeAppend | extractor.py:79 | sanitising a concatenation is the concatenation of the sanitised parts |
| AcmeStore.SanitizeChar | extractor.py:79 | every character stays where it is, except `*`, which becomes `wildcard` in its place |
| AcmeStore.SanitizeNotInjective | extractor.py:79-82 | `*.example.com` and `wildcard.example.com` share one output folder |
| AcmeStore.Prepare | extractor.py:58-79 | a record is ready iff its name resolves to a string, both fields are non-empty and both decode; it then carries the decoded texts and a `*`-free folder name; the KeyError and the three rejection reasons otherwise |
| SkipGuard.Compare | extractor.py:10-27 | true iff there is no read error and both `certificate.pem` and `private_key.pem` exist and hold exactly the new certificate and key |
| SkipGuard.TextModeRead | extractor.py:17-20 | a text-mode read returns text with no carriage return and no longer than the file |
| SkipGuard.TextModeReadIdentity | extractor.py:17-20 | a file without carriage returns reads back unchanged |
| SkipGuard.CompareAsWritten | extractor.py:10-27 | the source's comparison matches only certificates and keys without carriage returns |
| SkipGuard.CompareAsWrittenAgrees | extractor.py:10-27 | when neither the two compared files nor the new texts contain a carriage return, the source's comparison equals the byte comparison |
| SkipGuard.CrlfNeverMatchesAsWritten | extractor.py:17-23 | a CRLF certificate stored byte for byte is not recognised by the source's comparison |
| SkipGuard.CrlfFileMatchesLfAsWritten | extractor.py:17-23 | a CRLF file on disk is taken as matching an LF certificate whose bytes differ |
| Extractor.ArchiveOutputs | extractor.py:99-108 | every existing output whose move succeeds is gone from its place and kept intact under `archive/<name>_<its timestamp>`; a failed move leaves that file in place and the loop goes on; nothing else changes |
| Extractor.WriteFile | extractor.py:111-133 | one write: with no fault the file holds the text, with its old mode or the new-file mode; if `open` fails the file is untouched; an interrupted write leaves a prefix of the text; no other file changes |
| Extractor.WriteFiles | extractor.py:110-133 | the three writes in order: files before the first failure hold their new text; the failing file is untouched or holds a prefix; later files are untouched |
| Extractor.RestrictModes | extractor.py:135-141 | the key file and then the combined file get mode 0o600; the first failing chmod stops the step; contents never change |
| Extractor.WriteOutputs | extractor.py:110-143 | which step fails decides the status; `certificate.pem` keeps the mode `open` gave it; `combined.pem` is the certificate followed by the key with nothing added; on full success both key files are 0o600 |
| Extractor.WriteDomain | extractor.py:83-143 | the failures and switches decide where the record stops; per status, against the tree before the record: a failed folder creation or a skip changes nothing; only the folder is created, and `archive/` only with `-a`, where it exists even when nothing moved; archived outputs survive intact; written files are new, the failing one is old or a prefix, later ones keep their prior state; a success passes the (byte) skip guard on the next pass |
| Extractor.ProcessRecord | extractor.py:58-146 | an aborting or rejected record gets the status its pure steps decide and changes nothing; a ready record's status and files are those `WriteDomain` states, in its `*`-free folder; for names that are one path component, nothing outside the output tree changes and only directories of the output tree are created |
| Extractor.ExtractTwice | extractor.py:90-93 | after a successful extraction, processing the same record again with `-s` and a clean read is a skip that changes nothing; for texts without a carriage return the source's text-mode comparison also finds the folder matching |
| Extractor.CountExtracted | extractor.py:143 | the count of successes never exceeds the number of records, and equals it only when every record succeeded |
| Extractor.ProcessRecords | extractor.py:58-146 | the loop is a chain of record outcomes, record `i` taking tree `i` to tree `i + 1` with its own failures; it ends early only on the `domains[0]` KeyError; the counter equals the number of `Extracted` outcomes |
| Extractor.CleanRecordExtracted | extractor.py:58-143 | with no failures and without `-s`, a record is extracted iff its pure steps make it ready |
| Extractor.CountReady | extractor.py:143 | when exactly the ready records succeed, the counter equals the number of ready records |
| Extractor.CleanRunCount | extractor.py:58-149 | a run with no failures and without `-s` reports exactly the number of records that resolve to a string name and whose certificate and key decode |
| Extractor.ExtractCertificates | extractor.py:46-149 | the output directory is made first and the run is the chain of record outcomes from there, so every record's status and files follow from its failures; with no certificates only the output directory is created; the run stops only on the `domains[0]` KeyError; the reported count equals the successes and is at most the number of records; for names that are one path component, files outside the output directory never change and no directory is removed |
| Cli.ResolvePath | extractor.py:196-201 | a path is found iff the flag or the positional is a non-empty string; the flag wins; an empty flag falls back to the positional |
| Cli.RunTool | extractor.py:196-207 | a missing path exits 1 with the tree untouched, and so does an unreadable or invalid input file (the loading errors of extractor.py:36-44); a completed run exits 0 whatever happened to single records; an escaped exception exits 1; for names that are one path component, only the output tree changes |

## Findings

| source | as written | input that shows it | evidently intended | confidence | as-written member | corrected member |
|---|---|---|---|---|---|---|
| extractor.py:17-22 | `compare_certificates` opens both files in text mode. Universal newlines turn every `\r\n` and lone `\r` into `\n` before the equality test. | a certificate whose PEM text ends in `"\r\n"`, written byte for byte by extractor.py:112-113, read back as `"\n"` | "Returns True if the files are identical" (extractor.py:13): a byte comparison, so that `-s` skips a domain whose files already match | not executed | SkipGuard.CrlfNeverMatchesAsWritten | Extractor.ExtractTwice |

Both directions are stated. `SkipGuard.CrlfNeverMatchesAsWritten` shows a CRLF
certificate that never matches itself, so it is rewritten (and archived) on
every `-s` run. `SkipGuard.CrlfFileMatchesLfAsWritten` shows an LF certificate
that matches a CRLF file. The rest of the model uses the byte comparison
`SkipGuard.Compare`. `SkipGuard.CompareAsWrittenAgrees` proves the two agree
whenever no carriage return is involved. That is the usual case for PEM text.

## Left out

- Real file I/O, JSON parsing (`load` is a parameter of `Cli.RunTool`), and
  base64 plus UTF-8 decoding. Decoding is a parameter `decode` that returns
  None on failure. Python's `b64decode` skips characters outside the alphabet,
  and the model makes no claim about which strings decode.
- `datetime.now()` formatting: each output name gets a timestamp string from
  the record's environment, read only when that file is archived.
- argparse, `~` expansion and splitting the output path into components: these
  are the parameter `locate` of `Cli.RunTool`.
- The text of the `print` diagnostics. The `Status` of each record, collected
  in the run's log, stands for which diagnostic is printed.
- A sanitised name is treated as a single path component. A name containing
  `/`, or equal to `""`, `.` or `..`, is not given its `os.path.join` meaning.
  In the source, extractor.py:82 with a name such as `/etc/x` or `../x` writes
  outside the output directory, and the name `""` writes into the output
  directory itself. The frames stated below hold only for names that are one
  path component:
- Extractor.ProcessRecord: "nothing outside the output tree changes" assumes
  the folder name is one path component.
- Extractor.ExtractCertificates: "files outside the output directory never
  change" assumes every folder name is one path component.
- Cli.RunTool: "only the output tree changes" assumes every folder name is one
  path component.
- Extractor.WriteDomain: uses the byte comparison `SkipGuard.Compare` as its
  skip guard, not the text-mode reads of extractor.py:17-22. The two decide
  alike whenever neither the stored files nor the new texts contain a carriage
  return (`SkipGuard.CompareAsWrittenAgrees`); otherwise see Findings.
- Extractor.ProcessRecord: its `Unchanged` status follows the byte comparison,
  as for `Extractor.WriteDomain`.
- Extractor.ExtractTwice: the skip on the second pass is proved for the byte
  comparison; for the source's comparison it holds only for texts without a
  carriage return, which its second clause states.
- Input shapes outside the types: a `domain` that is not an object, `domains`
  entries that are not objects, non-string `certificate` or `key` fields, and a
  document or provider entry that is not an object. The model covers
  non-string domain *values*: they fail at `.replace` and the record is
  rejected.
- Directories standing where an output file should be (`os.path.exists` is
  true for them). A failing `os.makedirs` is modelled as creating nothing, not
  as a partial chain.
- Newline translation on *write* is the identity, as on POSIX. On Windows the
  written bytes would differ.
- The time window between a key file's write and its `chmod`, during which it
  has the default mode. The model states the mode left after each way a record
  can end. After a failed `combined.pem` write, `private_key.pem` keeps the mode
  its `open` left: the old file's mode when it existed and was not archived,
  otherwise the mode of a new file.
- Extractor.ExtractCertificates: states each record's files against the tree
  the previous record left (the ghost sequence `trees`), not the final content
  of every folder in one formula. A later record with the same folder name (for
  example two `unknown` records) overwrites an earlier one.
- Concurrency: the source is single-threaded.
