/**
  The skip guard, `compare_certificates` (extractor.py:10-27): may a record be
  left alone because its folder already holds the same certificate and key?

  `CompareAsWritten` is the function as the source has it: the files are read
  in text mode, where Python translates every `\r\n` and lone `\r` to `\n`
  before the comparison.  `Compare` is the byte-for-byte comparison the
  function's own documentation promises ("identical" files); the extractor
  model uses it.
 */
module SkipGuard {
  import opened FileTree

  const CertName := "certificate.pem"
  const KeyName := "private_key.pem"
  const CombinedName := "combined.pem"

  /** The three output files of a folder are three different paths. */
  lemma OutputPathsDistinct(folder: Path)
    ensures folder + [CertName] != folder + [KeyName]
    ensures folder + [CertName] != folder + [CombinedName]
    ensures folder + [KeyName] != folder + [CombinedName]
  {
    var n := |folder|;
    assert (folder + [CertName])[n] == CertName;
    assert (folder + [KeyName])[n] == KeyName;
    assert (folder + [CombinedName])[n] == CombinedName;
    assert CertName[1] != KeyName[1] && CertName[1] != CombinedName[1] && KeyName[0] != CombinedName[0];
  }

  /** The text `p` holds, as the failure-free reads of extractor.py:17-20 return it. */
  ghost predicate StoredEquals(t: Tree, p: Path, text: string)
  {
    p in t.files && t.files[p].text == text
  }

  /**
    True when both `certificate.pem` and `private_key.pem` exist in `folder`
    and hold exactly `cert` and `key`.  `readFails` says that reading either
    file raises; the error is reported and counts as "no match".
   */
  function Compare(t: Tree, folder: Path, cert: string, key: string, readFails: bool): (r: bool)
    ensures r <==> !readFails && StoredEquals(t, folder + [CertName], cert) && StoredEquals(t, folder + [KeyName], key)
  {
    var certFile, keyFile := folder + [CertName], folder + [KeyName];
    if certFile in t.files && keyFile in t.files then
      if readFails then false
      else t.files[certFile].text == cert && t.files[keyFile].text == key
    else false
  }

  /** What reading a file in text mode returns: universal newlines turn `\r\n` and `\r` into `\n`. */
  function TextModeRead(s: string): (r: string)
    ensures '\r' !in r
    ensures |r| <= |s|
  {
    if s == [] then []
    else if s[0] == '\r' then
      if |s| > 1 && s[1] == '\n' then "\n" + TextModeRead(s[2..]) else "\n" + TextModeRead(s[1..])
    else [s[0]] + TextModeRead(s[1..])
  }

  /** A text without carriage returns reads back unchanged. */
  lemma {:induction false} TextModeReadIdentity(s: string)
    requires '\r' !in s
    ensures TextModeRead(s) == s
  {
    if s != [] {
      assert '\r' !in s[1..];
      TextModeReadIdentity(s[1..]);
    }
  }

  /** `compare_certificates` as written: files read in text mode. */
  function CompareAsWritten(t: Tree, folder: Path, cert: string, key: string, readFails: bool): (r: bool)
    ensures r ==> '\r' !in cert && '\r' !in key
  {
    var certFile, keyFile := folder + [CertName], folder + [KeyName];
    if certFile in t.files && keyFile in t.files then
      if readFails then false
      else TextModeRead(t.files[certFile].text) == cert && TextModeRead(t.files[keyFile].text) == key
    else false
  }

  /**
    Where no carriage return is involved, neither in the new texts nor in the
    two files compared, the source's comparison is the byte comparison.
   */
  lemma CompareAsWrittenAgrees(t: Tree, folder: Path, cert: string, key: string, readFails: bool)
    requires '\r' !in cert && '\r' !in key
    requires folder + [CertName] in t.files ==> '\r' !in t.files[folder + [CertName]].text
    requires folder + [KeyName] in t.files ==> '\r' !in t.files[folder + [KeyName]].text
    ensures CompareAsWritten(t, folder, cert, key, readFails) == Compare(t, folder, cert, key, readFails)
  {
    var certFile, keyFile := folder + [CertName], folder + [KeyName];
    if certFile in t.files && keyFile in t.files {
      TextModeReadIdentity(t.files[certFile].text);
      TextModeReadIdentity(t.files[keyFile].text);
    }
  }

  /**
    A certificate with CRLF line ends, stored exactly as written, never matches
    itself: with skipping on, such a domain is rewritten on every run.
   */
  lemma CrlfNeverMatchesAsWritten(folder: Path)
    ensures var cert, key := "A\r\n", "K\n";
      var t := Tree(map[folder + [CertName] := FileData(cert, 420), folder + [KeyName] := FileData(key, OwnerOnly)], {});
      Compare(t, folder, cert, key, false) && !CompareAsWritten(t, folder, cert, key, false)
  {
    OutputPathsDistinct(folder);
    assert TextModeRead("A\r\n") == "A\n" by {
      assert "A\r\n"[1..] == "\r\n";
      assert "\r\n"[2..] == [];
    }
  }

  /**
    The converse: a CRLF file on disk matches an LF certificate, so the source
    skips a folder whose bytes differ from what it would write.
   */
  lemma CrlfFileMatchesLfAsWritten(folder: Path)
    ensures var cert, key := "A\n", "K\n";
      var t := Tree(map[folder + [CertName] := FileData("A\r\n", 420), folder + [KeyName] := FileData(key, OwnerOnly)], {});
      !Compare(t, folder, cert, key, false) && CompareAsWritten(t, folder, cert, key, false)
  {
    OutputPathsDistinct(folder);
    assert TextModeRead("A\r\n") == "A\n" by {
      assert "A\r\n"[1..] == "\r\n";
      assert "\r\n"[2..] == [];
    }
    assert TextModeRead("K\n") == "K\n" by {
      TextModeReadIdentity("K\n");
    }
  }
}
