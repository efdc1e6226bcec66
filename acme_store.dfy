/**
  The parsed ACME state file and the per-record decisions taken before anything
  touches the disk: which certificate list is used, which domain name a record
  resolves to, how that name becomes a folder name, and whether the record's
  payload can be decoded at all (extractor.py:50-79).
 */
module AcmeStore {
  import opened Wrappers

  /** A JSON value: a string, or anything else (number, list, object, null, boolean). */
  datatype Json = Str(s: string) | NonString

  /**
    A JSON object: its entries in document order.  `json.load` builds a dict,
    so the keys of a parsed object are distinct and the first entry with a
    key is its only one.
   */
  type Object = seq<(string, Json)>

  /**
    One element of `Certificates`.  `domain` and `domains` are the two tolerated
    descriptor fields (None when the key is absent); a missing `certificate` or
    `key` is the empty string, as `dict.get(..., '')` gives.
   */
  datatype CertEntry = CertEntry(
    domain: Option<Object>,
    domains: Option<seq<Object>>,
    certificate: string,
    key: string)

  /**
    The document: `letsencrypt.Certificates` and `acme.Certificates`, each the
    empty list when the provider key, its `Certificates` key, or the list's
    content is missing or null.
   */
  datatype Document = Document(letsencrypt: seq<CertEntry>, acme: seq<CertEntry>)

  /** The certificate list the run walks, or None when there is nothing to do. */
  function SelectCertificates(d: Document): (r: Option<seq<CertEntry>>)
    ensures r.Some? ==> r.value != []
    ensures r.None? <==> d.letsencrypt == [] && d.acme == []
    ensures d.letsencrypt != [] ==> r == Some(d.letsencrypt)
    ensures d.letsencrypt == [] && d.acme != [] ==> r == Some(d.acme)
  {
    var certificates := if d.letsencrypt != [] then d.letsencrypt else d.acme;
    if certificates == [] then None else Some(certificates)
  }

  /** A store holding its list only under `acme` is processed exactly like one holding it under `letsencrypt`. */
  lemma AcmeFallbackAgrees(list: seq<CertEntry>)
    ensures SelectCertificates(Document([], list)) == SelectCertificates(Document(list, []))
  {
  }

  /** The value of the first entry of `o` whose key is `k`. */
  function Lookup(o: Object, k: string): (r: Option<Json>)
    ensures r.Some? <==> exists i :: 0 <= i < |o| && o[i].0 == k
    ensures r.Some? ==> exists i :: 0 <= i < |o| && o[i] == (k, r.value)
  {
    if o == [] then None
    else if o[0].0 == k then Some(o[0].1)
    else Lookup(o[1..], k)
  }

  /** The outcome of domain resolution: a name, or the KeyError of extractor.py:67. */
  datatype Resolution = Name(value: Json) | MissingMain

  const Unknown: Json := Str("unknown")

  /**
    The domain name of a record (extractor.py:60-67).  `domains[0]` without a
    `main` key raises outside the per-record `try`, which ends the whole run.
   */
  function ResolveDomain(e: CertEntry): (r: Resolution)
    // a `domain` object with `main` wins
    ensures e.domain.Some? && Lookup(e.domain.value, "main").Some? ==>
      r == Name(Lookup(e.domain.value, "main").value)
    // otherwise the first value of a non-empty `domain` object
    ensures e.domain.Some? && Lookup(e.domain.value, "main").None? && e.domain.value != [] ==>
      r == Name(e.domain.value[0].1)
    ensures e.domain == Some([]) ==> r == Name(Unknown)
    // `domains` is consulted only without `domain`, and only its first element
    ensures e.domain.None? && e.domains.Some? && e.domains.value != [] ==>
      r == (match Lookup(e.domains.value[0], "main")
            case Some(v) => Name(v)
            case None => MissingMain)
    ensures e.domain.None? && (e.domains.None? || e.domains == Some([])) ==> r == Name(Unknown)
  {
    match e.domain
    case Some(d) =>
      var main := Lookup(d, "main");
      if main.Some? then Name(main.value)
      else if d != [] then Name(d[0].1)
      else Name(Unknown)
    case None =>
      if e.domains.None? || e.domains.value == [] then Name(Unknown)
      else
        var main := Lookup(e.domains.value[0], "main");
        if main.Some? then Name(main.value) else MissingMain
  }

  /** Only a record without `domain` whose first `domains` element lacks `main` aborts the run. */
  lemma MissingMainOnlyFromDomains(e: CertEntry)
    ensures ResolveDomain(e).MissingMain? <==>
      e.domain.None? && e.domains.Some? && e.domains.value != [] &&
      forall i :: 0 <= i < |e.domains.value[0]| ==> e.domains.value[0][i].0 != "main"
  {
    if e.domain.None? && e.domains.Some? && e.domains.value != [] {
      var first := e.domains.value[0];
      if Lookup(first, "main").Some? {
        var i :| 0 <= i < |first| && first[i].0 == "main";
      }
    }
  }

  /** When `domain` is present, `domains` is never looked at. */
  lemma DomainFieldDominates(e: CertEntry, other: Option<seq<Object>>)
    requires e.domain.Some?
    ensures ResolveDomain(e.(domains := other)) == ResolveDomain(e)
  {
  }

  /** Elements of `domains` after the first never influence the name. */
  lemma OnlyFirstDomainsEntryRead(e: CertEntry, rest: seq<Object>)
    requires e.domain.None? && e.domains.Some? && e.domains.value != []
    ensures ResolveDomain(e.(domains := Some([e.domains.value[0]] + rest))) == ResolveDomain(e)
  {
  }

  /** The number of times `c` occurs in `s`. */
  function Occurrences(s: string, c: char): nat
  {
    if s == [] then 0 else (if s[0] == c then 1 else 0) + Occurrences(s[1..], c)
  }

  /** `domain.replace('*', 'wildcard')`: the folder name of a domain (extractor.py:79). */
  function Sanitize(s: string): (r: string)
    ensures '*' !in r
    ensures '*' !in s ==> r == s
    ensures |r| == |s| + 7 * Occurrences(s, '*')
  {
    if s == [] then []
    else (if s[0] == '*' then "wildcard" else [s[0]]) + Sanitize(s[1..])
  }

  /** Sanitising works piecewise, so each `*` is replaced where it stands. */
  lemma {:induction false} SanitizeAppend(a: string, b: string)
    ensures Sanitize(a + b) == Sanitize(a) + Sanitize(b)
  {
    if a == [] {
      assert a + b == b;
    } else {
      assert (a + b)[1..] == a[1..] + b;
      SanitizeAppend(a[1..], b);
    }
  }

  /** Each character is kept, except `*`, which becomes `wildcard`. */
  lemma {:induction false} SanitizeChar(a: string, c: char, b: string)
    ensures Sanitize(a + [c] + b) == Sanitize(a) + (if c == '*' then "wildcard" else [c]) + Sanitize(b)
  {
    SanitizeAppend(a + [c], b);
    SanitizeAppend(a, [c]);
    assert [c][1..] == [];
  }

  /** Folder names collide: a wildcard domain shares its folder with the domain spelled `wildcard`. */
  lemma SanitizeNotInjective()
    ensures Sanitize("*.example.com") == Sanitize("wildcard.example.com")
  {
    var rest := ".example.com";
    assert "*.example.com" == "*" + rest;
    assert "wildcard.example.com" == "wildcard" + rest;
    assert Sanitize("*") == "wildcard" by {
      assert "*"[1..] == [];
    }
    SanitizeAppend("*", rest);
    SanitizeAppend("wildcard", rest);
  }

  /** Why a record is passed over before anything is written. */
  datatype Rejection =
    | EmptyField    // `certificate` or `key` empty or missing: skipped without a message
    | Undecodable   // base64 or UTF-8 decoding failed (caught at extractor.py:144)
    | NotAString    // the resolved name has no `.replace` (caught at extractor.py:144)

  /** What the record loop knows after the pure steps of one record. */
  datatype Prepared =
    | Abort
    | Rejected(reason: Rejection)
    | Ready(folder: string, cert: string, key: string)

  /**
    Domain resolution, the empty-field test, decoding and sanitising, in the
    order extractor.py:60-79 performs them.  `decode` is base64 decoding
    followed by UTF-8 decoding, None when either fails.
   */
  function Prepare(e: CertEntry, decode: string -> Option<string>): (r: Prepared)
    ensures r.Abort? <==> ResolveDomain(e).MissingMain?
    ensures r == Rejected(EmptyField) <==> ResolveDomain(e).Name? && (e.certificate == "" || e.key == "")
    ensures r.Ready? <==>
      && ResolveDomain(e).Name? && ResolveDomain(e).value.Str?
      && e.certificate != "" && e.key != ""
      && decode(e.certificate).Some? && decode(e.key).Some?
    ensures r.Ready? ==>
      && r.cert == decode(e.certificate).value
      && r.key == decode(e.key).value
      && r.folder == Sanitize(ResolveDomain(e).value.s)
      && '*' !in r.folder
  {
    match ResolveDomain(e)
    case MissingMain => Abort
    case Name(domain) =>
      if e.certificate == "" || e.key == "" then Rejected(EmptyField)
      else
        match (decode(e.certificate), decode(e.key))
        case (Some(cert), Some(key)) =>
          (match domain
           case Str(s) => Ready(Sanitize(s), cert, key)
           case NonString => Rejected(NotAString))
        case _ => Rejected(Undecodable)
  }
}
