/**
 * The validation chain of the git-input endpoint (`InputController.inputGetHandler`):
 * the purl's fields, then its qualifiers, then the commit hash, then the commit
 * datetime. The first failing check decides the 400 message; only a purl that passes
 * every check is handed to the ingestion service.
 */
module PurlValidator {
  import opened Wrappers
  import opened JavaStrings

  /**
   * A parsed package URL `pkg:type/namespace/name@version?qualifiers#subpath`.
   * The purl library has already lower-cased the qualifier keys.
   */
  datatype Purl = Purl(
    purlType: string,
    namespace: string,
    name: string,
    version: string,
    subpath: Option<string>,
    qualifiers: map<string, string>)

  /** What a valid event purl carries, as the ingestion service extracts it. */
  datatype ValidEvent = ValidEvent(
    domain: string,
    packedName: string,
    repository: string,
    branch: string,
    datasourceType: string,
    commitHash: string,
    commitDatetime: string)

  datatype Verdict = Rejected(message: string) | Accepted(event: ValidEvent)

  const NameSeparator := "::"
  const MaxFieldLength := 256
  const MaxNameLength := 512
  const Wildcard := "*"
  const CommitHashKey := "commithash"
  const CommitDatetimeKey := "commitdatetime"

  const PurlMalformed := "DatasourceEvent purl malformed"
  const QualifiersInvalid := "eventDatasource purl qualifiers are invalid."
  const CommitHashInvalid := "qualifier datasourceCommitHash is not valid git hash."
  const CommitDatetimeInvalid := "qualifier datasourceCommitDatetime is not valid."

  /** One character of the class `[-a-zA-Z0-9._/\\%:]`; the `\\%` of the Java literal is an escaped `%`, so no backslash. */
  predicate AllowedChar(c: char) {
    || c == '-' || ('a' <= c <= 'z') || ('A' <= c <= 'Z') || ('0' <= c <= '9')
    || c == '.' || c == '_' || c == '/' || c == '%' || c == ':'
  }

  /** `s.matches("^[-a-zA-Z0-9._/\\%:]+$")`: at least one character, all in the class. */
  predicate MatchesFilter(s: string) {
    |s| > 0 && forall i :: 0 <= i < |s| ==> AllowedChar(s[i])
  }

  /** The checks made on each of the two pieces of the name. */
  predicate NamePartOk(part: string) {
    !IsBlank(part) && |part| <= MaxFieldLength && MatchesFilter(part)
  }

  /** The checks made on the name: `repository::branch`, as Java's `split("::")` sees it. */
  predicate NameOk(name: string) {
    && Contains(name, NameSeparator)
    && |name| <= MaxNameLength
    && |Split(name, NameSeparator)| == 2
    && NamePartOk(Split(name, NameSeparator)[0])
    && NamePartOk(Split(name, NameSeparator)[1])
  }

  /** The namespace is the deployment's domain; the wildcard domain accepts any namespace. */
  predicate NamespaceOk(namespace: string, expectedDomain: string) {
    && |namespace| <= MaxFieldLength
    && MatchesFilter(namespace)
    && (expectedDomain == Wildcard || expectedDomain == namespace)
  }

  /** The negation of the first `if` condition of the handler, check for check. */
  predicate FieldsOk(p: Purl, expectedDomain: string) {
    && p.purlType == "generic"
    && NamespaceOk(p.namespace, expectedDomain)
    && NameOk(p.name)
    && |p.version| <= MaxFieldLength
    && MatchesFilter(p.version)
    && p.subpath.None?
  }

  /** Both required qualifier keys are present (extra keys are allowed). */
  predicate QualifiersOk(q: map<string, string>) {
    CommitHashKey in q && CommitDatetimeKey in q
  }

  predicate IsHexDigit(c: char) {
    ('a' <= c <= 'f') || ('A' <= c <= 'F') || ('0' <= c <= '9')
  }

  /** `h.matches("^[a-fA-F0-9]{n}$")`. */
  predicate HexRun(h: string, n: nat) {
    |h| == n && forall i :: 0 <= i < |h| ==> IsHexDigit(h[i])
  }

  /** A SHA-1 or SHA-256 git object name. */
  predicate IsGitHash(h: string) {
    HexRun(h, 40) || HexRun(h, 64)
  }

  /**
   * The handler's chain of checks. `datetimeParses` stands for `ZonedDateTime.parse`
   * succeeding on its argument.
   */
  function Validate(p: Purl, expectedDomain: string, datetimeParses: string -> bool): (r: Verdict)
    ensures r.Accepted? <==>
      && FieldsOk(p, expectedDomain)
      && QualifiersOk(p.qualifiers)
      && IsGitHash(p.qualifiers[CommitHashKey])
      && datetimeParses(p.qualifiers[CommitDatetimeKey])
    ensures r.Rejected? ==> r.message in {PurlMalformed, QualifiersInvalid, CommitHashInvalid, CommitDatetimeInvalid}
    ensures r.Accepted? ==>
      && r.event.domain == p.namespace
      && r.event.datasourceType == p.version
      && r.event.packedName == p.name
      && NamePartOk(r.event.repository) && NamePartOk(r.event.branch)
      && (exists k: nat :: p.name == r.event.repository + NameSeparator + r.event.branch + Repeat(NameSeparator, k))
      && r.event.commitHash == p.qualifiers[CommitHashKey]
      && r.event.commitDatetime == p.qualifiers[CommitDatetimeKey]
  {
    if !FieldsOk(p, expectedDomain) then Rejected(PurlMalformed)
    else if !QualifiersOk(p.qualifiers) then Rejected(QualifiersInvalid)
    else if !IsGitHash(p.qualifiers[CommitHashKey]) then Rejected(CommitHashInvalid)
    else if !datetimeParses(p.qualifiers[CommitDatetimeKey]) then Rejected(CommitDatetimeInvalid)
    else
      var parts := Split(p.name, NameSeparator);
      SplitTwoShape(p.name, NameSeparator);
      Accepted(ValidEvent(p.namespace, p.name, parts[0], parts[1], p.version,
                          p.qualifiers[CommitHashKey], p.qualifiers[CommitDatetimeKey]))
  }

  /** The checks run in order: the first one that fails names the rejection. */
  lemma FirstFailureDecides(p: Purl, expectedDomain: string, datetimeParses: string -> bool)
    ensures !FieldsOk(p, expectedDomain) ==>
      Validate(p, expectedDomain, datetimeParses) == Rejected(PurlMalformed)
    ensures FieldsOk(p, expectedDomain) && !QualifiersOk(p.qualifiers) ==>
      Validate(p, expectedDomain, datetimeParses) == Rejected(QualifiersInvalid)
    ensures FieldsOk(p, expectedDomain) && QualifiersOk(p.qualifiers) && !IsGitHash(p.qualifiers[CommitHashKey]) ==>
      Validate(p, expectedDomain, datetimeParses) == Rejected(CommitHashInvalid)
    ensures (&& FieldsOk(p, expectedDomain) && QualifiersOk(p.qualifiers) && IsGitHash(p.qualifiers[CommitHashKey])
             && !datetimeParses(p.qualifiers[CommitDatetimeKey])) ==>
      Validate(p, expectedDomain, datetimeParses) == Rejected(CommitDatetimeInvalid)
  {
  }

  /** A purl whose type is not exactly "generic" is a package purl, not a datasource purl. */
  lemma NonGenericRejected(p: Purl, expectedDomain: string, datetimeParses: string -> bool)
    requires p.purlType != "generic"
    ensures Validate(p, expectedDomain, datetimeParses) == Rejected(PurlMalformed)
  {
  }

  /** A backslash anywhere in the namespace is rejected, whatever the domain policy. */
  lemma BackslashInNamespaceRejected(p: Purl, expectedDomain: string, datetimeParses: string -> bool, i: nat)
    requires i < |p.namespace| && p.namespace[i] == '\\'
    ensures Validate(p, expectedDomain, datetimeParses) == Rejected(PurlMalformed)
  {
    assert !AllowedChar(p.namespace[i]);
  }

  /** Qualifier keys beyond the two required ones do not change the verdict. */
  lemma ExtraQualifiersIgnored(p: Purl, extra: map<string, string>, expectedDomain: string, datetimeParses: string -> bool)
    requires CommitHashKey !in extra && CommitDatetimeKey !in extra
    ensures Validate(p.(qualifiers := p.qualifiers + extra), expectedDomain, datetimeParses).Accepted?
        <==> Validate(p, expectedDomain, datetimeParses).Accepted?
  {
    var q := p.qualifiers + extra;
    assert CommitHashKey in q <==> CommitHashKey in p.qualifiers;
    assert CommitDatetimeKey in q <==> CommitDatetimeKey in p.qualifiers;
    if QualifiersOk(p.qualifiers) {
      assert q[CommitHashKey] == p.qualifiers[CommitHashKey];
      assert q[CommitDatetimeKey] == p.qualifiers[CommitDatetimeKey];
    }
  }

  /**
   * A name built as `repository::branch` from two valid pieces passes the name checks,
   * provided the repository neither contains "::" nor ends with ':' (else Java's split
   * would cut it elsewhere) and the branch does not contain "::". Two pieces of the
   * maximum 256 characters each do not fit: the whole name is capped at 512.
   */
  lemma {:induction false} ComposedNameAccepted(repository: string, branch: string)
    requires NamePartOk(repository) && NamePartOk(branch)
    requires |repository| + |NameSeparator| + |branch| <= MaxNameLength
    requires !Contains(repository + ":", NameSeparator) && !Contains(branch, NameSeparator)
    ensures NameOk(repository + NameSeparator + branch)
  {
    var name := repository + NameSeparator + branch;
    assert branch != "";
    assert NameSeparator[..|NameSeparator| - 1] == ":";
    SplitOfJoinedPair(repository, branch, NameSeparator);
    assert OccursAt(name, NameSeparator, |repository|) by {
      assert name[|repository|..|repository| + 2] == NameSeparator;
    }
  }

  /** Java's split drops trailing empty pieces: "a::b::" still has exactly two pieces. */
  lemma TrailingSeparatorStillTwoPieces()
    ensures Split("a::b::", NameSeparator) == ["a", "b"]
  {
    var s := "a::b::";
    assert s[0..2][0] == 'a';
    assert OccursAt(s, NameSeparator, 1) && !OccursAt(s, NameSeparator, 0);
    assert IndexOf(s, NameSeparator) == Some(1);
    var t := s[3..];
    assert t == "b::";
    assert t[0..2][0] == 'b';
    assert OccursAt(t, NameSeparator, 1) && !OccursAt(t, NameSeparator, 0);
    assert IndexOf(t, NameSeparator) == Some(1);
    assert t[3..] == "";
    assert t[..1] == "b";
    assert RawSplit("", NameSeparator) == [""];
    assert RawSplit(t, NameSeparator) == ["b", ""];
    assert s[..1] == "a" && s[3..] == t;
    assert RawSplit(s, NameSeparator) == ["a", "b", ""];
  }

  /** A triple colon is cut at its first two colons: "a:::b" splits into "a" and ":b". */
  lemma TripleColonSplit()
    ensures Split("a:::b", NameSeparator) == ["a", ":b"]
  {
    var s := "a:::b";
    assert s[0..2][0] == 'a';
    assert OccursAt(s, NameSeparator, 1) && !OccursAt(s, NameSeparator, 0);
    assert IndexOf(s, NameSeparator) == Some(1);
    var t := s[3..];
    assert t == ":b";
    assert t[0..2][1] == 'b';
    assert forall j: nat :: !OccursAt(t, NameSeparator, j);
    assert s[..1] == "a";
    assert RawSplit(t, NameSeparator) == [":b"];
    assert RawSplit(s, NameSeparator) == ["a", ":b"];
  }
}
