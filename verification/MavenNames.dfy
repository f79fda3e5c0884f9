/**
 File names of the Maven adapter (crates/adapters/maven/src/publish.rs): which names are accepted,
 which file a checksum or signature is for, and where the bytes are kept.
 */
module MavenNames {
  import opened Common

  datatype ChecksumAlgorithm = Md5 | Sha1 | Sha256 | Sha512

  datatype Role =
    | Primary
    | Pom
    | Signature(target: string)
    | Checksum(target: string, algorithm: ChecksumAlgorithm)
  {
    function TargetFilename(): Option<string> {
      if Signature? || Checksum? then Some(target) else None
    }
  }

  datatype NameError =
    | EmptyName | PathSeparator | ControlCharacter
    | WrongCoordinates | MissingExtension | BadExtension | BadClassifier

  function StripPrefix(s: string, prefix: string): (r: Option<string>)
    ensures r.Some? ==> s == prefix + r.value
  {
    if prefix <= s then Some(s[|prefix|..]) else None
  }

  function StripSuffix(s: string, suffix: string): (r: Option<string>)
    ensures r.Some? ==> s == r.value + suffix
  {
    if |suffix| <= |s| && s[|s| - |suffix|..] == suffix then Some(s[..|s| - |suffix|]) else None
  }

  lemma StripsWhatWasAppended(t: string, suffix: string)
    ensures StripSuffix(t + suffix, suffix) == Some(t)
  {
    assert (t + suffix)[|t|..] == suffix && (t + suffix)[..|t|] == t;
  }

  // ---------------------------------------------------------------- classification

  function StripChecksumSuffix(f: string): Option<(string, ChecksumAlgorithm)> {
    if StripSuffix(f, ".md5").Some? then Some((StripSuffix(f, ".md5").value, Md5))
    else if StripSuffix(f, ".sha1").Some? then Some((StripSuffix(f, ".sha1").value, Sha1))
    else if StripSuffix(f, ".sha256").Some? then Some((StripSuffix(f, ".sha256").value, Sha256))
    else if StripSuffix(f, ".sha512").Some? then Some((StripSuffix(f, ".sha512").value, Sha512))
    else None
  }

  /** The White_Space property of Unicode. */
  predicate IsWhitespace(c: char) {
    var n := c as int;
    9 <= n <= 13 || n == 0x20 || n == 0x85 || n == 0xA0 || n == 0x1680 || 0x2000 <= n <= 0x200A
    || n == 0x2028 || n == 0x2029 || n == 0x202F || n == 0x205F || n == 0x3000
  }

  predicate IsControl(c: char) {
    var n := c as int;
    n <= 0x1F || 0x7F <= n <= 0x9F
  }

  /** Character by character: the 25 of White_Space, and the control characters of C0, DELETE and C1. */
  lemma CharactersListed(c: char)
    ensures IsWhitespace(c) <==> c as int in {
      0x9, 0xA, 0xB, 0xC, 0xD, 0x20, 0x85, 0xA0, 0x1680, 0x2000, 0x2001, 0x2002, 0x2003, 0x2004, 0x2005, 0x2006, 0x2007,
      0x2008, 0x2009, 0x200A, 0x2028, 0x2029, 0x202F, 0x205F, 0x3000}
    ensures IsControl(c) <==> c as int / 32 == 0 || c as int / 32 == 4 || c as int == 127
  {
  }

  function ValidateFilename(f: string): Option<NameError> {
    if forall i :: 0 <= i < |f| ==> IsWhitespace(f[i]) then Some(EmptyName)
    else if '/' in f || '\\' in f then Some(PathSeparator)
    else if exists i :: 0 <= i < |f| && IsControl(f[i]) then Some(ControlCharacter)
    else None
  }

  function ValidatePrimary(artifactId: string, version: string, f: string): Option<NameError> {
    var rest := StripPrefix(f, artifactId + "-" + version);
    if rest.None? then Some(WrongCoordinates)
    else if rest.value == "" then Some(MissingExtension)
    else if rest.value[0] == '.' then
      var extension := rest.value[1..];
      if extension == "" || extension[0] == '.' then Some(BadExtension) else None
    else if rest.value[0] == '-' then
      var classified := rest.value[1..];
      if classified == "" || '.' !in classified || classified[0] == '.' then Some(BadClassifier) else None
    else Some(BadExtension)
  }

  function Classify(artifactId: string, version: string, f: string): Result<Role, NameError> {
    var bad := ValidateFilename(f);
    if bad.Some? then Err(bad.value)
    else if StripChecksumSuffix(f).Some? then
      var (target, algorithm) := StripChecksumSuffix(f).value;
      var wrong := ValidatePrimary(artifactId, version, target);
      if wrong.Some? then Err(wrong.value) else Ok(Checksum(target, algorithm))
    else if StripSuffix(f, ".asc").Some? then
      var target := StripSuffix(f, ".asc").value;
      var wrong := ValidatePrimary(artifactId, version, target);
      if wrong.Some? then Err(wrong.value) else Ok(Signature(target))
    else
      var wrong := ValidatePrimary(artifactId, version, f);
      if wrong.Some? then Err(wrong.value)
      else if StripSuffix(f, ".pom").Some? then Ok(Pom)
      else Ok(Primary)
  }

  // ---------------------------------------------------------------- targets

  /** The file that a name is a checksum or signature of, by its last suffix alone. */
  function Target(f: string): (t: Option<string>)
    ensures t.Some? ==> |t.value| < |f|
  {
    if StripChecksumSuffix(f).Some? then Some(StripChecksumSuffix(f).value.0) else StripSuffix(f, ".asc")
  }

  /** Following targets to the end. */
  function RootFile(f: string): (root: string)
    ensures Target(root).None?
    decreases |f|
  {
    if Target(f).Some? then RootFile(Target(f).value) else f
  }

  /** The coordinates decide whether a name is accepted; what it is a checksum of, they do not. */
  lemma ClassifiedTarget(artifactId: string, version: string, f: string)
    requires Classify(artifactId, version, f).Ok?
    ensures Classify(artifactId, version, f).value.TargetFilename() == Target(f)
    ensures '/' !in f
  {
  }

  /**
   When the target of an accepted name can be uploaded itself: exactly if it is not a checksum or
   signature by its own suffix, or else what it is one of has the right coordinates as well.
   */
  lemma TargetUploadable(artifactId: string, version: string, f: string)
    requires Classify(artifactId, version, f).Ok? && Target(f).Some?
    ensures var t := Target(f).value;
      Classify(artifactId, version, t).Ok?
      <==> (Target(t).None? || FitsCoordinates(artifactId, version, Target(t).value))
  {
    var t := Target(f).value;
    TargetIsStart(f);
    assert ValidatePrimary(artifactId, version, t).None?;
    var k := |artifactId|;
    assert t[k] == (artifactId + "-" + version)[k] == '-';
    assert !IsWhitespace(t[k]);
    assert ValidateFilename(t).None?;
    if Target(t).Some? {
      PrimaryExactlyWhen(artifactId, version, Target(t).value);
    }
    hide ValidateFilename, ValidatePrimary, StripSuffix, FitsCoordinates;
  }

  lemma TargetIsStart(f: string)
    requires Target(f).Some?
    ensures Target(f).value <= f
  {
  }

  /**
   For any coordinates there are accepted names whose target no upload can ever bring: the target of
   `demo-1.0.md5.md5` passes as a primary name, but as an upload of its own it is a checksum of
   `demo-1.0`, which is refused.
   */
  lemma AcceptedWithUnacceptableTarget(artifactId: string, version: string)
    requires var base := artifactId + "-" + version; ValidateFilename(base + ".md5" + ".md5").None?
    ensures var base := artifactId + "-" + version;
      && Classify(artifactId, version, base + ".md5" + ".md5") == Ok(Checksum(base + ".md5", Md5))
      && Classify(artifactId, version, base + ".md5") == Err(MissingExtension)
  {
    var base := artifactId + "-" + version;
    StripsWhatWasAppended(base + ".md5", ".md5");
    StripsWhatWasAppended(base, ".md5");
    StartIsPlain(base + ".md5", ".md5", |artifactId|);
    assert base <= base + ".md5" && (base + ".md5")[|base|..] == ".md5" && ".md5"[1..] == "md5";
    assert base[|base|..] == "";
    hide ValidateFilename, StripSuffix;
  }

  /** A name that goes on acceptably is acceptable, unless it is blank. */
  lemma StartIsPlain(f: string, more: string, k: nat)
    requires ValidateFilename(f + more).None? && k < |f| && !IsWhitespace(f[k])
    ensures ValidateFilename(f).None?
  {
    assert forall i :: 0 <= i < |f| ==> (f + more)[i] == f[i];
  }

  // ---------------------------------------------------------------- which names are accepted

  /** `artifactId-version.extension`, or `artifactId-version-classifier.extension`. */
  ghost predicate FitsCoordinates(artifactId: string, version: string, f: string) {
    || (exists ext :: f == artifactId + "-" + version + "." + ext && ext != "" && ext[0] != '.')
    || (exists c :: f == artifactId + "-" + version + "-" + c && '.' in c && c[0] != '.')
  }

  function ChecksumSuffix(a: ChecksumAlgorithm): string {
    match a
    case Md5 => ".md5"
    case Sha1 => ".sha1"
    case Sha256 => ".sha256"
    case Sha512 => ".sha512"
  }

  predicate EndsWith(f: string, suffix: string) {
    |suffix| <= |f| && f[|f| - |suffix|..] == suffix
  }

  /** No checksum or signature by its own name. */
  predicate EndsPlainly(f: string) {
    !EndsWith(f, ".md5") && !EndsWith(f, ".sha1") && !EndsWith(f, ".sha256") && !EndsWith(f, ".sha512") && !EndsWith(f, ".asc")
  }

  lemma AfterPrefix(prefix: string, more: string)
    ensures StripPrefix(prefix + more, prefix) == Some(more)
  {
    assert (prefix + more)[|prefix|..] == more && prefix <= prefix + more;
  }

  /** A name that starts like the coordinates is told by what follows. */
  lemma PrimaryByRest(artifactId: string, version: string, rest: string)
    ensures var wrong := ValidatePrimary(artifactId, version, artifactId + "-" + version + rest);
      && (wrong.None? <==>
            || (rest != "" && rest[0] == '.' && rest[1..] != "" && rest[1..][0] != '.')
            || (rest != "" && rest[0] == '-' && '.' in rest[1..] && rest[1..][0] != '.'))
      && (wrong == Some(MissingExtension) <==> rest == "")
      && (wrong == Some(BadClassifier) <==> rest != "" && rest[0] == '-' && !('.' in rest[1..] && rest[1..][0] != '.'))
      && wrong != Some(WrongCoordinates)
  {
    AfterPrefix(artifactId + "-" + version, rest);
  }

  lemma FitsByRest(artifactId: string, version: string, rest: string)
    ensures FitsCoordinates(artifactId, version, artifactId + "-" + version + rest) <==>
      || (rest != "" && rest[0] == '.' && rest[1..] != "" && rest[1..][0] != '.')
      || (rest != "" && rest[0] == '-' && '.' in rest[1..] && rest[1..][0] != '.')
  {
    var base := artifactId + "-" + version;
    var f := base + rest;
    if rest != "" && rest[0] == '.' && rest[1..] != "" && rest[1..][0] != '.' {
      assert f == base + "." + rest[1..];
    }
    if rest != "" && rest[0] == '-' && '.' in rest[1..] && rest[1..][0] != '.' {
      assert f == base + "-" + rest[1..];
    }
    if ext :| f == base + "." + ext && ext != "" && ext[0] != '.' {
      assert f[|base|..] == rest && (base + "." + ext)[|base|..] == "." + ext;
      assert ("." + ext)[1..] == ext;
    }
    if c :| f == base + "-" + c && '.' in c && c[0] != '.' {
      assert f[|base|..] == rest && (base + "-" + c)[|base|..] == "-" + c;
      assert ("-" + c)[1..] == c;
    }
  }

  /** Without the right start no name fits. */
  lemma FitsStartsRight(artifactId: string, version: string, f: string)
    requires FitsCoordinates(artifactId, version, f)
    ensures artifactId + "-" + version <= f
  {
  }

  /** Exactly the names that fit the coordinates pass as primary names, and each other one has its error. */
  lemma PrimaryExactlyWhen(artifactId: string, version: string, f: string)
    ensures var base := artifactId + "-" + version; var wrong := ValidatePrimary(artifactId, version, f);
      && (wrong.None? <==> FitsCoordinates(artifactId, version, f))
      && (wrong == Some(WrongCoordinates) <==> !(base <= f))
      && (wrong == Some(MissingExtension) <==> f == base)
      && (wrong == Some(BadClassifier) <==> base + "-" <= f && !FitsCoordinates(artifactId, version, f))
      && (wrong.Some? ==> wrong.value in {WrongCoordinates, MissingExtension, BadClassifier, BadExtension})
  {
    var base := artifactId + "-" + version;
    if base <= f {
      var rest := f[|base|..];
      assert f == base + rest;
      PrimaryByRest(artifactId, version, rest);
      FitsByRest(artifactId, version, rest);
      assert base + "-" <= f <==> rest != "" && rest[0] == '-';
    } else {
      if FitsCoordinates(artifactId, version, f) {
        FitsStartsRight(artifactId, version, f);
      }
    }
  }

  lemma SuffixesDiffer(f: string, a: string, b: string)
    requires a != "" && b != "" && a[|a| - 1] != b[|b| - 1]
    ensures !(EndsWith(f, a) && EndsWith(f, b))
  {
    LastOfSuffix(f, a);
    LastOfSuffix(f, b);
  }

  lemma LastOfSuffix(f: string, suffix: string)
    requires suffix != ""
    ensures EndsWith(f, suffix) ==> f != "" && f[|f| - 1] == suffix[|suffix| - 1]
  {
    if EndsWith(f, suffix) {
      assert f[|f| - 1] == f[|f| - |suffix|..][|suffix| - 1];
    }
  }

  lemma AtMostOneSuffix(f: string)
    ensures EndsWith(f, ".md5") ==> !EndsWith(f, ".sha1") && !EndsWith(f, ".sha256") && !EndsWith(f, ".sha512") && !EndsWith(f, ".asc")
    ensures EndsWith(f, ".sha1") ==> !EndsWith(f, ".sha256") && !EndsWith(f, ".sha512") && !EndsWith(f, ".asc")
    ensures EndsWith(f, ".sha256") ==> !EndsWith(f, ".sha512") && !EndsWith(f, ".asc")
    ensures EndsWith(f, ".sha512") ==> !EndsWith(f, ".asc")
  {
    hide EndsWith;
    SuffixesDiffer(f, ".md5", ".sha1");
    SuffixesDiffer(f, ".md5", ".sha256");
    SuffixesDiffer(f, ".md5", ".sha512");
    SuffixesDiffer(f, ".md5", ".asc");
    SuffixesDiffer(f, ".sha1", ".sha256");
    SuffixesDiffer(f, ".sha1", ".sha512");
    SuffixesDiffer(f, ".sha1", ".asc");
    SuffixesDiffer(f, ".sha256", ".sha512");
    SuffixesDiffer(f, ".sha256", ".asc");
    SuffixesDiffer(f, ".sha512", ".asc");
  }

  lemma StripsTheSuffix(f: string, suffix: string, t: string)
    ensures StripSuffix(f, suffix) == Some(t) <==> f == t + suffix
    ensures StripSuffix(f, suffix).Some? <==> EndsWith(f, suffix)
  {
    if f == t + suffix {
      StripsWhatWasAppended(t, suffix);
    }
  }

  /** What a name may consist of. */
  predicate IsPlain(f: string) {
    && (exists i :: 0 <= i < |f| && !IsWhitespace(f[i]))
    && '/' !in f && '\\' !in f
    && (forall i :: 0 <= i < |f| ==> !IsControl(f[i]))
  }

  /** A checksum of `t`, exactly if the name is `t` with the algorithm's suffix and `t` fits the coordinates. */
  lemma ChecksumExactlyWhen(artifactId: string, version: string, f: string, t: string, a: ChecksumAlgorithm)
    ensures Classify(artifactId, version, f) == Ok(Checksum(t, a))
       <==> IsPlain(f) && f == t + ChecksumSuffix(a) && FitsCoordinates(artifactId, version, t)
  {
    AtMostOneSuffix(f);
    StripsTheSuffix(f, ".md5", t);
    StripsTheSuffix(f, ".sha1", t);
    StripsTheSuffix(f, ".sha256", t);
    StripsTheSuffix(f, ".sha512", t);
    PrimaryExactlyWhen(artifactId, version, t);
    hide IsWhitespace, IsControl, StripSuffix, ValidatePrimary, FitsCoordinates, EndsWith;
  }

  /** A signature of `t`, likewise. */
  lemma SignatureExactlyWhen(artifactId: string, version: string, f: string, t: string)
    ensures Classify(artifactId, version, f) == Ok(Signature(t))
       <==> IsPlain(f) && f == t + ".asc" && FitsCoordinates(artifactId, version, t)
  {
    AtMostOneSuffix(f);
    StripsTheSuffix(f, ".md5", t);
    StripsTheSuffix(f, ".sha1", t);
    StripsTheSuffix(f, ".sha256", t);
    StripsTheSuffix(f, ".sha512", t);
    StripsTheSuffix(f, ".asc", t);
    PrimaryExactlyWhen(artifactId, version, t);
    hide IsWhitespace, IsControl, StripSuffix, ValidatePrimary, FitsCoordinates, EndsWith;
  }

  /** A POM or another primary file, exactly if the name fits the coordinates itself. */
  lemma PrimaryFileExactlyWhen(artifactId: string, version: string, f: string)
    ensures Classify(artifactId, version, f) == Ok(Pom)
       <==> IsPlain(f) && EndsPlainly(f) && FitsCoordinates(artifactId, version, f) && EndsWith(f, ".pom")
    ensures Classify(artifactId, version, f) == Ok(Primary)
       <==> IsPlain(f) && EndsPlainly(f) && FitsCoordinates(artifactId, version, f) && !EndsWith(f, ".pom")
  {
    SuffixTests(f);
    PrimaryExactlyWhen(artifactId, version, f);
    hide IsWhitespace, IsControl, StripSuffix, ValidatePrimary, FitsCoordinates, EndsWith;
  }

  lemma SuffixTests(f: string)
    ensures StripChecksumSuffix(f).None? && StripSuffix(f, ".asc").None? <==> EndsPlainly(f)
    ensures StripSuffix(f, ".pom").Some? <==> EndsWith(f, ".pom")
  {
  }

  /**
   The errors: of the name itself first, and then of the name or of the one that it is a checksum or
   signature of.
   */
  lemma RefusedExactlyWhen(artifactId: string, version: string, f: string)
    ensures var r := Classify(artifactId, version, f); var base := artifactId + "-" + version; var subject := Target(f).GetOr(f);
      && (r == Err(EmptyName) <==> forall i :: 0 <= i < |f| ==> IsWhitespace(f[i]))
      && (r == Err(PathSeparator) <==> (exists i :: 0 <= i < |f| && !IsWhitespace(f[i])) && ('/' in f || '\\' in f))
      && (r == Err(ControlCharacter) <==>
            (exists i :: 0 <= i < |f| && !IsWhitespace(f[i])) && '/' !in f && '\\' !in f && exists i :: 0 <= i < |f| && IsControl(f[i]))
      && (r == Err(WrongCoordinates) <==> IsPlain(f) && !(base <= subject))
      && (r == Err(MissingExtension) <==> IsPlain(f) && subject == base)
      && (r == Err(BadClassifier) <==> IsPlain(f) && base + "-" <= subject && !FitsCoordinates(artifactId, version, subject))
      && (r == Err(BadExtension) <==>
            IsPlain(f) && base < subject && !(base + "-" <= subject) && !FitsCoordinates(artifactId, version, subject))
  {
    var subject := Target(f).GetOr(f);
    PrimaryExactlyWhen(artifactId, version, subject);
    ClassifiedBySubject(artifactId, version, f);
    hide Classify, ValidatePrimary, FitsCoordinates, IsWhitespace, IsControl, Target;
    assert subject == artifactId + "-" + version ==> !(artifactId + "-" + version + "-" <= subject);
  }

  lemma ClassifiedBySubject(artifactId: string, version: string, f: string)
    ensures var r := Classify(artifactId, version, f); var wrong := ValidatePrimary(artifactId, version, Target(f).GetOr(f));
      if ValidateFilename(f).Some? then r == Err(ValidateFilename(f).value)
      else if wrong.Some? then r == Err(wrong.value) else r.Ok?
  {
    hide ValidateFilename, ValidatePrimary, StripSuffix;
  }

  // ---------------------------------------------------------------- storage keys

  function StorageKey(release: string, sha256: string, filename: string): string {
    "releases/" + (release + ("/" + ("artifacts/" + (sha256 + ("/" + filename)))))
  }

  lemma SplitAtSlash(a: string, rest: string, b: string, rest': string)
    requires '/' !in a && '/' !in b && a + ("/" + rest) == b + ("/" + rest')
    ensures a == b && rest == rest'
  {
    var s, t := a + ("/" + rest), b + ("/" + rest');
    assert s[|a|] == '/' && t[|b|] == '/';
    assert |a| == |b|;
    assert s[..|a|] == a && t[..|b|] == b;
    assert s[|a| + 1..] == rest && t[|b| + 1..] == rest';
  }

  lemma DropCommonPrefix(p: string, a: string, b: string)
    requires p + a == p + b
    ensures a == b
  {
    assert (p + a)[|p|..] == a && (p + b)[|p|..] == b;
  }

  /** No two (release, digest, file name) triples share a key: ids and hex digests hold no slash. */
  lemma StorageKeyInjective(r: string, sha: string, f: string, r': string, sha': string, f': string)
    requires '/' !in r && '/' !in r' && '/' !in sha && '/' !in sha'
    requires StorageKey(r, sha, f) == StorageKey(r', sha', f')
    ensures r == r' && sha == sha' && f == f'
  {
    DropCommonPrefix("releases/", r + ("/" + ("artifacts/" + (sha + ("/" + f)))), r' + ("/" + ("artifacts/" + (sha' + ("/" + f')))));
    SplitAtSlash(r, "artifacts/" + (sha + ("/" + f)), r', "artifacts/" + (sha' + ("/" + f')));
    DropCommonPrefix("artifacts/", sha + ("/" + f), sha' + ("/" + f'));
    SplitAtSlash(sha, f, sha', f');
  }
}
