/**
 The Maven POM reader (crates/adapters/maven/src/publish.rs, `parse_pom_xml`): an event loop with a
 mutable stack of element names, related to a query on the document tree.
 */
module Pom {
  import opened Common
  import opened MavenNames
  import opened Texts

  /** What the XML reader delivers before the end of input.  Text is decoded, and empty when it does not decode. */
  datatype Event =
    | StartTag(name: string)
    | EmptyTag(name: string)
    | EndTag
    | TextEvent(content: string)
    | OtherEvent
    | Malformed

  datatype PomError = InvalidXml | MissingArtifactId | MissingGroupId | MissingVersion

  datatype ParsedPom = ParsedPom(
    groupId: string,
    artifactId: string,
    version: string,
    packaging: Option<string>,
    displayName: Option<string>,
    description: Option<string>,
    homepage: Option<string>,
    repositoryUrl: Option<string>,
    licenses: seq<string>)

  type Path = seq<string>

  const GROUP_ID: Path := ["project", "groupId"]
  const ARTIFACT_ID: Path := ["project", "artifactId"]
  const VERSION: Path := ["project", "version"]
  const PACKAGING: Path := ["project", "packaging"]
  const NAME: Path := ["project", "name"]
  const DESCRIPTION: Path := ["project", "description"]
  const URL: Path := ["project", "url"]
  const SCM_URL: Path := ["project", "scm", "url"]
  const LICENSE_NAME: Path := ["project", "licenses", "license", "name"]
  const PARENT_GROUP_ID: Path := ["project", "parent", "groupId"]
  const PARENT_VERSION: Path := ["project", "parent", "version"]

  // The paths as the loop compares them.
  const GROUP_ID_TEXT := "project/groupId"
  const ARTIFACT_ID_TEXT := "project/artifactId"
  const VERSION_TEXT := "project/version"
  const PACKAGING_TEXT := "project/packaging"
  const NAME_TEXT := "project/name"
  const DESCRIPTION_TEXT := "project/description"
  const URL_TEXT := "project/url"
  const SCM_URL_TEXT := "project/scm/url"
  const LICENSE_NAME_TEXT := "project/licenses/license/name"
  const PARENT_GROUP_ID_TEXT := "project/parent/groupId"
  const PARENT_VERSION_TEXT := "project/parent/version"

  const WHITE: CharClass := c => IsWhitespace(c)

  function Trimmed(s: string): string {
    Trim(WHITE, s)
  }

  /** `local_name_str`: what follows the last colon. */
  function LocalName(name: string): (local: string)
    ensures ':' !in local
    ensures |local| <= |name| && local == name[|name| - |local|..]
    ensures |local| < |name| ==> name[|name| - |local| - 1] == ':'
  {
    if name == "" || name[|name| - 1] == ':' then ""
    else LocalName(name[..|name| - 1]) + [name[|name| - 1]]
  }

  function Joined(path: Path): string {
    if path == [] then ""
    else if |path| == 1 then path[0]
    else path[0] + ("/" + Joined(path[1..]))
  }

  function AsciiLower(s: string): string {
    seq(|s|, i requires 0 <= i < |s| => if 'A' <= s[i] <= 'Z' then (s[i] as int + 32) as char else s[i])
  }

  // ---------------------------------------------------------------- what a path reads

  function StackAfter(stack: Path, e: Event): Path {
    match e
    case StartTag(name) => stack + [LocalName(name)]
    case EndTag => if stack == [] then [] else stack[..|stack| - 1]
    case _ => stack
  }

  function TextHere(stack: Path, e: Event, path: string): seq<string> {
    if e.TextEvent? && Trimmed(e.content) != "" && Joined(stack) == path then [Trimmed(e.content)] else []
  }

  /** The non-blank texts met, in order, while the joined stack reads `path`. */
  function TextsMet(events: seq<Event>, stack: Path, path: string): seq<string> {
    if events == [] then []
    else TextHere(stack, events[0], path) + TextsMet(events[1..], StackAfter(stack, events[0]), path)
  }

  function Last(texts: seq<string>): Option<string> {
    if texts == [] then None else Some(texts[|texts| - 1])
  }

  function Or(a: Option<string>, b: Option<string>): Option<string> {
    if a.Some? then a else b
  }

  /** A POM made of the texts found at each path: the last one counts, and the parent stands in. */
  function Assemble(at: Path -> seq<string>): Result<ParsedPom, PomError> {
    var artifactId := Last(at(ARTIFACT_ID));
    var groupId := Or(Last(at(GROUP_ID)), Last(at(PARENT_GROUP_ID)));
    var version := Or(Last(at(VERSION)), Last(at(PARENT_VERSION)));
    if artifactId.None? then Err(MissingArtifactId)
    else if groupId.None? then Err(MissingGroupId)
    else if version.None? then Err(MissingVersion)
    else Ok(ParsedPom(groupId.value, artifactId.value, version.value,
                      Last(at(PACKAGING)), Last(at(NAME)), Last(at(DESCRIPTION)), Last(at(URL)), Last(at(SCM_URL)),
                      FirstSpellings(WHITE, AsciiLower, at(LICENSE_NAME))))
  }

  /** What the reader makes of any sequence of events. */
  function Interpretation(events: seq<Event>): Result<ParsedPom, PomError> {
    if Malformed in events then Err(InvalidXml)
    else Assemble(path => TextsMet(events, [], Joined(path)))
  }

  // ---------------------------------------------------------------- the loop

  datatype Fields = Fields(
    groupId: Option<string>, artifactId: Option<string>, version: Option<string>,
    parentGroupId: Option<string>, parentVersion: Option<string>,
    packaging: Option<string>, displayName: Option<string>, description: Option<string>,
    homepage: Option<string>, repositoryUrl: Option<string>, licenses: seq<string>)

  /** The value so far, followed by what the remaining events bring, is what the whole input brings. */
  predicate Reads(soFar: Option<string>, events: seq<Event>, i: nat, stack: Path, path: Path)
    requires i <= |events|
  {
    Or(Last(TextsMet(events[i..], stack, Joined(path))), soFar) == Last(TextsMet(events, [], Joined(path)))
  }

  predicate ReadsAll(f: Fields, events: seq<Event>, i: nat, stack: Path)
    requires i <= |events|
  {
    && Reads(f.groupId, events, i, stack, GROUP_ID)
    && Reads(f.artifactId, events, i, stack, ARTIFACT_ID)
    && Reads(f.version, events, i, stack, VERSION)
    && Reads(f.parentGroupId, events, i, stack, PARENT_GROUP_ID)
    && Reads(f.parentVersion, events, i, stack, PARENT_VERSION)
    && Reads(f.packaging, events, i, stack, PACKAGING)
    && Reads(f.displayName, events, i, stack, NAME)
    && Reads(f.description, events, i, stack, DESCRIPTION)
    && Reads(f.homepage, events, i, stack, URL)
    && Reads(f.repositoryUrl, events, i, stack, SCM_URL)
    && ReadsLicenses(f.licenses, events, i, stack)
  }

  predicate ReadsLicenses(soFar: seq<string>, events: seq<Event>, i: nat, stack: Path)
    requires i <= |events|
  {
    soFar + TextsMet(events[i..], stack, Joined(LICENSE_NAME)) == TextsMet(events, [], Joined(LICENSE_NAME))
  }

  function Stored(stack: Path, e: Event, path: Path, soFar: Option<string>): Option<string> {
    Or(Last(TextHere(stack, e, Joined(path))), soFar)
  }

  function StoredLicenses(stack: Path, e: Event, soFar: seq<string>): seq<string> {
    soFar + TextHere(stack, e, Joined(LICENSE_NAME))
  }

  function StoredAll(f: Fields, stack: Path, e: Event): Fields {
    Fields(
      Stored(stack, e, GROUP_ID, f.groupId), Stored(stack, e, ARTIFACT_ID, f.artifactId),
      Stored(stack, e, VERSION, f.version), Stored(stack, e, PARENT_GROUP_ID, f.parentGroupId),
      Stored(stack, e, PARENT_VERSION, f.parentVersion), Stored(stack, e, PACKAGING, f.packaging),
      Stored(stack, e, NAME, f.displayName), Stored(stack, e, DESCRIPTION, f.description),
      Stored(stack, e, URL, f.homepage), Stored(stack, e, SCM_URL, f.repositoryUrl),
      StoredLicenses(stack, e, f.licenses))
  }

  lemma TextsMetNext(events: seq<Event>, i: nat, stack: Path, path: string)
    requires i < |events|
    ensures TextsMet(events[i..], stack, path)
         == TextHere(stack, events[i], path) + TextsMet(events[i + 1..], StackAfter(stack, events[i]), path)
  {
    assert events[i..][0] == events[i] && events[i..][1..] == events[i + 1..];
  }

  lemma ReadsNext(soFar: Option<string>, events: seq<Event>, i: nat, stack: Path, path: Path)
    requires i < |events| && Reads(soFar, events, i, stack, path)
    ensures Reads(Stored(stack, events[i], path, soFar), events, i + 1, StackAfter(stack, events[i]), path)
  {
    TextsMetNext(events, i, stack, Joined(path));
  }

  lemma ReadsLicensesNext(soFar: seq<string>, events: seq<Event>, i: nat, stack: Path)
    requires i < |events| && ReadsLicenses(soFar, events, i, stack)
    ensures ReadsLicenses(StoredLicenses(stack, events[i], soFar), events, i + 1, StackAfter(stack, events[i]))
  {
    hide Joined, StackAfter, TextHere;
    TextsMetNext(events, i, stack, Joined(LICENSE_NAME));
  }

  lemma ReadsAllNext(f: Fields, events: seq<Event>, i: nat, stack: Path)
    requires i < |events| && ReadsAll(f, events, i, stack)
    ensures ReadsAll(StoredAll(f, stack, events[i]), events, i + 1, StackAfter(stack, events[i]))
  {
    hide Reads, ReadsLicenses, Stored, StoredLicenses, TextHere, TextsMet, StackAfter, Joined;
    ReadsLicensesNext(f.licenses, events, i, stack);
    ReadsNext(f.groupId, events, i, stack, GROUP_ID);
    ReadsNext(f.artifactId, events, i, stack, ARTIFACT_ID);
    ReadsNext(f.version, events, i, stack, VERSION);
    ReadsNext(f.parentGroupId, events, i, stack, PARENT_GROUP_ID);
    ReadsNext(f.parentVersion, events, i, stack, PARENT_VERSION);
    ReadsNext(f.packaging, events, i, stack, PACKAGING);
    ReadsNext(f.displayName, events, i, stack, NAME);
    ReadsNext(f.description, events, i, stack, DESCRIPTION);
    ReadsNext(f.homepage, events, i, stack, URL);
    ReadsNext(f.repositoryUrl, events, i, stack, SCM_URL);
  }

  lemma JoinedPaths()
    ensures Joined(GROUP_ID) == GROUP_ID_TEXT && Joined(ARTIFACT_ID) == ARTIFACT_ID_TEXT
    ensures Joined(VERSION) == VERSION_TEXT && Joined(PACKAGING) == PACKAGING_TEXT
    ensures Joined(NAME) == NAME_TEXT && Joined(DESCRIPTION) == DESCRIPTION_TEXT
    ensures Joined(URL) == URL_TEXT && Joined(SCM_URL) == SCM_URL_TEXT
    ensures Joined(LICENSE_NAME) == LICENSE_NAME_TEXT
    ensures Joined(PARENT_GROUP_ID) == PARENT_GROUP_ID_TEXT && Joined(PARENT_VERSION) == PARENT_VERSION_TEXT
  {
    hide Joined;
    JoinedCoordinates();
    JoinedDetails();
    JoinedDeep();
  }

  lemma JoinedCoordinates()
    ensures Joined(GROUP_ID) == GROUP_ID_TEXT && Joined(ARTIFACT_ID) == ARTIFACT_ID_TEXT
    ensures Joined(VERSION) == VERSION_TEXT && Joined(PACKAGING) == PACKAGING_TEXT
  {
    hide Joined;
    Joined2("project", "groupId"); Joined2("project", "artifactId"); Joined2("project", "version"); Joined2("project", "packaging");
  }

  lemma JoinedDetails()
    ensures Joined(NAME) == NAME_TEXT && Joined(DESCRIPTION) == DESCRIPTION_TEXT && Joined(URL) == URL_TEXT
  {
    hide Joined;
    Joined2("project", "name"); Joined2("project", "description"); Joined2("project", "url");
  }

  lemma JoinedDeep()
    ensures Joined(SCM_URL) == SCM_URL_TEXT
    ensures Joined(LICENSE_NAME) == LICENSE_NAME_TEXT
    ensures Joined(PARENT_GROUP_ID) == PARENT_GROUP_ID_TEXT && Joined(PARENT_VERSION) == PARENT_VERSION_TEXT
  {
    hide Joined;
    Joined3("project", "scm", "url"); Joined3("project", "parent", "groupId"); Joined3("project", "parent", "version");
    Joined3("licenses", "license", "name");
    JoinedMore("project", ["licenses", "license", "name"]);
    assert ["project"] + ["licenses", "license", "name"] == LICENSE_NAME;
  }

  lemma JoinedMore(a: string, rest: Path)
    requires rest != []
    ensures Joined([a] + rest) == a + ("/" + Joined(rest))
  {
    assert ([a] + rest)[1..] == rest;
  }

  lemma Joined3(a: string, b: string, c: string)
    ensures Joined([a, b, c]) == a + ("/" + (b + ("/" + c)))
  {
    Joined2(b, c);
    assert [a, b, c][1..] == [b, c];
  }

  lemma ReadsAllAtStart(events: seq<Event>)
    ensures ReadsAll(Fields(None, None, None, None, None, None, None, None, None, None, []), events, 0, [])
  {
    assert events[0..] == events;
  }

  lemma StackMoves(stack: Path, e: Event)
    ensures e.StartTag? ==> StackAfter(stack, e) == stack + [LocalName(e.name)]
    ensures e.EndTag? ==> StackAfter(stack, e) == if stack == [] then [] else stack[..|stack| - 1]
    ensures !e.StartTag? && !e.EndTag? ==> StackAfter(stack, e) == stack
  {
  }

  lemma StoredNothing(f: Fields, stack: Path, e: Event)
    requires e.TextEvent? ==> Trimmed(e.content) == ""
    ensures StoredAll(f, stack, e) == f
  {
    hide Trimmed, Joined;
    assert forall path :: TextHere(stack, e, path) == [];
  }

  /** The last of the texts met at `path`, which the code trims once more. */
  lemma {:induction false} LastIsTrimmed(events: seq<Event>, stack: Path, path: string)
    ensures NormalizeOptionalField(Last(TextsMet(events, stack, path))) == Last(TextsMet(events, stack, path))
  {
    if events != [] {
      LastIsTrimmed(events[1..], StackAfter(stack, events[0]), path);
      if events[0].TextEvent? {
        TrimTwice(WHITE, events[0].content);
      }
    }
  }

  function FieldsOf(events: seq<Event>): Fields {
    Fields(
      Last(TextsMet(events, [], Joined(GROUP_ID))), Last(TextsMet(events, [], Joined(ARTIFACT_ID))),
      Last(TextsMet(events, [], Joined(VERSION))), Last(TextsMet(events, [], Joined(PARENT_GROUP_ID))),
      Last(TextsMet(events, [], Joined(PARENT_VERSION))), Last(TextsMet(events, [], Joined(PACKAGING))),
      Last(TextsMet(events, [], Joined(NAME))), Last(TextsMet(events, [], Joined(DESCRIPTION))),
      Last(TextsMet(events, [], Joined(URL))), Last(TextsMet(events, [], Joined(SCM_URL))),
      TextsMet(events, [], Joined(LICENSE_NAME)))
  }

  lemma ReadsAllAtEnd(f: Fields, events: seq<Event>, stack: Path)
    requires ReadsAll(f, events, |events|, stack)
    ensures f == FieldsOf(events)
  {
    hide Joined, TextHere, StackAfter;
  }

  function StoreAt(f: Fields, path: string, text: string): Fields {
    if path == GROUP_ID_TEXT then f.(groupId := Some(text))
    else if path == ARTIFACT_ID_TEXT then f.(artifactId := Some(text))
    else if path == VERSION_TEXT then f.(version := Some(text))
    else if path == PACKAGING_TEXT then f.(packaging := Some(text))
    else if path == NAME_TEXT then f.(displayName := Some(text))
    else if path == DESCRIPTION_TEXT then f.(description := Some(text))
    else if path == URL_TEXT then f.(homepage := Some(text))
    else if path == SCM_URL_TEXT then f.(repositoryUrl := Some(text))
    else if path == LICENSE_NAME_TEXT then f.(licenses := f.licenses + [text])
    else if path == PARENT_GROUP_ID_TEXT then f.(parentGroupId := Some(text))
    else if path == PARENT_VERSION_TEXT then f.(parentVersion := Some(text))
    else f
  }

  lemma StoredHere(stack: Path, content: string, path: Path, text: string, soFar: Option<string>)
    requires Trimmed(content) != "" && Joined(path) == text
    ensures Stored(stack, TextEvent(content), path, soFar) == if Joined(stack) == text then Some(Trimmed(content)) else soFar
  {
  }

  lemma LicenseStoredHere(stack: Path, content: string, soFar: seq<string>)
    requires Trimmed(content) != "" && Joined(LICENSE_NAME) == LICENSE_NAME_TEXT
    ensures StoredLicenses(stack, TextEvent(content), soFar)
         == if Joined(stack) == LICENSE_NAME_TEXT then soFar + [Trimmed(content)] else soFar
  {
    hide LICENSE_NAME, LICENSE_NAME_TEXT, Joined, Trimmed;
  }

  /** No two of the paths are the same text. */
  lemma DistinctPaths()
    ensures |GROUP_ID_TEXT| == 15 && GROUP_ID_TEXT[8] == 'g'
    ensures |ARTIFACT_ID_TEXT| == 18
    ensures |VERSION_TEXT| == 15 && VERSION_TEXT[8] == 'v'
    ensures |PACKAGING_TEXT| == 17
    ensures |NAME_TEXT| == 12
    ensures |DESCRIPTION_TEXT| == 19
    ensures |URL_TEXT| == 11
    ensures |SCM_URL_TEXT| == 15 && SCM_URL_TEXT[8] == 's'
    ensures |LICENSE_NAME_TEXT| == 29
    ensures |PARENT_GROUP_ID_TEXT| == 22 && PARENT_GROUP_ID_TEXT[15] == 'g'
    ensures |PARENT_VERSION_TEXT| == 22 && PARENT_VERSION_TEXT[15] == 'v'
  {
  }

  /** The path comparisons of the loop store a text where the paths say. */
  lemma StoredText(f: Fields, stack: Path, content: string)
    requires Trimmed(content) != ""
    ensures var path := Joined(stack); var text := Trimmed(content);
      StoredAll(f, stack, TextEvent(content)) == StoreAt(f, path, text)
  {
    hide Joined, Trimmed, TextHere, Stored, StoredLicenses,
      GROUP_ID_TEXT, ARTIFACT_ID_TEXT, VERSION_TEXT, PARENT_GROUP_ID_TEXT, PARENT_VERSION_TEXT, PACKAGING_TEXT, NAME_TEXT, DESCRIPTION_TEXT, URL_TEXT, SCM_URL_TEXT, LICENSE_NAME_TEXT,
      GROUP_ID, ARTIFACT_ID, VERSION, PARENT_GROUP_ID, PARENT_VERSION, PACKAGING, NAME, DESCRIPTION, URL, SCM_URL, LICENSE_NAME;
    JoinedPaths();
    DistinctPaths();
    StoredHere(stack, content, GROUP_ID, GROUP_ID_TEXT, f.groupId);
    StoredHere(stack, content, ARTIFACT_ID, ARTIFACT_ID_TEXT, f.artifactId);
    StoredHere(stack, content, VERSION, VERSION_TEXT, f.version);
    StoredHere(stack, content, PARENT_GROUP_ID, PARENT_GROUP_ID_TEXT, f.parentGroupId);
    StoredHere(stack, content, PARENT_VERSION, PARENT_VERSION_TEXT, f.parentVersion);
    StoredHere(stack, content, PACKAGING, PACKAGING_TEXT, f.packaging);
    StoredHere(stack, content, NAME, NAME_TEXT, f.displayName);
    StoredHere(stack, content, DESCRIPTION, DESCRIPTION_TEXT, f.description);
    StoredHere(stack, content, URL, URL_TEXT, f.homepage);
    StoredHere(stack, content, SCM_URL, SCM_URL_TEXT, f.repositoryUrl);
    LicenseStoredHere(stack, content, f.licenses);
  }

  lemma InterpretationOf(events: seq<Event>)
    requires Malformed !in events
    ensures var f := FieldsOf(events);
      Interpretation(events) ==
        if f.artifactId.None? then Err(MissingArtifactId)
        else if Or(f.groupId, f.parentGroupId).None? then Err(MissingGroupId)
        else if Or(f.version, f.parentVersion).None? then Err(MissingVersion)
        else Ok(ParsedPom(Or(f.groupId, f.parentGroupId).value, f.artifactId.value, Or(f.version, f.parentVersion).value,
                          NormalizeOptionalField(f.packaging), NormalizeOptionalField(f.displayName),
                          NormalizeOptionalField(f.description), NormalizeOptionalField(f.homepage),
                          NormalizeOptionalField(f.repositoryUrl), FirstSpellings(WHITE, AsciiLower, f.licenses)))
  {
    hide Joined, TextsMet, NormalizeOptionalField, FirstSpellings;
    LastIsTrimmed(events, [], Joined(PACKAGING));
    LastIsTrimmed(events, [], Joined(NAME));
    LastIsTrimmed(events, [], Joined(DESCRIPTION));
    LastIsTrimmed(events, [], Joined(URL));
    LastIsTrimmed(events, [], Joined(SCM_URL));
  }

  lemma Joined2(a: string, b: string)
    ensures Joined([a, b]) == a + ("/" + b)
  {
    assert [a, b][1..] == [b];
  }

  lemma NoSpellings()
    ensures FirstSpellings(WHITE, AsciiLower, []) == []
  {
  }

  method NormalizeStringList(values: seq<string>) returns (normalized: seq<string>)
    ensures normalized == FirstSpellings(WHITE, AsciiLower, values)
    ensures Normalized(WHITE, AsciiLower, normalized)
  {
    hide FirstSpellings, Known, Normalized, Trim, AsciiLower;
    FirstSpellingsNormalized(WHITE, AsciiLower, values);
    NoSpellings();
    normalized := [];
    for i := 0 to |values|
      invariant normalized == FirstSpellings(WHITE, AsciiLower, values[..i])
    {
      FirstSpellingsNext(WHITE, AsciiLower, values, i);
      var trimmed := Trimmed(values[i]);
      if trimmed == "" {
        continue;
      }
      if Known(AsciiLower, normalized, trimmed) {
        continue;
      }
      normalized := normalized + [trimmed];
    }
    assert values[..|values|] == values;
  }

  function NormalizeOptionalField(value: Option<string>): Option<string> {
    if value.Some? && Trimmed(value.value) != "" then Some(Trimmed(value.value)) else None
  }

  method ParsePomXml(events: seq<Event>) returns (r: Result<ParsedPom, PomError>)
    ensures r == Interpretation(events)
  {
    hide ReadsAll, StoredAll, StackAfter, Joined, Trimmed, Assemble, NormalizeOptionalField, FieldsOf, TextsMet;
    hide GROUP_ID_TEXT, ARTIFACT_ID_TEXT, VERSION_TEXT, PARENT_GROUP_ID_TEXT, PARENT_VERSION_TEXT, PACKAGING_TEXT, NAME_TEXT, DESCRIPTION_TEXT, URL_TEXT, SCM_URL_TEXT, LICENSE_NAME_TEXT,
      GROUP_ID, ARTIFACT_ID, VERSION, PARENT_GROUP_ID, PARENT_VERSION, PACKAGING, NAME, DESCRIPTION, URL, SCM_URL, LICENSE_NAME;
    var stack: Path := [];
    var groupId, artifactId, version: Option<string> := None, None, None;
    var parentGroupId, parentVersion: Option<string> := None, None;
    var packaging, displayName, description: Option<string> := None, None, None;
    var homepage, repositoryUrl: Option<string> := None, None;
    var licenses: seq<string> := [];
    ReadsAllAtStart(events);
    for i := 0 to |events|
      invariant ReadsAll(Fields(groupId, artifactId, version, parentGroupId, parentVersion, packaging, displayName,
                                description, homepage, repositoryUrl, licenses), events, i, stack)
      invariant Malformed !in events[..i]
    {
      ghost var before := Fields(groupId, artifactId, version, parentGroupId, parentVersion, packaging, displayName,
                                 description, homepage, repositoryUrl, licenses);
      ghost var was := stack;
      ReadsAllNext(before, events, i, stack);
      StackMoves(stack, events[i]);
      match events[i]
      case StartTag(name) =>
        StoredNothing(before, was, events[i]);
        stack := stack + [LocalName(name)];
      case EmptyTag(name) =>
        StoredNothing(before, was, events[i]);
        stack := stack + [LocalName(name)];
        stack := stack[..|stack| - 1];
      case TextEvent(content) =>
        var text := Trimmed(content);
        if text == "" {
          StoredNothing(before, was, events[i]);
          continue;
        }
        var path := Joined(stack);
        if path == GROUP_ID_TEXT { groupId := Some(text); }
        else if path == ARTIFACT_ID_TEXT { artifactId := Some(text); }
        else if path == VERSION_TEXT { version := Some(text); }
        else if path == PACKAGING_TEXT { packaging := Some(text); }
        else if path == NAME_TEXT { displayName := Some(text); }
        else if path == DESCRIPTION_TEXT { description := Some(text); }
        else if path == URL_TEXT { homepage := Some(text); }
        else if path == SCM_URL_TEXT { repositoryUrl := Some(text); }
        else if path == LICENSE_NAME_TEXT { licenses := licenses + [text]; }
        else if path == PARENT_GROUP_ID_TEXT { parentGroupId := Some(text); }
        else if path == PARENT_VERSION_TEXT { parentVersion := Some(text); }
        StoredText(before, was, content);
      case EndTag =>
        StoredNothing(before, was, events[i]);
        if stack != [] {
          stack := stack[..|stack| - 1];
        }
      case OtherEvent =>
        StoredNothing(before, was, events[i]);
      case Malformed =>
        return Err(InvalidXml);
    }
    ReadsAllAtEnd(Fields(groupId, artifactId, version, parentGroupId, parentVersion, packaging, displayName,
                         description, homepage, repositoryUrl, licenses), events, stack);
    assert events[..|events|] == events;
    InterpretationOf(events);
    if artifactId.None? {
      return Err(MissingArtifactId);
    }
    groupId := Or(groupId, parentGroupId);
    if groupId.None? {
      return Err(MissingGroupId);
    }
    version := Or(version, parentVersion);
    if version.None? {
      return Err(MissingVersion);
    }
    var normalized := NormalizeStringList(licenses);
    r := Ok(ParsedPom(groupId.value, artifactId.value, version.value,
                      NormalizeOptionalField(packaging), NormalizeOptionalField(displayName),
                      NormalizeOptionalField(description), NormalizeOptionalField(homepage),
                      NormalizeOptionalField(repositoryUrl), normalized));
  }
}
