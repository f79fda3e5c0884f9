/**
 Where each field of a POM comes from (crates/adapters/maven/src/publish.rs, `parse_pom_xml`), path by path:
 for any sequence of events, and for documents.
 */
module PomFields {
  import opened Common
  import opened MavenNames
  import opened Texts
  import opened Pom
  import opened PomTree

  /** The last of `texts`, or else the last of `otherwise`. */
  function LastOf(texts: seq<string>, otherwise: seq<string>): (r: Option<string>)
    ensures texts != [] ==> r == Some(texts[|texts| - 1])
    ensures texts == [] && otherwise != [] ==> r == Some(otherwise[|otherwise| - 1])
    ensures texts == [] && otherwise == [] ==> r == None
  {
    Or(Last(texts), Last(otherwise))
  }

  // ---------------------------------------------------------------- any sequence of events

  lemma PathTexts()
    ensures Joined(["project", "groupId"]) == "project/groupId" && Joined(["project", "artifactId"]) == "project/artifactId"
    ensures Joined(["project", "version"]) == "project/version" && Joined(["project", "packaging"]) == "project/packaging"
    ensures Joined(["project", "name"]) == "project/name" && Joined(["project", "description"]) == "project/description"
    ensures Joined(["project", "url"]) == "project/url" && Joined(["project", "scm", "url"]) == "project/scm/url"
    ensures Joined(["project", "licenses", "license", "name"]) == "project/licenses/license/name"
    ensures Joined(["project", "parent", "groupId"]) == "project/parent/groupId"
    ensures Joined(["project", "parent", "version"]) == "project/parent/version"
  {
    hide Joined;
    JoinedPaths();
  }

  /**
   For every sequence of events: which error comes when.  The parent stands in for a missing group id and
   for a missing version, not for a missing artifact id.
   */
  lemma ReaderErrors(events: seq<Event>)
    ensures var r := Interpretation(events);
      && (r == Err(InvalidXml) <==> Malformed in events)
      && (r == Err(MissingArtifactId) <==> Malformed !in events && TextsMet(events, [], "project/artifactId") == [])
      && (r == Err(MissingGroupId) <==>
            && Malformed !in events && TextsMet(events, [], "project/artifactId") != []
            && TextsMet(events, [], "project/groupId") == [] && TextsMet(events, [], "project/parent/groupId") == [])
      && (r == Err(MissingVersion) <==>
            && Malformed !in events && TextsMet(events, [], "project/artifactId") != []
            && (TextsMet(events, [], "project/groupId") != [] || TextsMet(events, [], "project/parent/groupId") != [])
            && TextsMet(events, [], "project/version") == [] && TextsMet(events, [], "project/parent/version") == [])
  {
    hide Joined, TextsMet, FirstSpellings;
    PathTexts();
  }

  /** For every sequence of events that is read: which text each field has. */
  lemma ReaderFields(events: seq<Event>)
    requires Interpretation(events).Ok?
    ensures var pom := Interpretation(events).value;
      && Some(pom.groupId) == LastOf(TextsMet(events, [], "project/groupId"), TextsMet(events, [], "project/parent/groupId"))
      && Some(pom.artifactId) == LastOf(TextsMet(events, [], "project/artifactId"), [])
      && Some(pom.version) == LastOf(TextsMet(events, [], "project/version"), TextsMet(events, [], "project/parent/version"))
      && pom.packaging == LastOf(TextsMet(events, [], "project/packaging"), [])
      && pom.displayName == LastOf(TextsMet(events, [], "project/name"), [])
      && pom.description == LastOf(TextsMet(events, [], "project/description"), [])
      && pom.homepage == LastOf(TextsMet(events, [], "project/url"), [])
      && pom.repositoryUrl == LastOf(TextsMet(events, [], "project/scm/url"), [])
      && pom.licenses == FirstSpellings(WHITE, AsciiLower, TextsMet(events, [], "project/licenses/license/name"))
  {
    hide Joined, TextsMet, FirstSpellings;
    PathTexts();
  }

  /** Licenses are the same if only the case of ASCII letters differs. */
  lemma LettersLowered(s: string, i: nat)
    requires i < |s|
    ensures |AsciiLower(s)| == |s|
    ensures forall k :: 0 <= k < 26 && s[i] == "ABCDEFGHIJKLMNOPQRSTUVWXYZ"[k] ==> AsciiLower(s)[i] == "abcdefghijklmnopqrstuvwxyz"[k]
    ensures s[i] !in "ABCDEFGHIJKLMNOPQRSTUVWXYZ" ==> AsciiLower(s)[i] == s[i]
  {
    var upper := "ABCDEFGHIJKLMNOPQRSTUVWXYZ";
    if 'A' <= s[i] <= 'Z' {
      assert upper[s[i] as int - 'A' as int] == s[i];
    }
  }

  // ---------------------------------------------------------------- documents

  /** The same of the texts in a document's elements, for the query on the tree. */
  lemma DocumentErrors(document: Forest)
    ensures var r := FromDocument(document);
      && r != Err(InvalidXml)
      && (r == Err(MissingArtifactId) <==> TextsAt(document, ["project", "artifactId"]) == [])
      && (r == Err(MissingGroupId) <==>
            && TextsAt(document, ["project", "artifactId"]) != []
            && TextsAt(document, ["project", "groupId"]) == [] && TextsAt(document, ["project", "parent", "groupId"]) == [])
      && (r == Err(MissingVersion) <==>
            && TextsAt(document, ["project", "artifactId"]) != []
            && (TextsAt(document, ["project", "groupId"]) != [] || TextsAt(document, ["project", "parent", "groupId"]) != [])
            && TextsAt(document, ["project", "version"]) == [] && TextsAt(document, ["project", "parent", "version"]) == [])
  {
    hide TextsAt, FirstSpellings;
  }

  lemma DocumentFields(document: Forest)
    requires FromDocument(document).Ok?
    ensures var pom := FromDocument(document).value;
      && Some(pom.groupId) == LastOf(TextsAt(document, ["project", "groupId"]), TextsAt(document, ["project", "parent", "groupId"]))
      && Some(pom.artifactId) == LastOf(TextsAt(document, ["project", "artifactId"]), [])
      && Some(pom.version) == LastOf(TextsAt(document, ["project", "version"]), TextsAt(document, ["project", "parent", "version"]))
      && pom.packaging == LastOf(TextsAt(document, ["project", "packaging"]), [])
      && pom.displayName == LastOf(TextsAt(document, ["project", "name"]), [])
      && pom.description == LastOf(TextsAt(document, ["project", "description"]), [])
      && pom.homepage == LastOf(TextsAt(document, ["project", "url"]), [])
      && pom.repositoryUrl == LastOf(TextsAt(document, ["project", "scm", "url"]), [])
      && pom.licenses == FirstSpellings(WHITE, AsciiLower, TextsAt(document, ["project", "licenses", "license", "name"]))
  {
    hide TextsAt, FirstSpellings;
  }

  lemma KnownErrors(r: Result<ParsedPom, PomError>)
    ensures r.Ok? || r == Err(InvalidXml) || r == Err(MissingArtifactId) || r == Err(MissingGroupId) || r == Err(MissingVersion)
  {
    if r.Err? {
      match r.error
      case InvalidXml =>
      case MissingArtifactId =>
      case MissingGroupId =>
      case MissingVersion =>
    }
  }

  /** And for what the reader makes of a document's events, where nothing strays. */
  lemma ReadDocument(document: Forest)
    requires NothingStrays(document)
    ensures var r := Interpretation(EventsOf(document));
      if TextsAt(document, ["project", "artifactId"]) == [] then r == Err(MissingArtifactId)
      else if TextsAt(document, ["project", "groupId"]) == [] && TextsAt(document, ["project", "parent", "groupId"]) == []
      then r == Err(MissingGroupId)
      else if TextsAt(document, ["project", "version"]) == [] && TextsAt(document, ["project", "parent", "version"]) == []
      then r == Err(MissingVersion)
      else
        && r.Ok?
        && Some(r.value.groupId) == LastOf(TextsAt(document, ["project", "groupId"]), TextsAt(document, ["project", "parent", "groupId"]))
        && Some(r.value.artifactId) == LastOf(TextsAt(document, ["project", "artifactId"]), [])
        && Some(r.value.version) == LastOf(TextsAt(document, ["project", "version"]), TextsAt(document, ["project", "parent", "version"]))
        && r.value.packaging == LastOf(TextsAt(document, ["project", "packaging"]), [])
        && r.value.displayName == LastOf(TextsAt(document, ["project", "name"]), [])
        && r.value.description == LastOf(TextsAt(document, ["project", "description"]), [])
        && r.value.homepage == LastOf(TextsAt(document, ["project", "url"]), [])
        && r.value.repositoryUrl == LastOf(TextsAt(document, ["project", "scm", "url"]), [])
        && r.value.licenses == FirstSpellings(WHITE, AsciiLower, TextsAt(document, ["project", "licenses", "license", "name"]))
  {
    hide TextsAt, FirstSpellings, Interpretation, FromDocument, NothingStrays;
    ReaderAgreesWithTree(document);
    DocumentErrors(document);
    var r := FromDocument(document);
    KnownErrors(r);
    if r.Ok? {
      DocumentFields(document);
    }
  }

  // ---------------------------------------------------------------- a POM that leaves its coordinates to the parent

  function Leaf(name: string, content: string): Node {
    Element(name, [TextNode(content)])
  }

  function Parent(g: string, v: string): Node {
    Element("parent", [Leaf("groupId", g), Leaf("version", v)])
  }

  /** `<project><parent><groupId/><version/></parent><artifactId/></project>` */
  function Child(g: string, v: string, a: string): Forest {
    [Element("project", [Parent(g, v), Leaf("artifactId", a)])]
  }

  /** A name without colons and slashes. */
  predicate SimpleName(name: string) {
    LocalName(name) == name && '/' !in name
  }

  lemma SimpleNames()
    ensures SimpleName("project") && SimpleName("parent") && SimpleName("artifactId") && SimpleName("groupId") && SimpleName("version")
  {
    hide LocalName;
    NamesAreLocal();
    NoColon("parent");
    NoColon("groupId");
    NoSlashInNames();
  }

  lemma NoSlashInNames()
    ensures '/' !in "project" && '/' !in "parent" && '/' !in "artifactId" && '/' !in "groupId" && '/' !in "version"
  {
  }

  lemma NamesTold()
    ensures "groupId" != "version" && "groupId" != "artifactId" && "version" != "artifactId" && "parent" != "artifactId"
    ensures "groupId" != "parent" && "version" != "parent"
  {
    assert "groupId"[0] == 'g' && "version"[0] == 'v' && "parent"[0] == 'p';
  }

  lemma PairNoSlash(x: Node, y: Node)
    requires x.Element? ==> '/' !in LocalName(x.name) && SlashFreeNames(x.children)
    requires y.Element? ==> '/' !in LocalName(y.name) && SlashFreeNames(y.children)
    ensures SlashFreeNames([x, y])
  {
    hide LocalName, SlashFreeNames;
    AllNoSlash([x, y]);
  }

  lemma AllNoSlash(forest: Forest)
    requires forall i | 0 <= i < |forest| && forest[i].Element? :: '/' !in LocalName(forest[i].name) && SlashFreeNames(forest[i].children)
    ensures SlashFreeNames(forest)
  {
    hide LocalName;
  }

  lemma WrapNoSlash(name: string, children: Forest)
    requires SimpleName(name) && SlashFreeNames(children)
    ensures SlashFreeNames([Element(name, children)])
  {
    hide LocalName;
  }

  lemma TextNoSlash(content: string)
    ensures SlashFreeNames([TextNode(content)])
  {
  }

  lemma NoSlashes(g: string, v: string, a: string)
    ensures SlashFreeNames(Child(g, v, a))
  {
    hide LocalName, SlashFreeNames;
    SimpleNames();
    TextNoSlash(g);
    TextNoSlash(v);
    TextNoSlash(a);
    PairNoSlash(Leaf("groupId", g), Leaf("version", v));
    PairNoSlash(Parent(g, v), Leaf("artifactId", a));
    WrapNoSlash("project", [Parent(g, v), Leaf("artifactId", a)]);
  }

  lemma WrapAt(name: string, children: Forest, path: Path)
    requires SimpleName(name) && path != []
    ensures TextsAt([Element(name, children)], path) == if path[0] == name then TextsAt(children, path[1..]) else []
  {
    hide LocalName, TextsAt;
    TextsAtRoot(name, children, path);
  }

  lemma LeafAt(name: string, content: string, path: Path)
    requires SimpleName(name) && Plain(content) && path != []
    ensures TextsAt([Leaf(name, content)], path) == if path == [name] then [content] else []
  {
    hide LocalName, Trimmed;
    WrapAt(name, [TextNode(content)], path);
    assert path[0] == name && path[1..] == [] ==> path == [name];
  }

  lemma PairAt(x: Node, y: Node, path: Path)
    ensures TextsAt([x, y], path) == TextsAt([x], path) + TextsAt([y], path)
  {
    hide TextsAt;
    TextsAtConcat([x], [y], path);
    assert [x] + [y] == [x, y];
  }

  /** What the document has at each path below the project. */
  lemma ChildAt(g: string, v: string, a: string, path: Path)
    requires Plain(g) && Plain(v) && Plain(a) && path != []
    ensures TextsAt(Child(g, v, a), ["project"] + path)
         == (if path[0] == "parent" && |path| > 1 then
               (if path[1..] == ["groupId"] then [g] else []) + (if path[1..] == ["version"] then [v] else [])
             else if path[0] == "parent" then TextsAt([Leaf("groupId", g), Leaf("version", v)], [])
             else [])
          + (if path == ["artifactId"] then [a] else [])
  {
    hide LocalName, TextsAt, SimpleName, Plain;
    SimpleNames();
    var inside: Path := ["project"] + path;
    assert inside[0] == "project" && inside[1..] == path;
    WrapAt("project", [Parent(g, v), Leaf("artifactId", a)], inside);
    PairAt(Parent(g, v), Leaf("artifactId", a), path);
    WrapAt("parent", [Leaf("groupId", g), Leaf("version", v)], path);
    LeafAt("artifactId", a, path);
    PairAt(Leaf("groupId", g), Leaf("version", v), path[1..]);
    if |path| > 1 {
      LeafAt("groupId", g, path[1..]);
      LeafAt("version", v, path[1..]);
    } else {
      assert path[1..] == [];
    }
  }

  lemma ChildTexts(g: string, v: string, a: string)
    requires Plain(g) && Plain(v) && Plain(a)
    ensures TextsAt(Child(g, v, a), ["project", "artifactId"]) == [a]
    ensures TextsAt(Child(g, v, a), ["project", "groupId"]) == [] && TextsAt(Child(g, v, a), ["project", "version"]) == []
    ensures TextsAt(Child(g, v, a), ["project", "parent", "groupId"]) == [g]
    ensures TextsAt(Child(g, v, a), ["project", "parent", "version"]) == [v]
  {
    hide TextsAt, Child, Plain;
    NamesTold();
    ChildAt(g, v, a, ["artifactId"]);
    ChildAt(g, v, a, ["groupId"]);
    ChildAt(g, v, a, ["version"]);
    ChildAt(g, v, a, ["parent", "groupId"]);
    ChildAt(g, v, a, ["parent", "version"]);
    assert ["project"] + ["artifactId"] == ["project", "artifactId"] && ["project"] + ["groupId"] == ["project", "groupId"];
    assert ["project"] + ["version"] == ["project", "version"];
    assert ["project"] + ["parent", "groupId"] == ["project", "parent", "groupId"];
    assert ["project"] + ["parent", "version"] == ["project", "parent", "version"];
    assert ["parent", "groupId"][1..] == ["groupId"] && ["parent", "version"][1..] == ["version"];
  }

  /** For all texts: group id and version of such a POM are the parent's, each from its own element. */
  lemma ParentStandsIn(g: string, v: string, a: string)
    requires Plain(g) && Plain(v) && Plain(a)
    ensures var r := Interpretation(EventsOf(Child(g, v, a)));
      r.Ok? && r.value.groupId == g && r.value.version == v && r.value.artifactId == a
  {
    hide TextsAt, Interpretation, FromDocument, Child, FirstSpellings, Plain;
    NoSlashes(g, v, a);
    ReaderAgreesOnXml(Child(g, v, a));
    ChildTexts(g, v, a);
    DocumentErrors(Child(g, v, a));
    var r := FromDocument(Child(g, v, a));
    KnownErrors(r);
    DocumentFields(Child(g, v, a));
  }
}
