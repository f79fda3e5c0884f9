/**
 The POM reader against the document tree (crates/adapters/maven/src/publish.rs, `parse_pom_xml`):
 reading a document's events finds the texts that its tree has at each path.
 */
module PomTree {
  import opened Common
  import opened MavenNames
  import opened Texts
  import opened Pom

  datatype Node =
    | Element(name: string, children: seq<Node>)
    | SelfClosing(name: string)
    | TextNode(content: string)
    | OtherNode

  type Forest = seq<Node>

  /** The events the reader delivers for a document. */
  function EventsOf(forest: Forest): seq<Event> {
    if forest == [] then []
    else
      (match forest[0]
       case Element(name, children) => [StartTag(name)] + (EventsOf(children) + [EndTag])
       case SelfClosing(name) => [EmptyTag(name)]
       case TextNode(content) => [TextEvent(content)]
       case OtherNode => [OtherEvent])
      + EventsOf(forest[1..])
  }

  /** The non-blank texts directly inside the elements at `path`, by local name and in document order. */
  function TextsAt(forest: Forest, path: Path): seq<string> {
    if forest == [] then []
    else
      (match forest[0]
       case Element(name, children) =>
         if path != [] && LocalName(name) == path[0] then TextsAt(children, path[1..]) else []
       case SelfClosing(_) => []
       case TextNode(content) => if path == [] && Trimmed(content) != "" then [Trimmed(content)] else []
       case OtherNode => [])
      + TextsAt(forest[1..], path)
  }

  predicate SlashFree(path: Path) {
    forall i :: 0 <= i < |path| ==> '/' !in path[i]
  }

  /** No element name has a slash in its local part, as XML demands of names. */
  predicate SlashFreeNames(forest: Forest) {
    forall i :: 0 <= i < |forest| && forest[i].Element? ==>
      '/' !in LocalName(forest[i].name) && SlashFreeNames(forest[i].children)
  }

  /** Joining slash-free names loses nothing. */
  lemma {:induction false} JoinedInjective(a: Path, b: Path)
    requires SlashFree(a) && SlashFree(b) && Joined(a) == Joined(b)
    requires b != [] && b[0] != ""
    ensures a == b
  {
    if |a| > 0 {
      FirstName(a);
      FirstName(b);
      if |a| == 1 || |b| == 1 {
      } else {
        SplitAtSlash(a[0], Joined(a[1..]), b[0], Joined(b[1..]));
        JoinedInjectiveTail(a[1..], b[1..]);
      }
    }
  }

  lemma {:induction false} JoinedInjectiveTail(a: Path, b: Path)
    requires a != [] && b != [] && SlashFree(a) && SlashFree(b) && Joined(a) == Joined(b)
    ensures a == b
  {
    FirstName(a);
    FirstName(b);
    if |a| > 1 && |b| > 1 {
      SplitAtSlash(a[0], Joined(a[1..]), b[0], Joined(b[1..]));
      JoinedInjectiveTail(a[1..], b[1..]);
    }
  }

  lemma FirstName(a: Path)
    requires a != [] && SlashFree(a)
    ensures |a| == 1 <==> '/' !in Joined(a)
    ensures |a| > 1 ==> Joined(a) == a[0] + ("/" + Joined(a[1..])) && SlashFree(a[1..])
  {
    if |a| > 1 {
      assert Joined(a)[|a[0]|] == '/';
    }
  }

  // ---------------------------------------------------------------- events and tree agree

  /** The non-blank texts of a forest inside `stack` whose element names, joined, read `path`. */
  function TextsUnder(forest: Forest, stack: Path, path: string): seq<string> {
    if forest == [] then []
    else UnderFirst(forest[0], stack, path) + TextsUnder(forest[1..], stack, path)
  }

  function UnderFirst(node: Node, stack: Path, path: string): seq<string> {
    match node
    case Element(name, children) => TextsUnder(children, stack + [LocalName(name)], path)
    case TextNode(content) => if Trimmed(content) != "" && Joined(stack) == path then [Trimmed(content)] else []
    case _ => []
  }

  lemma TextsMetCons(e: Event, rest: seq<Event>, stack: Path, path: string)
    ensures TextsMet([e] + rest, stack, path) == TextHere(stack, e, path) + TextsMet(rest, StackAfter(stack, e), path)
  {
    assert ([e] + rest)[1..] == rest;
  }

  function LeafEvent(node: Node): Event {
    match node
    case SelfClosing(name) => EmptyTag(name)
    case TextNode(content) => TextEvent(content)
    case _ => OtherEvent
  }

  /** The events of one node, before `tail`. */
  function EventsOfNode(node: Node, tail: seq<Event>): seq<Event> {
    if node.Element? then [StartTag(node.name)] + (EventsOf(node.children) + ([EndTag] + tail))
    else [LeafEvent(node)] + tail
  }

  lemma EventsOfFirst(forest: Forest, rest: seq<Event>)
    requires forest != []
    ensures var tail := EventsOf(forest[1..]) + rest;
      EventsOf(forest) + rest == EventsOfNode(forest[0], tail)
  {
  }

  lemma EmptyForest(rest: seq<Event>, stack: Path, path: string)
    ensures EventsOf([]) + rest == rest && TextsUnder([], stack, path) == []
  {
  }

  /** Over the events of any forest the loop meets the forest's texts, and has its stack back at the end. */
  lemma {:induction false} TextsMetForest(forest: Forest, rest: seq<Event>, stack: Path, path: string)
    ensures TextsMet(EventsOf(forest) + rest, stack, path) == TextsUnder(forest, stack, path) + TextsMet(rest, stack, path)
    decreases forest
  {
    hide Joined, LocalName, EventsOf, EventsOfNode, TextsUnder, UnderFirst, TextsMet;
    if forest == [] {
      EmptyForest(rest, stack, path);
    } else {
      var tail := EventsOf(forest[1..]) + rest;
      TextsMetForest(forest[1..], rest, stack, path);
      if forest[0].Element? {
        TextsMetForest(forest[0].children, [EndTag] + tail, stack + [LocalName(forest[0].name)], path);
        ElementTexts(forest[0].name, forest[0].children, tail, stack, path);
      } else {
        LeafTexts(forest[0], tail, stack, path);
      }
      FirstThenRest(forest, rest, stack, path);
    }
  }

  lemma UnderCons(forest: Forest, stack: Path, path: string)
    requires forest != []
    ensures TextsUnder(forest, stack, path) == UnderFirst(forest[0], stack, path) + TextsUnder(forest[1..], stack, path)
  {
  }

  lemma FirstThenRest(forest: Forest, rest: seq<Event>, stack: Path, path: string)
    requires forest != []
    requires var tail := EventsOf(forest[1..]) + rest;
      && TextsMet(EventsOfNode(forest[0], tail), stack, path) == UnderFirst(forest[0], stack, path) + TextsMet(tail, stack, path)
      && TextsMet(tail, stack, path) == TextsUnder(forest[1..], stack, path) + TextsMet(rest, stack, path)
    ensures TextsMet(EventsOf(forest) + rest, stack, path) == TextsUnder(forest, stack, path) + TextsMet(rest, stack, path)
  {
    hide TextsMet, TextsUnder, UnderFirst, EventsOf, EventsOfNode;
    EventsOfFirst(forest, rest);
    UnderCons(forest, stack, path);
    Associative(UnderFirst(forest[0], stack, path), TextsUnder(forest[1..], stack, path), TextsMet(rest, stack, path));
  }

  lemma LeafTexts(node: Node, tail: seq<Event>, stack: Path, path: string)
    requires !node.Element?
    ensures TextsMet(EventsOfNode(node, tail), stack, path) == UnderFirst(node, stack, path) + TextsMet(tail, stack, path)
  {
    hide Joined, Trimmed, TextsMet, TextsUnder;
    TextsMetCons(LeafEvent(node), tail, stack, path);
  }

  /** Entering an element pushes its name, and leaving it pops the name again. */
  lemma ElementTexts(name: string, children: Forest, tail: seq<Event>, stack: Path, path: string)
    requires var inside := stack + [LocalName(name)];
      TextsMet(EventsOf(children) + ([EndTag] + tail), inside, path)
      == TextsUnder(children, inside, path) + TextsMet([EndTag] + tail, inside, path)
    ensures TextsMet(EventsOfNode(Element(name, children), tail), stack, path)
         == UnderFirst(Element(name, children), stack, path) + TextsMet(tail, stack, path)
  {
    hide Joined, LocalName, TextsMet, TextsUnder, EventsOf;
    var inside := stack + [LocalName(name)];
    TextsMetCons(StartTag(name), EventsOf(children) + ([EndTag] + tail), stack, path);
    TextsMetCons(EndTag, tail, inside, path);
    assert inside[..|inside| - 1] == stack;
  }

  lemma {:induction false} NothingMalformed(document: Forest)
    ensures Malformed !in EventsOf(document)
  {
    if document != [] {
      NothingMalformed(document[1..]);
      if document[0].Element? {
        NothingMalformed(document[0].children);
      }
    }
  }

  lemma TextsMetDocument(document: Forest, path: string)
    ensures TextsMet(EventsOf(document), [], path) == TextsUnder(document, [], path)
  {
    TextsMetForest(document, [], [], path);
    assert EventsOf(document) + [] == EventsOf(document) && TextsMet([], [], path) == [];
    hide TextsMet, TextsUnder, EventsOf;
  }

  /** For every document, whatever its element names: the reader goes by the joined names. */
  lemma ReaderGoesByJoinedNames(document: Forest)
    ensures Interpretation(EventsOf(document)) == Assemble(path => TextsUnder(document, [], Joined(path)))
  {
    hide Joined, TextsMet, TextsUnder, FirstSpellings;
    NothingMalformed(document);
    forall path: Path ensures TextsMet(EventsOf(document), [], Joined(path)) == TextsUnder(document, [], Joined(path)) {
      TextsMetDocument(document, Joined(path));
    }
  }

  // ---------------------------------------------------------------- joined names and paths

  function Below(forest: Forest, stack: Path, path: Path): seq<string> {
    if stack <= path then TextsAt(forest, path[|stack|..]) else []
  }

  /** How many texts are somewhere else, where the joined names read like `path` all the same. */
  function Strays(forest: Forest, stack: Path, path: Path): nat {
    if forest == [] then 0
    else StraysFirst(forest[0], stack, path) + Strays(forest[1..], stack, path)
  }

  function StraysFirst(node: Node, stack: Path, path: Path): nat {
    match node
    case Element(name, children) => Strays(children, stack + [LocalName(name)], path)
    case TextNode(content) => if Trimmed(content) != "" && Joined(stack) == Joined(path) && stack != path then 1 else 0
    case _ => 0
  }

  function BelowFirst(node: Node, stack: Path, path: Path): seq<string> {
    match node
    case Element(name, children) => Below(children, stack + [LocalName(name)], path)
    case TextNode(content) => if stack == path && Trimmed(content) != "" then [Trimmed(content)] else []
    case _ => []
  }

  lemma BelowCons(forest: Forest, stack: Path, path: Path)
    requires forest != []
    ensures Below(forest, stack, path) == BelowFirst(forest[0], stack, path) + Below(forest[1..], stack, path)
  {
    hide LocalName, Trimmed;
    if forest[0].Element? {
      BelowChildren(forest[0].name, forest[0].children, stack, path);
      hide Below;
    }
    if stack <= path && path[|stack|..] == [] {
      assert stack == path;
    }
  }

  lemma BelowChildren(name: string, children: Forest, stack: Path, path: Path)
    ensures Below(children, stack + [LocalName(name)], path)
         == if stack < path && LocalName(name) == path[|stack|] then TextsAt(children, path[|stack|..][1..]) else []
  {
    hide LocalName, TextsAt;
    var inside := stack + [LocalName(name)];
    if stack < path && LocalName(name) == path[|stack|] {
      assert inside == path[..|inside|];
      assert path[|stack|..][1..] == path[|inside|..];
    }
  }

  /** Going by joined names finds the texts at the path, and the strays among them. */
  lemma {:induction false} JoinedNamesFindPath(forest: Forest, stack: Path, path: Path)
    ensures |TextsUnder(forest, stack, Joined(path))| == |Below(forest, stack, path)| + Strays(forest, stack, path)
    ensures Strays(forest, stack, path) == 0 ==> TextsUnder(forest, stack, Joined(path)) == Below(forest, stack, path)
    decreases forest
  {
    if forest != [] {
      BelowCons(forest, stack, path);
      JoinedNamesFindPath(forest[1..], stack, path);
      if forest[0].Element? {
        JoinedNamesFindPath(forest[0].children, stack + [LocalName(forest[0].name)], path);
      }
      hide Joined, LocalName, Trimmed, Below;
    } else {
      assert Below([], stack, path) == [];
    }
  }

  /** For every document and path: the reader finds the tree's texts exactly if no text strays. */
  lemma PathFoundExactlyWhen(document: Forest, path: Path)
    ensures TextsMet(EventsOf(document), [], Joined(path)) == TextsAt(document, path) <==> Strays(document, [], path) == 0
  {
    hide TextsMet, TextsUnder, TextsAt, Strays, Joined;
    TextsMetDocument(document, Joined(path));
    JoinedNamesFindPath(document, [], path);
    assert path[0..] == path;
  }

  /** Slash-free names, which XML demands, let nothing stray. */
  lemma {:induction false} SlashFreeNothingStrays(forest: Forest, stack: Path, path: Path)
    requires SlashFreeNames(forest) && SlashFree(stack) && SlashFree(path) && path != [] && path[0] != ""
    ensures Strays(forest, stack, path) == 0
    decreases forest
  {
    hide SlashFreeNames, Joined, LocalName, Trimmed;
    if forest != [] {
      NamesInside(forest);
      SlashFreeNothingStrays(forest[1..], stack, path);
      if forest[0].Element? {
        SlashFreeNothingStrays(forest[0].children, stack + [LocalName(forest[0].name)], path);
      } else if Joined(stack) == Joined(path) {
        JoinedInjective(stack, path);
      }
    }
  }

  lemma NamesInside(forest: Forest)
    requires SlashFreeNames(forest) && forest != []
    ensures SlashFreeNames(forest[1..])
    ensures forest[0].Element? ==> '/' !in LocalName(forest[0].name) && SlashFreeNames(forest[0].children)
  {
  }

  // ---------------------------------------------------------------- the reader's result

  /** A document's POM, by querying its tree. */
  function FromDocument(document: Forest): Result<ParsedPom, PomError> {
    Assemble(path => TextsAt(document, path))
  }

  /** Nothing strays to the paths that a POM is made of. */
  predicate NothingStrays(document: Forest) {
    && Strays(document, [], GROUP_ID) == 0 && Strays(document, [], ARTIFACT_ID) == 0 && Strays(document, [], VERSION) == 0
    && Strays(document, [], PACKAGING) == 0 && Strays(document, [], NAME) == 0 && Strays(document, [], DESCRIPTION) == 0
    && Strays(document, [], URL) == 0 && Strays(document, [], SCM_URL) == 0 && Strays(document, [], LICENSE_NAME) == 0
    && Strays(document, [], PARENT_GROUP_ID) == 0 && Strays(document, [], PARENT_VERSION) == 0
  }

  /** The event loop and the tree query agree on every document in which nothing strays. */
  lemma ReaderAgreesWithTree(document: Forest)
    requires NothingStrays(document)
    ensures Interpretation(EventsOf(document)) == FromDocument(document)
  {
    hide Joined, TextsMet, TextsAt, Strays, FirstSpellings;
    NothingMalformed(document);
    forall path: Path | Strays(document, [], path) == 0
      ensures TextsMet(EventsOf(document), [], Joined(path)) == TextsAt(document, path)
    {
      PathFoundExactlyWhen(document, path);
    }
  }

  /** In particular on every document whose element names have no slash. */
  lemma ReaderAgreesOnXml(document: Forest)
    requires SlashFreeNames(document)
    ensures Interpretation(EventsOf(document)) == FromDocument(document)
  {
    hide Strays, SlashFreeNames, Interpretation, FromDocument;
    NamedPaths();
    forall path: Path | SlashFree(path) && path != [] && path[0] != "" ensures Strays(document, [], path) == 0 {
      SlashFreeNothingStrays(document, [], path);
    }
    hide SlashFree;
    ReaderAgreesWithTree(document);
  }

  lemma NamedPaths()
    ensures SlashFree(GROUP_ID) && SlashFree(ARTIFACT_ID) && SlashFree(VERSION) && SlashFree(PACKAGING) && SlashFree(NAME)
    ensures SlashFree(DESCRIPTION) && SlashFree(URL) && SlashFree(SCM_URL) && SlashFree(LICENSE_NAME)
    ensures SlashFree(PARENT_GROUP_ID) && SlashFree(PARENT_VERSION)
  {
  }

  // ---------------------------------------------------------------- what does not count

  lemma {:induction false} TextsAtConcat(a: Forest, b: Forest, path: Path)
    ensures TextsAt(a + b, path) == TextsAt(a, path) + TextsAt(b, path)
  {
    if a == [] {
      assert a + b == b;
    } else {
      assert (a + b)[1..] == a[1..] + b;
      TextsAtConcat(a[1..], b, path);
    }
  }

  predicate CoordinateName(name: string) {
    name == "groupId" || name == "artifactId" || name == "version" || name == "parent"
  }

  function Coordinates(pom: Result<ParsedPom, PomError>): Result<(string, string, string), PomError> {
    if pom.Ok? then Ok((pom.value.groupId, pom.value.artifactId, pom.value.version)) else Err(pom.error)
  }

  /**
   A child of the project that is not itself a coordinate or the parent, such as `dependencies`, does
   not touch the coordinates, whatever elements of the same names it has inside.
   */
  lemma DeeperElementsIgnored(project: string, before: Forest, child: Node, after: Forest)
    requires child.Element? ==> !CoordinateName(LocalName(child.name))
    ensures Coordinates(FromDocument([Element(project, before + [child] + after)]))
         == Coordinates(FromDocument([Element(project, before + after)]))
  {
    hide FirstSpellings, LocalName, Trimmed, TextsAt;
    forall path: Path | |path| > 1 && CoordinateName(path[1])
      ensures TextsAt([Element(project, before + [child] + after)], path) == TextsAt([Element(project, before + after)], path)
    {
      ChildAddsNothing(project, before, child, after, path);
    }
  }

  lemma TextsAtRoot(project: string, children: Forest, path: Path)
    requires path != []
    ensures TextsAt([Element(project, children)], path) == if LocalName(project) == path[0] then TextsAt(children, path[1..]) else []
  {
    hide LocalName;
  }

  lemma NothingAt(child: Node, path: Path)
    requires path != [] && (child.Element? ==> LocalName(child.name) != path[0])
    ensures TextsAt([child], path) == []
  {
    hide LocalName, Trimmed;
  }

  lemma ChildAddsNothing(project: string, before: Forest, child: Node, after: Forest, path: Path)
    requires |path| > 1 && (child.Element? ==> LocalName(child.name) != path[1])
    ensures TextsAt([Element(project, before + [child] + after)], path) == TextsAt([Element(project, before + after)], path)
  {
    hide LocalName, Trimmed, TextsAt;
    TextsAtRoot(project, before + [child] + after, path);
    TextsAtRoot(project, before + after, path);
    TextsAtConcat(before + [child], after, path[1..]);
    TextsAtConcat(before, [child], path[1..]);
    TextsAtConcat(before, after, path[1..]);
    NothingAt(child, path[1..]);
  }

  /** A document with its group id in an element that is named after the path to it. */
  function Misleading(g: string, a: string, v: string): Forest {
    [Element("project", [Element("artifactId", [TextNode(a)]), Element("version", [TextNode(v)])]),
     Element("project/groupId", [TextNode(g)])]
  }

  function OneText(content: string, found: bool): seq<string> {
    if found then [content] else []
  }

  predicate Plain(s: string) { s != "" && Trimmed(s) == s }

  lemma MisleadingUnder(g: string, a: string, v: string, path: string)
    requires Plain(g) && Plain(a) && Plain(v)
    ensures TextsUnder(Misleading(g, a, v), [], path)
         == OneText(a, "project/artifactId" == path) + OneText(v, "project/version" == path) + OneText(g, "project/groupId" == path)
  {
    hide Trimmed, Joined, LocalName;
    NamesAreLocal();
    JoinedCoordinates();
    var top: Path := ["project"];
    assert [] + ["project"] == top && [] + ["project/groupId"] == ["project/groupId"];
    assert top + ["artifactId"] == ["project", "artifactId"] && top + ["version"] == ["project", "version"];
    OneUnder(a, ["project", "artifactId"], path);
    OneUnder(v, ["project", "version"], path);
    OneUnder(g, ["project/groupId"], path);
    JoinedSingle("project/groupId");
    var inner := [Element("artifactId", [TextNode(a)]), Element("version", [TextNode(v)])];
    hide TextsUnder;
    UnderCons(Misleading(g, a, v), [], path);
    UnderCons([Element("project/groupId", [TextNode(g)])], [], path);
    UnderCons(inner, top, path);
    UnderCons([Element("version", [TextNode(v)])], top, path);
    assert Misleading(g, a, v)[1..] == [Element("project/groupId", [TextNode(g)])] && inner[1..] == [Element("version", [TextNode(v)])];
    assert [Element("project/groupId", [TextNode(g)])][1..] == [] && [Element("version", [TextNode(v)])][1..] == [];
    NothingUnder(top, path);
    NothingUnder([], path);
  }

  lemma NothingUnder(stack: Path, path: string)
    ensures TextsUnder([], stack, path) == []
  {
  }

  lemma JoinedSingle(name: string)
    ensures Joined([name]) == name
  {
  }

  lemma OneUnder(content: string, stack: Path, path: string)
    requires Plain(content)
    ensures TextsUnder([TextNode(content)], stack, path) == OneText(content, Joined(stack) == path)
  {
    hide Trimmed, Joined;
  }

  lemma NamesAreLocal()
    ensures LocalName("project") == "project" && LocalName("artifactId") == "artifactId" && LocalName("version") == "version"
    ensures LocalName("project/groupId") == "project/groupId"
  {
    hide LocalName;
    NoColon("project");
    NoColon("artifactId");
    NoColon("version");
    NoColon("project/groupId");
  }

  /**
   A reader that lets a slash in a name through takes the text of one element for that of another: the
   document has no group id, and the reader returns one.
   */
  lemma SlashInNameMisleads(g: string, a: string, v: string)
    requires Plain(g) && Plain(a) && Plain(v)
    ensures var result := Interpretation(EventsOf(Misleading(g, a, v)));
      && result.Ok? && result.value.groupId == g && result.value.artifactId == a && result.value.version == v
    ensures FromDocument(Misleading(g, a, v)) == Err(MissingGroupId)
  {
    hide TextsUnder, TextsAt, Joined, Trimmed, LocalName, FirstSpellings, Interpretation;
    JoinedCoordinates();
    ReaderGoesByJoinedNames(Misleading(g, a, v));
    MisleadingUnder(g, a, v, GROUP_ID_TEXT);
    MisleadingUnder(g, a, v, ARTIFACT_ID_TEXT);
    MisleadingUnder(g, a, v, VERSION_TEXT);
    DistinctPaths();
    MisleadingAt(g, a, v);
  }

  lemma TwoElementsAt(n: string, inN: Forest, m: string, inM: Forest, path: Path)
    requires path != [] && LocalName(n) == n && LocalName(m) == m
    ensures TextsAt([Element(n, inN), Element(m, inM)], path)
         == (if path[0] == n then TextsAt(inN, path[1..]) else []) + (if path[0] == m then TextsAt(inM, path[1..]) else [])
  {
    hide LocalName, TextsAt;
    assert [Element(n, inN), Element(m, inM)] == [Element(n, inN)] + [Element(m, inM)];
    TextsAtConcat([Element(n, inN)], [Element(m, inM)], path);
    TextsAtRoot(n, inN, path);
    TextsAtRoot(m, inM, path);
  }

  lemma NamesDiffer()
    ensures "project" != "project/groupId" && "groupId" != "artifactId" && "groupId" != "version"
    ensures "parent" != "artifactId" && "parent" != "version" && "artifactId" != "version"
  {
    assert "groupId"[0] == 'g' && "version"[0] == 'v';
  }

  lemma MisleadingAt(g: string, a: string, v: string)
    requires Plain(g) && Plain(a) && Plain(v)
    ensures TextsAt(Misleading(g, a, v), GROUP_ID) == [] && TextsAt(Misleading(g, a, v), PARENT_GROUP_ID) == []
    ensures TextsAt(Misleading(g, a, v), ARTIFACT_ID) == [a]
  {
    hide TextsAt, Trimmed, LocalName;
    TextAtOnce(a);
    MisleadingStep(g, a, v, "groupId", []);
    MisleadingStep(g, a, v, "parent", ["groupId"]);
    MisleadingStep(g, a, v, "artifactId", []);
    NamesDiffer();
  }

  lemma MisleadingStep(g: string, a: string, v: string, name: string, rest: Path)
    ensures TextsAt(Misleading(g, a, v), ["project", name] + rest)
         == (if name == "artifactId" then TextsAt([TextNode(a)], rest) else [])
          + (if name == "version" then TextsAt([TextNode(v)], rest) else [])
    ensures rest == [] ==> ["project", name] + rest == ["project", name]
    ensures rest == ["groupId"] ==> ["project", name] + rest == ["project", name, "groupId"]
  {
    hide TextsAt, LocalName;
    NamesAreLocal();
    NamesDiffer();
    var inner := [Element("artifactId", [TextNode(a)]), Element("version", [TextNode(v)])];
    var path: Path := ["project", name] + rest;
    TwoElementsAt("project", inner, "project/groupId", [TextNode(g)], path);
    TwoElementsAt("artifactId", [TextNode(a)], "version", [TextNode(v)], path[1..]);
    assert path[0] == "project" && path[1..][0] == name && path[1..][1..] == rest;
  }

  lemma TextAtOnce(a: string)
    requires Plain(a)
    ensures TextsAt([TextNode(a)], []) == [a]
  {
    hide Trimmed;
  }

  lemma {:induction false} NoColon(name: string)
    requires ':' !in name
    ensures LocalName(name) == name
  {
    if name != "" {
      NoColon(name[..|name| - 1]);
    }
  }
}
