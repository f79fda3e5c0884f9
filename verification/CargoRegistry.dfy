/**
 The Cargo registry's tables and its publish, yank, unyank, index and download handlers
 (crates/adapters/cargo-registry/src/routes.rs, crates/adapters/cargo-registry/src/metadata.rs).
 */
module CargoRegistry {
  import opened Common
  import opened CargoWire
  import opened MavenNames

  type PackageId = nat
  type ReleaseId = string

  /** An artifact row is identified by its release and file name. */
  type Key = (ReleaseId, string)

  /** Dependencies, features, links and Rust version, as the JSON kept for the index. */
  type Extra = string

  datatype Status = Quarantine | Published | Deprecated | Yanked

  datatype Release = Release(package: PackageId, version: string, status: Status, yanked: bool, publishedAt: int)

  datatype Artifact = Artifact(storageKey: string, sha256: string, size: nat)

  datatype State = State(
    now: int,
    releases: map<ReleaseId, Release>,
    artifacts: map<Key, Artifact>,
    extras: map<ReleaseId, Extra>,
    blobs: map<string, Bytes>,
    usedIds: set<ReleaseId>)

  datatype Response = OkResponse | BadRequest(error: WireError) | Conflict | NotFound | NotModified(etag: string) | InternalError

  /** Which statements of a publish fail, and the id that it draws. */
  datatype Faults = Faults(search: bool, create: bool, put: bool, rollback: bool, artifact: bool, extra: bool,
                           finalize: bool, freshId: ReleaseId)

  // ---------------------------------------------------------------- statements

  function StripBuildMetadata(version: string): (base: string)
    ensures '+' !in base && base <= version
    ensures base == version || version[|base|] == '+'
  {
    if version == "" || version[0] == '+' then "" else [version[0]] + StripBuildMetadata(version[1..])
  }

  predicate Visible(r: Release) {
    r.status.Published? || r.status.Deprecated? || r.status.Yanked?
  }

  predicate Has(s: State, p: PackageId, version: string) {
    exists r :: r in s.releases && s.releases[r].package == p && s.releases[r].version == version
  }

  function FileName(u: Parsed<Extra>): string {
    u.metadata.name + "-" + StripBuildMetadata(u.metadata.vers) + ".crate"
  }

  function CrateKey(id: ReleaseId, u: Parsed<Extra>): string {
    StorageKey(id, u.sha256, FileName(u))
  }

  /** The publish handler's statements in order, each of which may fail. */
  function Publish(s: State, p: PackageId, u: Parsed<Extra>, f: Faults): (State, Response) {
    var version := StripBuildMetadata(u.metadata.vers);
    if !f.search && Has(s, p, version) then (s, Conflict)
    else if f.create || Has(s, p, version) then (s, InternalError)
    else
      var created := s.(releases := s.releases[f.freshId := Release(p, version, Quarantine, false, s.now)],
                        usedIds := s.usedIds + {f.freshId});
      if f.put then (if f.rollback then created else created.(releases := created.releases - {f.freshId}), InternalError)
      else
        var stored := created.(blobs := s.blobs[CrateKey(f.freshId, u) := u.crateBytes]);
        if f.artifact then (stored, InternalError)
        else
          var recorded := stored.(
            artifacts := s.artifacts[(f.freshId, FileName(u)) := Artifact(CrateKey(f.freshId, u), u.sha256, |u.crateBytes|)],
            extras := if f.extra then s.extras else s.extras[f.freshId := u.metadata.rest]);
          if f.finalize then (recorded, InternalError)
          else (SetStatus(recorded, f.freshId, Published, false), OkResponse)
  }

  function SetStatus(s: State, r: ReleaseId, status: Status, yanked: bool): State
    requires r in s.releases
  {
    s.(releases := s.releases[r := s.releases[r].(status := status, yanked := yanked)])
  }

  predicate Names(s: State, r: ReleaseId, p: PackageId, version: string) {
    r in s.releases && s.releases[r].package == p && s.releases[r].version == version && Visible(s.releases[r])
  }

  /** The SELECT that yank and unyank start from: at most one row, by the unique constraint. */
  ghost function FindRelease(s: State, p: PackageId, version: string): (r: Option<ReleaseId>)
    ensures r.Some? ==> Names(s, r.value, p, version)
    ensures r.None? ==> forall id :: !Names(s, id, p, version)
  {
    if exists id :: Names(s, id, p, version) then
      var id :| Names(s, id, p, version); Some(id)
    else None
  }

  /** Yank (`yanked` is true) and unyank differ in what they write only. */
  ghost function SetYanked(s: State, p: PackageId, version: string, yanked: bool, fault: bool): (State, Response) {
    var found := FindRelease(s, p, version);
    if found.None? then (s, NotFound)
    else if fault then (s, InternalError)
    else (SetStatus(s, found.value, if yanked then Yanked else Published, yanked), OkResponse)
  }

  // ---------------------------------------------------------------- the index and the download

  datatype Entry = Entry(version: string, extra: Option<Extra>, cksum: string, yanked: bool)

  predicate Lists(s: State, p: PackageId, k: Key) {
    k in s.artifacts && k.0 in s.releases && s.releases[k.0].package == p && Visible(s.releases[k.0])
  }

  /** What the index query returns: every listed row once, ordered by publication time. */
  predicate IsListing(s: State, p: PackageId, rows: seq<Key>) {
    && (forall i :: 0 <= i < |rows| ==> Lists(s, p, rows[i]))
    && (forall k :: k in s.artifacts && Lists(s, p, k) ==> k in rows)
    && (forall i, j :: 0 <= i < j < |rows| ==> rows[i] != rows[j])
    && (forall i, j :: 0 <= i < j < |rows| ==> s.releases[rows[i].0].publishedAt <= s.releases[rows[j].0].publishedAt)
  }

  function EntryOf(s: State, k: Key): Entry
    requires k in s.artifacts && k.0 in s.releases
  {
    Entry(s.releases[k.0].version,
          if k.0 in s.extras then Some(s.extras[k.0]) else None,
          s.artifacts[k].sha256,
          s.releases[k.0].yanked)
  }

  function Entries(s: State, p: PackageId, rows: seq<Key>): (entries: seq<Entry>)
    requires IsListing(s, p, rows)
    ensures |entries| == |rows|
    ensures forall i :: 0 <= i < |rows| ==> entries[i] == EntryOf(s, rows[i])
  {
    seq(|rows|, i requires 0 <= i < |rows| => EntryOf(s, rows[i]))
  }

  predicate Serves(s: State, k: Key, p: PackageId, version: string) {
    Lists(s, p, k) && s.releases[k.0].version == version
  }

  predicate Offers(s: State, p: PackageId, version: string) {
    exists k :: k in s.artifacts && Serves(s, k, p, version)
  }

  /** The bytes and the ETag digest of a download, from any row that its query may pick. */
  predicate Downloads(s: State, p: PackageId, version: string, r: Result<(Bytes, string), Response>) {
    if Offers(s, p, version) then
      exists k :: k in s.artifacts && Serves(s, k, p, version) &&
        r == if s.artifacts[k].storageKey in s.blobs
             then Ok((s.blobs[s.artifacts[k].storageKey], s.artifacts[k].sha256))
             else Err(NotFound)
    else r == Err(NotFound)
  }

  // ---------------------------------------------------------------- lines of the index

  function JoinLines(lines: seq<string>): string {
    if lines == [] then ""
    else if |lines| == 1 then lines[0]
    else lines[0] + ("\n" + JoinLines(lines[1..]))
  }

  function SplitLines(content: string): (lines: seq<string>)
    ensures lines != []
  {
    if content == "" then [""]
    else
      var rest := SplitLines(content[1..]);
      if content[0] == '\n' then [""] + rest else [[content[0]] + rest[0]] + rest[1..]
  }

  lemma {:induction false} SplitFirstLine(line: string, rest: string)
    requires '\n' !in line
    ensures SplitLines(line + ("\n" + rest)) == [line] + SplitLines(rest)
    ensures SplitLines(line) == [line]
  {
    if line == "" {
      assert line + ("\n" + rest) == "\n" + rest && ("\n" + rest)[1..] == rest;
    } else {
      SplitFirstLine(line[1..], rest);
      var content := line + ("\n" + rest);
      assert content[1..] == line[1..] + ("\n" + rest);
      assert [line[0]] + line[1..] == line;
    }
  }

  /** The index has one line per version, provided the JSON of a version is on one line. */
  lemma {:induction false} LinesComeBack(lines: seq<string>)
    requires lines != [] && forall i :: 0 <= i < |lines| ==> '\n' !in lines[i]
    ensures SplitLines(JoinLines(lines)) == lines
  {
    if |lines| == 1 {
      SplitFirstLine(lines[0], "");
    } else {
      LinesComeBack(lines[1..]);
      SplitFirstLine(lines[0], JoinLines(lines[1..]));
    }
  }

  ghost predicate OneLine(encode: Entry -> string) {
    forall e :: '\n' !in encode(e)
  }

  function Encoded(encode: Entry -> string, entries: seq<Entry>): (lines: seq<string>)
    ensures |lines| == |entries|
    ensures forall i :: 0 <= i < |lines| ==> lines[i] == encode(entries[i])
  {
    seq(|entries|, i requires 0 <= i < |entries| => encode(entries[i]))
  }

  /** `build_index_content`: `encode` is the compact JSON of an entry. */
  method BuildIndexContent(encode: Entry -> string, digest: string -> string, versions: seq<Entry>) returns (content: string, etag: string)
    requires OneLine(encode)
    ensures content == JoinLines(Encoded(encode, versions))
    ensures versions != [] ==> SplitLines(content) == Encoded(encode, versions)
    ensures versions == [] ==> content == ""
    ensures etag == digest(content)
  {
    var lines := [];
    for i := 0 to |versions|
      invariant lines == Encoded(encode, versions)[..i]
    {
      lines := lines + [encode(versions[i])];
    }
    content := JoinLines(lines);
    etag := digest(content);
    assert lines == Encoded(encode, versions);
    if versions != [] {
      LinesComeBack(lines);
    }
  }

  /** `If-None-Match` names the entity tag, quoted or not. */
  predicate IsCurrent(ifNoneMatch: Option<string>, etag: string) {
    ifNoneMatch.Some? && (ifNoneMatch.value == etag || ifNoneMatch.value == "\"" + etag + "\"")
  }

  /** Sending back an earlier tag, as it came or without its quotes, asks whether that digest is the current one. */
  lemma TagComparesDigests(earlier: string, current: string)
    requires '"' !in earlier && '"' !in current
    ensures IsCurrent(Some("\"" + earlier + "\""), current) <==> earlier == current
    ensures IsCurrent(Some(earlier), current) <==> earlier == current
    ensures !IsCurrent(None, current)
  {
    var quoted, quoted' := "\"" + earlier + "\"", "\"" + current + "\"";
    assert quoted[0] == '"' && quoted'[0] == '"';
    assert quoted[1..|quoted| - 1] == earlier && quoted'[1..|quoted'| - 1] == current;
  }

  // ---------------------------------------------------------------- the handlers

  class Registry {
    var now: int
    var releases: map<ReleaseId, Release>
    var artifacts: map<Key, Artifact>
    var extras: map<ReleaseId, Extra>
    var blobs: map<string, Bytes>
    ghost var usedIds: set<ReleaseId>

    constructor (start: int)
      ensures Tables() == Init(start)
    {
      now, releases, artifacts, extras, blobs, usedIds := start, map[], map[], map[], map[], {};
    }

    ghost function Tables(): State
      reads this
    {
      State(now, releases, artifacts, extras, blobs, usedIds)
    }

    method VersionExists(p: PackageId, version: string) returns (found: bool)
      ensures found == Has(Tables(), p, version)
    {
      found := exists r :: r in releases && releases[r].package == p && releases[r].version == version;
    }

    /** Publishing a body that has been read already. */
    method PublishCrate(p: PackageId, u: Parsed<Extra>, f: Faults) returns (response: Response)
      requires f.freshId !in usedIds && f.freshId !in releases
      modifies this`releases, this`artifacts, this`extras, this`blobs, this`usedIds
      ensures Publish(old(Tables()), p, u, f) == (Tables(), response)
    {
      hide StripBuildMetadata, FileName, CrateKey, Has;
      var version := StripBuildMetadata(u.metadata.vers);
      var taken := VersionExists(p, version);
      if !f.search && taken {
        return Conflict;
      }
      if f.create || taken {
        return InternalError;
      }
      releases := releases[f.freshId := Release(p, version, Quarantine, false, now)];
      usedIds := usedIds + {f.freshId};
      if f.put {
        if !f.rollback {
          releases := releases - {f.freshId};
        }
        return InternalError;
      }
      blobs := blobs[CrateKey(f.freshId, u) := u.crateBytes];
      if f.artifact {
        return InternalError;
      }
      artifacts := artifacts[(f.freshId, FileName(u)) := Artifact(CrateKey(f.freshId, u), u.sha256, |u.crateBytes|)];
      if !f.extra {
        extras := extras[f.freshId := u.metadata.rest];
      }
      if f.finalize {
        return InternalError;
      }
      releases := releases[f.freshId := releases[f.freshId].(status := Published, yanked := false)];
      return OkResponse;
    }

    /** PUT /crates/new: reading the body, then publishing it. */
    method PutCrate(p: PackageId, decode: Bytes -> Option<Metadata<Extra>>, digest: Bytes -> string, body: Bytes, f: Faults)
      returns (response: Response)
      requires f.freshId !in usedIds && f.freshId !in releases
      modifies this`releases, this`artifacts, this`extras, this`blobs, this`usedIds
      ensures var parsed := ParseCargoPublish(decode, digest, body);
        (Tables(), response) ==
          if parsed.Ok? then Publish(old(Tables()), p, parsed.value, f) else (old(Tables()), BadRequest(parsed.error))
    {
      var parsed := ParseCargoPublish(decode, digest, body);
      if parsed.Err? {
        return BadRequest(parsed.error);
      }
      response := PublishCrate(p, parsed.value, f);
    }

    predicate OneReleasePerVersion()
      reads this
    {
      forall r, r' | r in releases && r' in releases && releases[r].package == releases[r'].package
        && releases[r].version == releases[r'].version :: r == r'
    }

    method SelectRelease(p: PackageId, version: string) returns (found: Option<ReleaseId>)
      requires OneReleasePerVersion()
      ensures found == FindRelease(Tables(), p, version)
    {
      if exists id :: id in releases && releases[id].package == p && releases[id].version == version && Visible(releases[id]) {
        var id :| id in releases && releases[id].package == p && releases[id].version == version && Visible(releases[id]);
        assert Names(Tables(), id, p, version);
        found := Some(id);
      } else {
        found := None;
        assert forall id :: !Names(Tables(), id, p, version);
      }
    }

    method YankVersion(p: PackageId, version: string, fault: bool) returns (response: Response)
      requires OneReleasePerVersion()
      modifies this`releases
      ensures SetYanked(old(Tables()), p, version, true, fault) == (Tables(), response)
    {
      var found := SelectRelease(p, version);
      if found.None? {
        return NotFound;
      }
      if fault {
        return InternalError;
      }
      releases := releases[found.value := releases[found.value].(status := Yanked, yanked := true)];
      return OkResponse;
    }

    method UnyankVersion(p: PackageId, version: string, fault: bool) returns (response: Response)
      requires OneReleasePerVersion()
      modifies this`releases
      ensures SetYanked(old(Tables()), p, version, false, fault) == (Tables(), response)
    {
      var found := SelectRelease(p, version);
      if found.None? {
        return NotFound;
      }
      if fault {
        return InternalError;
      }
      releases := releases[found.value := releases[found.value].(status := Published, yanked := false)];
      return OkResponse;
    }

    /** The index of a crate; `rows` is what the database returns for the query. */
    method ServeIndex(p: PackageId, rows: seq<Key>, encode: Entry -> string, digest: string -> string,
                      queryFails: bool, ifNoneMatch: Option<string>) returns (r: Result<(string, string), Response>)
      requires IsListing(Tables(), p, rows) && OneLine(encode)
      ensures queryFails ==> r == Err(InternalError)
      ensures !queryFails && rows == [] ==> r == Err(NotFound)
      ensures !queryFails && rows != [] ==>
        var content := JoinLines(Encoded(encode, Entries(Tables(), p, rows)));
        && SplitLines(content) == Encoded(encode, Entries(Tables(), p, rows))
        && r == if ifNoneMatch == Some(digest(content)) || ifNoneMatch == Some("\"" + digest(content) + "\"")
                then Err(NotModified(digest(content))) else Ok((content, digest(content)))
    {
      if queryFails {
        return Err(InternalError);
      }
      if rows == [] {
        return Err(NotFound);
      }
      var versions: seq<Entry> := [];
      for i := 0 to |rows|
        invariant versions == Entries(Tables(), p, rows)[..i]
      {
        var k := rows[i];
        versions := versions + [Entry(releases[k.0].version, if k.0 in extras then Some(extras[k.0]) else None,
                                      artifacts[k].sha256, releases[k.0].yanked)];
      }
      assert versions == Entries(Tables(), p, rows);
      var content, etag := BuildIndexContent(encode, digest, versions);
      if IsCurrent(ifNoneMatch, etag) {
        return Err(NotModified(etag));
      }
      return Ok((content, etag));
    }

    method DownloadCrate(p: PackageId, version: string, queryFails: bool, storageFails: bool) returns (r: Result<(Bytes, string), Response>)
      ensures queryFails ==> r == Err(InternalError)
      ensures !queryFails && storageFails ==> r == Err(if Offers(Tables(), p, version) then InternalError else NotFound)
      ensures !queryFails && !storageFails ==> Downloads(Tables(), p, version, r)
    {
      if queryFails {
        return Err(InternalError);
      }
      if exists k :: k in artifacts && k.0 in releases && releases[k.0].package == p && Visible(releases[k.0]) && releases[k.0].version == version {
        var k :| k in artifacts && k.0 in releases && releases[k.0].package == p && Visible(releases[k.0]) && releases[k.0].version == version;
        assert Serves(Tables(), k, p, version);
        if storageFails {
          r := Err(InternalError);
        } else if artifacts[k].storageKey in blobs {
          r := Ok((blobs[artifacts[k].storageKey], artifacts[k].sha256));
        } else {
          r := Err(NotFound);
        }
      } else {
        assert forall k :: k in artifacts ==> !Serves(Tables(), k, p, version);
        r := Err(NotFound);
      }
    }
  }

  function Init(start: int): State {
    State(start, map[], map[], map[], map[], {})
  }
}
