/**
 The Cargo publish wire format (crates/adapters/cargo-registry/src/publish.rs; Cargo Book,
 "Registry Web API", Publish): a length-prefixed JSON document followed by a length-prefixed crate.
 */
module CargoWire {
  import opened Common

  type Byte = b: nat | b < 256
  type Bytes = seq<Byte>

  const MAX_JSON_SIZE := 1_048_576
  const MAX_CRATE_SIZE := 536_870_912

  datatype Metadata<T> = Metadata(name: string, vers: string, rest: T)

  datatype WireError =
    | MissingJsonLength
    | JsonTooLarge
    | MissingCrateLength
    | CrateTooLarge
    | CrateTruncated
    | CrateEmpty
    | InvalidJson
    | EmptyName
    | EmptyVersion

  datatype Parsed<T> = Parsed(metadata: Metadata<T>, crateBytes: Bytes, sha256: string)

  // ---------------------------------------------------------------- u32, little endian

  /** `u32::from_le_bytes` on the four bytes at `at`. */
  function ReadLe32(b: Bytes, at: nat): (n: nat)
    requires at + 4 <= |b|
    ensures n < 0x1_0000_0000
  {
    var b0: nat, b1: nat, b2: nat, b3: nat := b[at], b[at + 1], b[at + 2], b[at + 3];
    b0 + 0x100 * b1 + 0x1_0000 * b2 + 0x100_0000 * b3
  }

  /** `(n as u32).to_le_bytes()`: a larger length loses its high part. */
  function Le32(n: nat): (b: Bytes)
    ensures |b| == 4
  {
    var m := n % 0x1_0000_0000;
    var m1 := m / 0x100;
    var m2 := m1 / 0x100;
    [m % 0x100, m1 % 0x100, m2 % 0x100, m2 / 0x100]
  }

  lemma Le32RoundTrip(n: nat)
    ensures ReadLe32(Le32(n), 0) == n % 0x1_0000_0000
  {
  }

  lemma Le32OfRead(b: Bytes)
    requires |b| == 4
    ensures Le32(ReadLe32(b, 0)) == b
  {
    var n := ReadLe32(b, 0);
    var b1: nat, b2: nat, b3: nat := b[1], b[2], b[3];
    assert n / 0x100 == b1 + 0x100 * b2 + 0x1_0000 * b3;
    assert n / 0x100 / 0x100 == b2 + 0x100 * b3;
  }

  lemma ReadLe32At(a: Bytes, b: Bytes, c: Bytes)
    requires |b| == 4
    ensures ReadLe32(a + (b + c), |a|) == ReadLe32(b, 0)
  {
    assert forall i :: 0 <= i < 4 ==> (a + (b + c))[|a| + i] == b[i];
  }

  // ---------------------------------------------------------------- build and parse

  /** The body that Cargo sends. */
  function BuildPayload(json: Bytes, crateBytes: Bytes): Bytes {
    Le32(|json|) + (json + (Le32(|crateBytes|) + crateBytes))
  }

  /** The two parts of a body, or why it has none.  Every read is guarded by the length of the body. */
  function Split(body: Bytes): (r: Result<(Bytes, Bytes), WireError>) {
    if |body| < 4 then Err(MissingJsonLength)
    else
      var jsonLen := ReadLe32(body, 0);
      if jsonLen > MAX_JSON_SIZE then Err(JsonTooLarge)
      else
        var jsonEnd := 4 + jsonLen;
        if |body| < jsonEnd + 4 then Err(MissingCrateLength)
        else
          var crateLen := ReadLe32(body, jsonEnd);
          if crateLen > MAX_CRATE_SIZE then Err(CrateTooLarge)
          else
            var crateStart := jsonEnd + 4;
            var crateEnd := crateStart + crateLen;
            if |body| < crateEnd then Err(CrateTruncated)
            else if crateLen == 0 then Err(CrateEmpty)
            else Ok((body[4..jsonEnd], body[crateStart..crateEnd]))
  }

  /** `decode` is the JSON reader, and `digest` the SHA-256 hex digest. */
  function ParseCargoPublish<T>(decode: Bytes -> Option<Metadata<T>>, digest: Bytes -> string, body: Bytes)
    : Result<Parsed<T>, WireError>
  {
    var parts := Split(body);
    if parts.Err? then Err(parts.error)
    else
      var metadata := decode(parts.value.0);
      if metadata.None? then Err(InvalidJson)
      else if metadata.value.name == "" then Err(EmptyName)
      else if metadata.value.vers == "" then Err(EmptyVersion)
      else Ok(Parsed(metadata.value, parts.value.1, digest(parts.value.1)))
  }

  predicate WithinLimits(json: Bytes, crateBytes: Bytes) {
    |json| <= MAX_JSON_SIZE && 1 <= |crateBytes| <= MAX_CRATE_SIZE
  }

  // ---------------------------------------------------------------- round trips

  lemma SplitOfBuilt(json: Bytes, crateBytes: Bytes, rest: Bytes)
    requires WithinLimits(json, crateBytes)
    ensures Split(BuildPayload(json, crateBytes) + rest) == Ok((json, crateBytes))
  {
    var body := BuildPayload(json, crateBytes) + rest;
    var l1, l2 := Le32(|json|), Le32(|crateBytes|);
    BuiltReads(json, crateBytes, rest);
    hide Le32, ReadLe32, BuildPayload;
    assert body[4..4 + |json|] == json;
    assert body[8 + |json|..8 + |json| + |crateBytes|] == crateBytes;
  }

  lemma BuiltReads(json: Bytes, crateBytes: Bytes, rest: Bytes)
    requires WithinLimits(json, crateBytes)
    ensures var body := BuildPayload(json, crateBytes) + rest;
      && |body| == 8 + |json| + |crateBytes| + |rest|
      && ReadLe32(body, 0) == |json| && ReadLe32(body, 4 + |json|) == |crateBytes|
      && body[4..4 + |json|] == json
      && body[8 + |json|..8 + |json| + |crateBytes|] == crateBytes
  {
    hide Le32, ReadLe32;
    var body := BuildPayload(json, crateBytes) + rest;
    var l1, l2 := Le32(|json|), Le32(|crateBytes|);
    Le32RoundTrip(|json|);
    Le32RoundTrip(|crateBytes|);
    assert body == [] + (l1 + (json + (l2 + crateBytes) + rest));
    ReadLe32At([], l1, json + (l2 + crateBytes) + rest);
    assert body == (l1 + json) + (l2 + (crateBytes + rest));
    ReadLe32At(l1 + json, l2, crateBytes + rest);
  }

  /** Every body that splits is a built payload, and whatever follows it is ignored. */
  lemma SplitIsBuilt(body: Bytes)
    requires Split(body).Ok?
    ensures var (json, crateBytes) := Split(body).value;
      WithinLimits(json, crateBytes) && BuildPayload(json, crateBytes) <= body
  {
    var (json, crateBytes) := Split(body).value;
    var l1, l2 := body[..4], body[4 + |json|..8 + |json|];
    Le32OfRead(l1);
    Le32OfRead(l2);
    hide Le32, ReadLe32;
    assert BuildPayload(json, crateBytes) == body[..8 + |json| + |crateBytes|];
  }

  /**
   A body parses to a result exactly if it starts with a payload built within the limits from JSON that
   decodes, with a name and a version, to that metadata.
   */
  lemma ParseIsInverseOfBuild<T>(decode: Bytes -> Option<Metadata<T>>, digest: Bytes -> string, body: Bytes, p: Parsed<T>)
    ensures ParseCargoPublish(decode, digest, body) == Ok(p) <==>
      exists json: Bytes :: Accepts(decode, digest, body, p, json)
  {
    hide Split, BuildPayload;
    if ParseCargoPublish(decode, digest, body) == Ok(p) {
      SplitIsBuilt(body);
      assert Accepts(decode, digest, body, p, Split(body).value.0);
    }
    if json: Bytes :| Accepts(decode, digest, body, p, json) {
      var built := BuildPayload(json, p.crateBytes);
      SplitOfBuilt(json, p.crateBytes, body[|built|..]);
      assert built + body[|built|..] == body;
    }
  }

  ghost predicate Accepts<T>(decode: Bytes -> Option<Metadata<T>>, digest: Bytes -> string, body: Bytes, p: Parsed<T>, json: Bytes) {
    && WithinLimits(json, p.crateBytes)
    && BuildPayload(json, p.crateBytes) <= body
    && decode(json) == Some(p.metadata)
    && p.metadata.name != "" && p.metadata.vers != ""
    && p.sha256 == digest(p.crateBytes)
  }

  /** No payload built within the limits is the start of another one. */
  lemma BuildPrefixFree(json: Bytes, crateBytes: Bytes, json': Bytes, crateBytes': Bytes)
    requires WithinLimits(json, crateBytes) && WithinLimits(json', crateBytes')
    requires BuildPayload(json', crateBytes') <= BuildPayload(json, crateBytes)
    ensures json == json' && crateBytes == crateBytes'
  {
    hide Split, BuildPayload;
    var built, built' := BuildPayload(json, crateBytes), BuildPayload(json', crateBytes');
    SplitOfBuilt(json, crateBytes, []);
    SplitOfBuilt(json', crateBytes', built[|built'|..]);
    assert built' + built[|built'|..] == built && built + [] == built;
  }

  /** Beyond the limits, and as long as the lengths fit in 32 bits, the same builder yields a refused body. */
  lemma TooLargeIsRefused(json: Bytes, crateBytes: Bytes, rest: Bytes)
    requires |json| < 0x1_0000_0000 && |crateBytes| < 0x1_0000_0000
    ensures |json| > MAX_JSON_SIZE ==> Split(BuildPayload(json, crateBytes) + rest) == Err(JsonTooLarge)
    ensures |json| <= MAX_JSON_SIZE && |crateBytes| > MAX_CRATE_SIZE ==>
              Split(BuildPayload(json, crateBytes) + rest) == Err(CrateTooLarge)
    ensures |json| <= MAX_JSON_SIZE && crateBytes == [] ==> Split(BuildPayload(json, crateBytes) + rest) == Err(CrateEmpty)
  {
    hide Le32, ReadLe32;
    var body := BuildPayload(json, crateBytes) + rest;
    var l1, l2 := Le32(|json|), Le32(|crateBytes|);
    Le32RoundTrip(|json|);
    Le32RoundTrip(|crateBytes|);
    assert body == [] + (l1 + (json + (l2 + crateBytes) + rest));
    ReadLe32At([], l1, json + (l2 + crateBytes) + rest);
    assert body == (l1 + json) + (l2 + (crateBytes + rest));
    ReadLe32At(l1 + json, l2, crateBytes + rest);
  }

  /** Cutting bytes off an accepted payload is always noticed. */
  lemma CutPayloadIsRefused(json: Bytes, crateBytes: Bytes, n: nat)
    requires WithinLimits(json, crateBytes) && n < |BuildPayload(json, crateBytes)|
    ensures Split(BuildPayload(json, crateBytes)[..n]).Err?
  {
    hide Split, BuildPayload;
    var cut := BuildPayload(json, crateBytes)[..n];
    if Split(cut).Ok? {
      SplitIsBuilt(cut);
      var (json', crateBytes') := Split(cut).value;
      BuildPrefixFree(json, crateBytes, json', crateBytes');
    }
  }

  // ---------------------------------------------------------------- byte by byte

  /** A payload byte by byte: each length comes with its lowest byte first. */
  lemma PayloadBytes(json: Bytes, crateBytes: Bytes)
    requires WithinLimits(json, crateBytes)
    ensures var b := BuildPayload(json, crateBytes); var n := 4 + |json|;
      && |b| == 8 + |json| + |crateBytes|
      && b[0] as nat + 256 * b[1] as nat + 65536 * b[2] as nat + 16777216 * b[3] as nat == |json|
      && b[4..n] == json
      && b[n] as nat + 256 * b[n + 1] as nat + 65536 * b[n + 2] as nat + 16777216 * b[n + 3] as nat == |crateBytes|
      && b[n + 4..] == crateBytes
  {
    BuiltReads(json, crateBytes, []);
    hide Le32, BuildPayload;
    assert BuildPayload(json, crateBytes) + [] == BuildPayload(json, crateBytes);
    var b := BuildPayload(json, crateBytes);
    assert b[8 + |json|..8 + |json| + |crateBytes|] == b[8 + |json|..];
  }

  /** How a body is refused: the errors in the order of the checks, by the bytes of the two lengths. */
  lemma RefusedExactlyWhen(body: Bytes)
    ensures Split(body) == Err(MissingJsonLength) <==> |body| < 4
    ensures |body| >= 4 ==>
      var n: nat := body[0] as nat + 256 * body[1] as nat + 65536 * body[2] as nat + 16777216 * body[3] as nat;
      && (Split(body) == Err(JsonTooLarge) <==> n > 1048576)
      && (Split(body) == Err(MissingCrateLength) <==> n <= 1048576 && |body| < n + 8)
      && (n <= 1048576 && |body| >= n + 8 ==>
            var m: nat := body[n + 4] as nat + 256 * body[n + 5] as nat + 65536 * body[n + 6] as nat + 16777216 * body[n + 7] as nat;
            && (Split(body) == Err(CrateTooLarge) <==> m > 536870912)
            && (Split(body) == Err(CrateTruncated) <==> m <= 536870912 && |body| < n + 8 + m)
            && (Split(body) == Err(CrateEmpty) <==> m == 0)
            && (Split(body).Ok? <==> 1 <= m <= 536870912 && |body| >= n + 8 + m))
  {
  }

  /** And what is refused of a body that splits. */
  lemma MetadataRefusedExactlyWhen<T>(decode: Bytes -> Option<Metadata<T>>, digest: Bytes -> string, body: Bytes)
    requires Split(body).Ok?
    ensures var r := ParseCargoPublish(decode, digest, body); var metadata := decode(Split(body).value.0);
      && (r == Err(InvalidJson) <==> metadata.None?)
      && (r == Err(EmptyName) <==> metadata.Some? && metadata.value.name == "")
      && (r == Err(EmptyVersion) <==> metadata.Some? && metadata.value.name != "" && metadata.value.vers == "")
      && (r.Ok? <==> metadata.Some? && metadata.value.name != "" && metadata.value.vers != "")
  {
    hide Split;
  }
}
