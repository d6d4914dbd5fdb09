/** OCI archives (scripts/merge_oci_archives.py): the checked walk over a graph of content-addressed blobs.
    The two-platform archive of scripts/release_provenance.py checks its images and its whole graph by
    rules of its own; `runnable` tells the two kinds apart. */
module OciArchive {
  import opened Results

  type Bytes = seq<int>

  datatype Json =
    | Null | Bool(b: bool) | Int(n: int) | Float(r: real) | Str(s: string) | List(items: seq<Json>) | Obj(fields: Doc)

  type Doc = map<string, Json>

  datatype Expanded = Expanded(digest: string, size: nat)

  /** SHA-256 in hex, the decoder of a JSON object and its canonical encoder, and layer decompression by
      media type. */
  datatype Codec = Codec(hash: Bytes -> string, decode: Bytes -> Result<Doc>, encode: Doc -> Bytes,
                         expand: (Bytes, string) -> Result<Expanded>)

  /** What an archive is checked against. */
  datatype Want = Want(os: string, arch: string, version: string, revision: string)

  /** The platform of `want` is that of a native archive. */
  datatype Archive = Archive(codec: Codec, files: map<string, Bytes>, want: Want, runnable: bool)

  /** The platforms of a release by number. */
  function WantFor(i: nat, version: string, revision: string): Want {
    Want("linux", if i == 0 then "amd64" else "arm64", version, revision)
  }

  const LAYOUT := "oci-layout"
  const INDEX_JSON := "index.json"
  const BLOB_PREFIX := "blobs/sha256/"
  const DIGEST_PREFIX := "sha256:"
  const REFERENCE_TYPE := "vnd.docker.reference.type"
  const REFERENCE_DIGEST := "vnd.docker.reference.digest"
  const INDEX := "application/vnd.oci.image.index.v1+json"
  const MANIFEST := "application/vnd.oci.image.manifest.v1+json"
  const CONFIG := "application/vnd.oci.image.config.v1+json"
  const EMPTY_CONFIG := "application/vnd.oci.empty.v1+json"
  const ATTESTATION := "application/vnd.docker.attestation.manifest.v1+json"
  const IN_TOTO := "application/vnd.in-toto+json"
  const LAYER_TYPES := {"application/vnd.oci.image.layer.v1.tar", "application/vnd.oci.image.layer.v1.tar+gzip",
                        "application/vnd.oci.image.layer.v1.tar+zstd"}
  const STATEMENT_TYPES := {"https://in-toto.io/Statement/v0.1", "https://in-toto.io/Statement/v1"}
  const PROVENANCE_TYPES := {"https://slsa.dev/provenance/v0.2", "https://slsa.dev/provenance/v1"}

  const MAX_JSON := 2_000_000
  const MAX_ATTESTATION_JSON := 16 * 1024 * 1024
  const MAX_JSON_TOTAL := 32_000_000
  const MAX_LAYER_BYTES := 8 * 1024 * 1024 * 1024
  const MAX_ROOTFS_BYTES := 32 * 1024 * 1024 * 1024
  const MAX_MANIFESTS := 1024
  const MAX_VISITED := 1024
  const MAX_DEPTH := 8
  const MAX_LAYERS := 4096

  // ---- What a walk records ----------------------------------------------------------------

  datatype Key = Key(mediaType: string, digest: string, size: int)

  datatype Image = Image(descriptor: Key, configDigest: string)

  datatype Evidence = Evidence(digest: string, subject: Key, predicateTypes: set<string>)

  datatype LayerKey = LayerKey(digest: string, mediaType: string)

  /** `descriptors` and `layerNames` are those of a runnable archive. */
  datatype State = State(visited: nat, leaves: seq<Doc>, images: seq<Image>, attestations: seq<Evidence>,
                         metadataBytes: nat, metadataNames: set<string>, attestationNames: set<string>,
                         layers: map<LayerKey, Expanded>, rootfsBytes: nat,
                         descriptors: map<nat, Doc>, layerNames: set<string>)

  const FRESH := State(0, [], [], [], 0, {}, {}, map[], 0, map[], {})

  // ---- Descriptors ------------------------------------------------------------------------

  /** `dict.get` without a default. */
  function Get(d: Doc, key: string): Json {
    if key in d then d[key] else Null
  }

  predicate Truthy(v: Json) {
    match v
    case Null => false
    case Bool(b) => b
    case Int(n) => n != 0
    case Float(r) => r != 0.0
    case Str(s) => s != ""
    case List(items) => items != []
    case Obj(fields) => fields != map[]
  }

  predicate IsDigest(s: string) {
    |s| == 71 && DIGEST_PREFIX <= s && forall i | 7 <= i < 71 :: '0' <= s[i] <= '9' || 'a' <= s[i] <= 'f'
  }

  predicate IsDigestValue(v: Json) {
    v.Str? && IsDigest(v.s)
  }

  function BlobName(digest: string): string {
    if |digest| >= 7 then BLOB_PREFIX + digest[7..] else BLOB_PREFIX
  }

  /** The checks of `blob`. */
  predicate BlobAllowed(a: Archive, descriptor: Json, types: set<string>) {
    && descriptor.Obj?
    && var d := descriptor.fields;
       && IsDigestValue(Get(d, "digest")) && Get(d, "size").Int? && Get(d, "size").n >= 0
       && Get(d, "mediaType").Str? && Get(d, "mediaType").s in types
       && "urls" !in d
       && ("data" in d ==> Get(d, "mediaType").s == EMPTY_CONFIG && d["data"] == Str("e30="))
       && BlobName(Get(d, "digest").s) in a.files && |a.files[BlobName(Get(d, "digest").s)]| == Get(d, "size").n
  }

  function DigestOf(d: Doc): string {
    if Get(d, "digest").Str? then Get(d, "digest").s else ""
  }

  function MediaOf(d: Doc): string {
    if Get(d, "mediaType").Str? then Get(d, "mediaType").s else ""
  }

  /** `descriptor_key`. */
  function KeyOf(d: Doc): Key {
    Key(MediaOf(d), DigestOf(d), if Get(d, "size").Int? then Get(d, "size").n else 0)
  }

  function FieldsOf(v: Json): Doc {
    if v.Obj? then v.fields else map[]
  }

  predicate Versioned(data: Doc, media: string) {
    Get(data, "schemaVersion") == Int(2) && ("mediaType" in data ==> data["mediaType"] == Str(media))
  }

  // ---- Reading ----------------------------------------------------------------------------

  datatype Read = Read(s: State, doc: Doc)

  predicate Readable(a: Archive, s: State, name: string, limit: nat) {
    && name in a.files && 0 < |a.files[name]| <= limit
    && s.metadataBytes + |a.files[name]| <= MAX_JSON_TOTAL && a.codec.decode(a.files[name]).Ok?
  }

  function ReadJson(a: Archive, s: State, name: string, limit: nat): Result<Read> {
    if Readable(a, s, name, limit)
    then Ok(Read(s.(metadataBytes := s.metadataBytes + |a.files[name]|, metadataNames := s.metadataNames + {name}),
                 a.codec.decode(a.files[name]).value))
    else Failed
  }

  /** `blob` with `metadata=True`. */
  function ReadBlob(a: Archive, s: State, descriptor: Json, types: set<string>): Result<Read> {
    if BlobAllowed(a, descriptor, types) then ReadJson(a, s, BlobName(DigestOf(descriptor.fields)), MAX_JSON)
    else Failed
  }

  // ---- Runnable images --------------------------------------------------------------------

  function Variants(arch: string): set<Json> {
    if arch == "arm64" then {Null, Str("v8")} else {Null}
  }

  predicate SamePlatform(platform: Json, details: Doc, want: Want) {
    && platform.Obj?
    && Get(platform.fields, "os") == Get(details, "os") == Str(want.os)
    && Get(platform.fields, "architecture") == Get(details, "architecture") == Str(want.arch)
    && Get(platform.fields, "variant") in Variants(want.arch) && Get(details, "variant") in Variants(want.arch)
    && forall key | key in {"os.version", "os.features", "features"} ::
         !Truthy(Get(platform.fields, key)) && !Truthy(Get(details, key))
  }

  predicate Labelled(details: Doc, want: Want) {
    && Get(details, "config").Obj?
    && var labels := Get(Get(details, "config").fields, "Labels");
       labels.Obj? && Get(labels.fields, "org.opencontainers.image.version") == Str(want.version)
       && Get(labels.fields, "org.opencontainers.image.revision") == Str(want.revision)
  }

  predicate AllAllowed(a: Archive, layers: seq<Json>, types: set<string>) {
    forall layer | layer in layers :: BlobAllowed(a, layer, types)
  }

  predicate Rooted(details: Doc, count: nat) {
    && Get(details, "rootfs").Obj?
    && var rootfs := Get(details, "rootfs").fields;
       Get(rootfs, "type") == Str("layers") && Get(rootfs, "diff_ids").List? && |Get(rootfs, "diff_ids").items| == count
       && forall item | item in Get(rootfs, "diff_ids").items :: IsDigestValue(item)
  }

  function DiffIds(details: Doc): seq<Json> {
    var ids := Get(FieldsOf(Get(details, "rootfs")), "diff_ids");
    if ids.List? then ids.items else []
  }

  function LayersOf(data: Doc): seq<Json> {
    if Get(data, "layers").List? then Get(data, "layers").items else []
  }

  /** Everything `image` checks of the manifest and the config but the layer contents. */
  predicate ImageAllowed(a: Archive, want: Want, d: Doc, data: Doc, details: Doc) {
    && SamePlatform(Get(d, "platform"), details, want) && Labelled(details, want)
    && Get(data, "layers").List? && |LayersOf(data)| <= MAX_LAYERS && AllAllowed(a, LayersOf(data), LAYER_TYPES)
    && Rooted(details, |LayersOf(data)|)
  }

  function LayerKeyOf(layer: Doc): LayerKey {
    LayerKey(DigestOf(layer), MediaOf(layer))
  }

  /** `layer_digest`: the state after it, if its digest is the expected one. */
  function CheckLayer(a: Archive, s: State, layer: Doc, expected: Json): Result<State> {
    var key := LayerKeyOf(layer);
    if key in s.layers then
      if s.rootfsBytes + s.layers[key].size <= MAX_ROOTFS_BYTES && Str(s.layers[key].digest) == expected
      then Ok(s.(rootfsBytes := s.rootfsBytes + s.layers[key].size)) else Failed
    else if BlobName(key.digest) !in a.files then Failed
    else
      match a.codec.expand(a.files[BlobName(key.digest)], key.mediaType)
      case Failed => Failed
      case Ok(x) =>
        if x.size <= MAX_LAYER_BYTES && s.rootfsBytes + x.size <= MAX_ROOTFS_BYTES && Str(x.digest) == expected
        then Ok(s.(rootfsBytes := s.rootfsBytes + x.size, layers := s.layers[key := x])) else Failed
  }

  function CheckLayers(a: Archive, s: State, layers: seq<Json>, ids: seq<Json>): Result<State>
    requires |layers| == |ids|
    decreases |layers|
  {
    if layers == [] then Ok(s)
    else
      match CheckLayer(a, s, FieldsOf(layers[0]), ids[0])
      case Failed => Failed
      case Ok(next) => CheckLayers(a, next, layers[1..], ids[1..])
  }

  /** `image` for the platform of `want`. */
  function CheckImage(a: Archive, want: Want, s: State, d: Doc, data: Doc): Result<State> {
    match ReadBlob(a, s, Get(data, "config"), {CONFIG})
    case Failed => Failed
    case Ok(read) =>
      if !ImageAllowed(a, want, d, data, read.doc) then Failed
      else
        match CheckLayers(a, read.s, LayersOf(data), DiffIds(read.doc))
        case Failed => Failed
        case Ok(next) =>
          Ok(next.(images := next.images + [Image(KeyOf(d), DigestOf(FieldsOf(Get(data, "config"))))]))
  }

  /** Which of both platforms a descriptor is for. */
  function PlatformOf(d: Doc): Option<nat> {
    var platform := Get(d, "platform");
    if !platform.Obj? || Get(platform.fields, "os") != Str("linux") then None
    else if Get(platform.fields, "architecture") == Str("amd64") then Some(0)
    else if Get(platform.fields, "architecture") == Str("arm64") then Some(1)
    else None
  }

  function LayerNames(data: Doc): set<string> {
    set layer | layer in LayersOf(data) :: BlobName(DigestOf(FieldsOf(layer)))
  }

  /** `image` of a runnable archive: one for each platform. */
  function CheckRunnable(a: Archive, s: State, d: Doc, data: Doc): Result<State> {
    match PlatformOf(d)
    case None => Failed
    case Some(i) =>
      if i in s.descriptors then Failed
      else
        match CheckImage(a, WantFor(i, a.want.version, a.want.revision), s, d, data)
        case Failed => Failed
        case Ok(next) =>
          Ok(next.(descriptors := next.descriptors[i := d], layerNames := next.layerNames + LayerNames(data)))
  }

  // ---- Attestations -----------------------------------------------------------------------

  /** The annotations of a descriptor; an object with other than string values is refused. */
  predicate AnnotationsAllowed(d: Doc) {
    "annotations" in d ==>
      d["annotations"].Obj? && forall key | key in d["annotations"].fields :: d["annotations"].fields[key].Str?
  }

  function Annotation(d: Doc, key: string): Json {
    Get(FieldsOf(Get(d, "annotations")), key)
  }

  predicate IsAttestation(d: Doc, data: Doc) {
    Annotation(d, REFERENCE_TYPE) == Str("attestation-manifest") || Get(data, "artifactType") == Str(ATTESTATION)
  }

  predicate IsPlainImage(d: Doc, data: Doc) {
    "artifactType" !in d && "artifactType" !in data && "subject" !in data && Annotation(d, REFERENCE_TYPE) == Null
  }

  predicate EvidencePlatform(d: Doc) {
    && Get(d, "platform").Obj?
    && Get(Get(d, "platform").fields, "os") == Get(Get(d, "platform").fields, "architecture") == Str("unknown")
    && Annotation(d, REFERENCE_TYPE) in {Null, Str("attestation-manifest")}
  }

  /** A missing entry passes, an explicit null does not. */
  predicate DefaultsTo(d: Doc, key: string, value: string) {
    key in d ==> d[key] == Str(value)
  }

  predicate SubjectPlatform(subject: Doc, arch: string) {
    var platform := Get(subject, "platform");
    || platform == Null
    || (platform.Obj? && DefaultsTo(platform.fields, "os", "linux")
        && DefaultsTo(platform.fields, "architecture", arch))
  }

  const BRACES: Bytes := [0x7B, 0x7D]

  /** The subject of an attestation with an artifact type: its manifest descriptor. */
  function TypedSubject(a: Archive, d: Doc, data: Doc, details: Doc): Result<Key> {
    var config, subject := FieldsOf(Get(data, "config")), Get(data, "subject");
    if && Get(data, "artifactType") == Str(ATTESTATION) && Get(d, "artifactType") in {Null, Str(ATTESTATION)}
       && details == map[] && Get(config, "size") == Int(2) && DigestOf(config) == DIGEST_PREFIX + a.codec.hash(BRACES)
       && BlobAllowed(a, subject, {MANIFEST}) && SubjectPlatform(subject.fields, a.want.arch)
       && Annotation(d, REFERENCE_DIGEST) in {Null, Str(DigestOf(subject.fields))}
    then Ok(KeyOf(subject.fields)) else Failed
  }

  /** The subject of a legacy attestation: the blob its annotation refers to. */
  function LegacySubject(a: Archive, d: Doc, data: Doc, details: Doc): Result<Key> {
    var reference := Annotation(d, REFERENCE_DIGEST);
    if && "artifactType" !in d && "subject" !in data
       && Get(details, "os") == Get(details, "architecture") == Str("unknown")
       && IsDigestValue(reference) && BlobName(reference.s) in a.files
    then Ok(Key(MANIFEST, reference.s, |a.files[BlobName(reference.s)]|)) else Failed
  }

  predicate NamesSubject(item: Json, digest: string) {
    && item.Obj? && Get(item.fields, "digest").Obj? && |digest| >= 7
    && Get(Get(item.fields, "digest").fields, "sha256") == Str(digest[7..])
  }

  predicate StatementAllowed(statement: Doc, subject: Key) {
    && Get(statement, "_type").Str? && Get(statement, "_type").s in STATEMENT_TYPES
    && Get(statement, "predicateType").Str? && Get(statement, "predicateType").s != ""
    && Get(statement, "subject").List?
    && var subjects := Get(statement, "subject").items;
       && (forall item | item in subjects :: item.Obj?)
       && exists item | item in subjects :: NamesSubject(item, subject.digest)
  }

  datatype Statements = Statements(s: State, types: set<string>)

  function ReadStatement(a: Archive, s: State, layer: Json, subject: Key, types: set<string>): Result<Statements> {
    if !BlobAllowed(a, layer, {IN_TOTO}) then Failed
    else
      var name := BlobName(DigestOf(layer.fields));
      match ReadJson(a, s, name, MAX_ATTESTATION_JSON)
      case Failed => Failed
      case Ok(read) =>
        if StatementAllowed(read.doc, subject)
        then Ok(Statements(read.s.(attestationNames := read.s.attestationNames + {name}),
                           types + {Get(read.doc, "predicateType").s}))
        else Failed
  }

  function ReadStatements(a: Archive, s: State, layers: seq<Json>, subject: Key, types: set<string>): Result<Statements>
    decreases |layers|
  {
    if layers == [] then Ok(Statements(s, types))
    else
      match ReadStatement(a, s, layers[0], subject, types)
      case Failed => Failed
      case Ok(next) => ReadStatements(a, next.s, layers[1..], subject, next.types)
  }

  predicate IsTyped(data: Doc) {
    Get(data, "artifactType") != Null
  }

  function CheckAttestation(a: Archive, s: State, d: Doc, data: Doc): Result<State> {
    if !EvidencePlatform(d) then Failed
    else
      match ReadBlob(a, s, Get(data, "config"), if IsTyped(data) then {EMPTY_CONFIG} else {CONFIG})
      case Failed => Failed
      case Ok(read) =>
        match if IsTyped(data) then TypedSubject(a, d, data, read.doc) else LegacySubject(a, d, data, read.doc)
        case Failed => Failed
        case Ok(subject) =>
          if !Get(data, "layers").List? || !(0 < |LayersOf(data)| <= MAX_LAYERS) then Failed
          else
            match ReadStatements(a, read.s, LayersOf(data), subject, {})
            case Failed => Failed
            case Ok(end) => Ok(end.s.(attestations := end.s.attestations + [Evidence(DigestOf(d), subject, end.types)]))
  }

  // ---- The walk ---------------------------------------------------------------------------

  predicate NewLeaf(leaves: seq<Doc>, d: Doc) {
    forall leaf | leaf in leaves :: DigestOf(leaf) != DigestOf(d)
  }

  /** Attestations have no place in a runnable archive. */
  function CheckLeaf(a: Archive, s: State, d: Doc, data: Doc): Result<State> {
    if IsAttestation(d, data) then if a.runnable then Failed else CheckAttestation(a, s, d, data)
    else if a.runnable then CheckRunnable(a, s, d, data)
    else CheckImage(a, a.want, s, d, data)
  }

  function Leaf(a: Archive, s: State, d: Doc, data: Doc): Result<State> {
    if !AnnotationsAllowed(d) || !(IsAttestation(d, data) || IsPlainImage(d, data)) then Failed
    else
      match CheckLeaf(a, s, d, data)
      case Failed => Failed
      case Ok(next) => if NewLeaf(next.leaves, d) then Ok(next.(leaves := next.leaves + [d])) else Failed
  }

  predicate IndexAllowed(data: Doc) {
    && Versioned(data, INDEX) && "subject" !in data && "artifactType" !in data
    && Get(data, "manifests").List? && 0 < |Get(data, "manifests").items| <= MAX_MANIFESTS
  }

  /** How deep a walk may still go; it makes the walk terminate on every graph. */
  function Room(depth: nat): nat {
    if depth <= MAX_DEPTH then MAX_DEPTH + 1 - depth else 0
  }

  function WalkIndex(a: Archive, s: State, data: Doc, depth: nat): Result<State>
    decreases Room(depth), 2, 0
  {
    if IndexAllowed(data) then WalkAll(a, s, Get(data, "manifests").items, depth) else Failed
  }

  function WalkAll(a: Archive, s: State, children: seq<Json>, depth: nat): Result<State>
    decreases Room(depth), 1, |children|
  {
    if children == [] then Ok(s)
    else
      match Walk(a, s, children[0], depth)
      case Failed => Failed
      case Ok(next) => WalkAll(a, next, children[1..], depth)
  }

  function Walk(a: Archive, s: State, descriptor: Json, depth: nat): Result<State>
    decreases Room(depth), 0, 0
  {
    if depth > MAX_DEPTH || s.visited >= MAX_VISITED then Failed
    else
      match ReadBlob(a, s.(visited := s.visited + 1), descriptor, {INDEX, MANIFEST})
      case Failed => Failed
      case Ok(read) =>
        var d := FieldsOf(descriptor);
        if !Versioned(read.doc, MediaOf(d)) then Failed
        else if MediaOf(d) == INDEX then WalkIndex(a, read.s, read.doc, depth + 1)
        else Leaf(a, read.s, d, read.doc)
  }

  /** `validate_complete_graph`. */
  predicate Complete(a: Archive, s: State) {
    if a.runnable then s.descriptors.Keys == {0, 1} && |s.images| == 2
    else |s.images| == 1 && forall e | e in s.attestations :: e.subject == s.images[0].descriptor
  }

  /** The checks of an archive after its inventory. */
  function Inspect(a: Archive): Result<State> {
    match ReadJson(a, FRESH, LAYOUT, MAX_JSON)
    case Failed => Failed
    case Ok(layout) =>
      if Get(layout.doc, "imageLayoutVersion") != Str("1.0.0") then Failed
      else
        match ReadJson(a, layout.s, INDEX_JSON, MAX_JSON)
        case Failed => Failed
        case Ok(root) =>
          match WalkIndex(a, root.s, root.doc, 0)
          case Failed => Failed
          case Ok(s) => if Complete(a, s) then Ok(s) else Failed
  }

  // ---- The archive object -----------------------------------------------------------------

  class Walker {
    const archive: Archive
    var visited: nat
    var leaves: seq<Doc>
    var images: seq<Image>
    var attestations: seq<Evidence>
    var metadataBytes: nat
    var metadataNames: set<string>
    var attestationNames: set<string>
    var layers: map<LayerKey, Expanded>
    var rootfsBytes: nat
    var descriptors: map<nat, Doc>
    var layerNames: set<string>

    constructor (a: Archive)
      ensures archive == a && Now() == FRESH
    {
      archive := a;
      visited, leaves, images, attestations := 0, [], [], [];
      metadataBytes, metadataNames, attestationNames := 0, {}, {};
      layers, rootfsBytes := map[], 0;
      descriptors, layerNames := map[], {};
    }

    function Now(): State
      reads this
    {
      State(visited, leaves, images, attestations, metadataBytes, metadataNames, attestationNames, layers, rootfsBytes,
            descriptors, layerNames)
    }

    method ReadFile(name: string, limit: nat) returns (r: Result<Doc>)
      modifies this
      ensures match ReadJson(archive, old(Now()), name, limit)
              case Failed => r.Failed?
              case Ok(read) => r == Ok(read.doc) && Now() == read.s
    {
      metadataNames := metadataNames + {name};
      if name !in archive.files || |archive.files[name]| == 0 || |archive.files[name]| > limit {
        return Failed;
      }
      metadataBytes := metadataBytes + |archive.files[name]|;
      if metadataBytes > MAX_JSON_TOTAL {
        return Failed;
      }
      r := archive.codec.decode(archive.files[name]);
    }

    method ReadDescriptor(descriptor: Json, types: set<string>) returns (r: Result<Doc>)
      modifies this
      ensures match ReadBlob(archive, old(Now()), descriptor, types)
              case Failed => r.Failed?
              case Ok(read) => r == Ok(read.doc) && Now() == read.s
    {
      hide BlobAllowed, Readable;
      if !BlobAllowed(archive, descriptor, types) {
        return Failed;
      }
      BlobHasFields(archive, descriptor, types);
      r := ReadFile(BlobName(DigestOf(descriptor.fields)), MAX_JSON);
    }

    method LayerDigest(layer: Doc) returns (r: Result<string>)
      requires BlobName(DigestOf(layer)) in archive.files
      modifies this`layers, this`rootfsBytes
      ensures forall expected :: (match CheckLayer(archive, old(Now()), layer, expected)
                                  case Failed => r.Failed? || Str(r.value) != expected
                                  case Ok(next) => r.Ok? && Str(r.value) == expected && Now() == next)
    {
      var key := LayerKeyOf(layer);
      if key in layers {
        rootfsBytes := rootfsBytes + layers[key].size;
        return if rootfsBytes <= MAX_ROOTFS_BYTES then Ok(layers[key].digest) else Failed;
      }
      var expanded := archive.codec.expand(archive.files[BlobName(key.digest)], key.mediaType);
      if expanded.Failed? || expanded.value.size > MAX_LAYER_BYTES
         || rootfsBytes + expanded.value.size > MAX_ROOTFS_BYTES {
        return Failed;
      }
      rootfsBytes := rootfsBytes + expanded.value.size;
      layers := layers[key := expanded.value];
      r := Ok(expanded.value.digest);
    }

    method TakeImage(want: Want, d: Doc, data: Doc) returns (ok: bool)
      modifies this
      ensures match CheckImage(archive, want, old(Now()), d, data)
              case Failed => !ok
              case Ok(next) => ok && Now() == next
    {
      hide ImageAllowed, ReadBlob, CheckLayer;
      var details := ReadDescriptor(Get(data, "config"), {CONFIG});
      if details.Failed? || !ImageAllowed(archive, want, d, data, details.value) {
        return false;
      }
      LayersAllowed(archive, want, d, data, details.value);
      var items, ids := LayersOf(data), DiffIds(details.value);
      ghost var start := Now();
      var i := 0;
      assert items[0..] == items && ids[0..] == ids;
      while i < |items|
        invariant i <= |items| == |ids|
        invariant CheckLayers(archive, Now(), items[i..], ids[i..]) == CheckLayers(archive, start, items, ids)
      {
        assert items[i..][0] == items[i] && ids[i..][0] == ids[i];
        assert items[i..][1..] == items[i + 1..] && ids[i..][1..] == ids[i + 1..];
        LayerPresent(archive, items, i);
        assert CheckLayers(archive, Now(), items[i..], ids[i..]) ==
               match CheckLayer(archive, Now(), FieldsOf(items[i]), ids[i])
               case Failed => Failed
               case Ok(next) => CheckLayers(archive, next, items[i + 1..], ids[i + 1..]);
        var digest := LayerDigest(FieldsOf(items[i]));
        if digest.Failed? || Str(digest.value) != ids[i] {
          return false;
        }
        i := i + 1;
      }
      assert CheckLayers(archive, Now(), items[i..], ids[i..]) == Ok(Now());
      images := images + [Image(KeyOf(d), DigestOf(FieldsOf(Get(data, "config"))))];
      ok := true;
    }

    method TakeRunnable(d: Doc, data: Doc) returns (ok: bool)
      modifies this
      ensures match CheckRunnable(archive, old(Now()), d, data)
              case Failed => !ok
              case Ok(next) => ok && Now() == next
    {
      hide CheckImage;
      var i := PlatformOf(d);
      if i.None? || i.value in descriptors {
        return false;
      }
      ok := TakeImage(WantFor(i.value, archive.want.version, archive.want.revision), d, data);
      if ok {
        descriptors := descriptors[i.value := d];
        layerNames := layerNames + LayerNames(data);
      }
    }

    method TakeAttestation(d: Doc, data: Doc) returns (ok: bool)
      modifies this
      ensures match CheckAttestation(archive, old(Now()), d, data)
              case Failed => !ok
              case Ok(next) => ok && Now() == next
    {
      hide ReadBlob, TypedSubject, LegacySubject, EvidencePlatform, StatementAllowed, BlobAllowed, ReadJson;
      if !EvidencePlatform(d) {
        return false;
      }
      var details := ReadDescriptor(Get(data, "config"), if IsTyped(data) then {EMPTY_CONFIG} else {CONFIG});
      if details.Failed? {
        return false;
      }
      var subject := if IsTyped(data) then TypedSubject(archive, d, data, details.value)
                     else LegacySubject(archive, d, data, details.value);
      var items := LayersOf(data);
      if subject.Failed? || !Get(data, "layers").List? || |items| == 0 || |items| > MAX_LAYERS {
        return false;
      }
      ghost var start := Now();
      var types: set<string> := {};
      var i := 0;
      assert items[0..] == items;
      while i < |items|
        invariant i <= |items|
        invariant ReadStatements(archive, Now(), items[i..], subject.value, types)
                  == ReadStatements(archive, start, items, subject.value, {})
      {
        assert items[i..][0] == items[i] && items[i..][1..] == items[i + 1..];
        if !BlobAllowed(archive, items[i], {IN_TOTO}) {
          return false;
        }
        BlobHasFields(archive, items[i], {IN_TOTO});
        var name := BlobName(DigestOf(items[i].fields));
        var statement := ReadFile(name, MAX_ATTESTATION_JSON);
        if statement.Failed? || !StatementAllowed(statement.value, subject.value) {
          return false;
        }
        StatementTyped(statement.value, subject.value);
        types := types + {Get(statement.value, "predicateType").s};
        attestationNames := attestationNames + {name};
        i := i + 1;
      }
      attestations := attestations + [Evidence(DigestOf(d), subject.value, types)];
      ok := true;
    }

    method VisitIndex(data: Doc, depth: nat) returns (ok: bool)
      modifies this
      ensures match WalkIndex(archive, old(Now()), data, depth)
              case Failed => !ok
              case Ok(next) => ok && Now() == next
      decreases Room(depth), 1
    {
      hide Walk;
      if !IndexAllowed(data) {
        return false;
      }
      var children := Get(data, "manifests").items;
      ghost var start := Now();
      var i := 0;
      assert children[0..] == children;
      while i < |children|
        invariant i <= |children|
        invariant WalkAll(archive, Now(), children[i..], depth) == WalkAll(archive, start, children, depth)
      {
        assert children[i..][0] == children[i] && children[i..][1..] == children[i + 1..];
        var taken := Visit(children[i], depth);
        if !taken {
          return false;
        }
        i := i + 1;
      }
      ok := true;
    }

    method Visit(descriptor: Json, depth: nat) returns (ok: bool)
      modifies this
      ensures match Walk(archive, old(Now()), descriptor, depth)
              case Failed => !ok
              case Ok(next) => ok && Now() == next
      decreases Room(depth), 0
    {
      hide ReadBlob, WalkIndex, CheckAttestation, CheckImage, CheckRunnable, AnnotationsAllowed, IsAttestation,
           IsPlainImage, NewLeaf;
      visited := visited + 1;
      if depth > MAX_DEPTH || visited > MAX_VISITED {
        return false;
      }
      var read := ReadDescriptor(descriptor, {INDEX, MANIFEST});
      if read.Failed? {
        return false;
      }
      var d, data := FieldsOf(descriptor), read.value;
      if !Versioned(data, MediaOf(d)) {
        return false;
      }
      if MediaOf(d) == INDEX {
        ok := VisitIndex(data, depth + 1);
        return;
      }
      if !AnnotationsAllowed(d) {
        return false;
      }
      if IsAttestation(d, data) {
        if archive.runnable {
          return false;
        }
        ok := TakeAttestation(d, data);
      } else if !IsPlainImage(d, data) {
        return false;
      } else if archive.runnable {
        ok := TakeRunnable(d, data);
      } else {
        ok := TakeImage(archive.want, d, data);
      }
      ok := ok && NewLeaf(leaves, d);
      if ok {
        leaves := leaves + [d];
      }
    }

    /** The checks of the constructor after the inventory. */
    method Check() returns (ok: bool)
      requires Now() == FRESH
      modifies this
      ensures match Inspect(archive)
              case Failed => !ok
              case Ok(s) => ok && Now() == s
    {
      hide ReadJson, WalkIndex, Complete;
      var layout := ReadFile(LAYOUT, MAX_JSON);
      if layout.Failed? || Get(layout.value, "imageLayoutVersion") != Str("1.0.0") {
        return false;
      }
      var root := ReadFile(INDEX_JSON, MAX_JSON);
      if root.Failed? {
        return false;
      }
      ok := VisitIndex(root.value, 0);
      ok := ok && Complete(archive, Now());
    }
  }

  lemma BlobHasFields(a: Archive, descriptor: Json, types: set<string>)
    requires BlobAllowed(a, descriptor, types)
    ensures descriptor.Obj? && BlobName(DigestOf(descriptor.fields)) in a.files
  {
  }

  lemma LayersAllowed(a: Archive, want: Want, d: Doc, data: Doc, details: Doc)
    requires ImageAllowed(a, want, d, data, details)
    ensures AllAllowed(a, LayersOf(data), LAYER_TYPES) && |LayersOf(data)| == |DiffIds(details)|
  {
  }

  lemma LayerPresent(a: Archive, layers: seq<Json>, i: nat)
    requires AllAllowed(a, layers, LAYER_TYPES) && i < |layers|
    ensures BlobName(DigestOf(FieldsOf(layers[i]))) in a.files
  {
    BlobHasFields(a, layers[i], LAYER_TYPES);
  }

  lemma StatementTyped(statement: Doc, subject: Key)
    requires StatementAllowed(statement, subject)
    ensures Get(statement, "predicateType").Str?
  {
  }
}
