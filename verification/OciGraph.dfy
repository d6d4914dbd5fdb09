/** What an OCI archive says (scripts/merge_oci_archives.py): its graph in terms of the JSON alone, and that the
    walk accepts exactly the graphs whose parts are all fine and together keep the limits. */
module OciGraph {
  import opened Results
  import opened OciArchive
  import opened OciReplay
  import opened OciRuntime

  // ---- JSON -------------------------------------------------------------------------------

  /** The value along a path of keys, null where there is none. */
  function At(v: Json, path: seq<string>): Json
    decreases |path|
  {
    if path == [] then v
    else if v.Obj? && path[0] in v.fields then At(v.fields[path[0]], path[1..])
    else Null
  }

  predicate Lacks(v: Json, key: string) {
    v.Obj? ==> key !in v.fields
  }

  lemma AtOne(v: Json, key: string)
    ensures At(v, [key]) == Get(FieldsOf(v), key)
  {
    assert [key][1..] == [];
  }

  lemma AtTwo(v: Json, key: string, inner: string)
    ensures At(v, [key, inner]) == Get(FieldsOf(Get(FieldsOf(v), key)), inner)
  {
    assert [key, inner][1..] == [inner];
    AtOne(Get(FieldsOf(v), key), inner);
  }

  // ---- Blobs ------------------------------------------------------------------------------

  /** The descriptor names a blob of the archive by digest and size, under one of these media types, and
      brings no other source of it. */
  predicate NamesBlob(a: Archive, v: Json, types: set<string>) {
    var digest := At(v, ["digest"]);
    && digest.Str? && IsDigest(digest.s) && BLOB_PREFIX + digest.s[7..] in a.files
    && At(v, ["size"]) == Int(|a.files[BLOB_PREFIX + digest.s[7..]]|)
    && At(v, ["mediaType"]).Str? && At(v, ["mediaType"]).s in types
    && Lacks(v, "urls")
    && (Lacks(v, "data") || (At(v, ["mediaType"]) == Str(EMPTY_CONFIG) && At(v, ["data"]) == Str("e30=")))
  }

  function FileOf(v: Json): string {
    if At(v, ["digest"]).Str? then BlobName(At(v, ["digest"]).s) else BLOB_PREFIX
  }

  function Content(a: Archive, v: Json): Bytes {
    if FileOf(v) in a.files then a.files[FileOf(v)] else []
  }

  /** The JSON object of a blob, null if it has none. */
  function Parsed(a: Archive, v: Json): Json {
    match a.codec.decode(Content(a, v))
    case Ok(doc) => Obj(doc)
    case Failed => Null
  }

  predicate IsMetadata(a: Archive, v: Json, types: set<string>, limit: nat) {
    NamesBlob(a, v, types) && 0 < |Content(a, v)| <= limit && Parsed(a, v).Obj?
  }

  predicate HasSchema(doc: Json, media: Json) {
    At(doc, ["schemaVersion"]) == Int(2) && (Lacks(doc, "mediaType") || At(doc, ["mediaType"]) == media)
  }

  // ---- Images -----------------------------------------------------------------------------

  predicate IsVariant(v: Json, want: Want) {
    v == Null || (want.arch == "arm64" && v == Str("v8"))
  }

  /** The expanded layer is the one the config lists. */
  predicate ExpandsTo(a: Archive, layer: Json, id: Json) {
    && At(layer, ["mediaType"]).Str?
    && match a.codec.expand(Content(a, layer), At(layer, ["mediaType"]).s)
       case Failed => false
       case Ok(x) => x.size <= MAX_LAYER_BYTES && Str(x.digest) == id
  }

  /** A runnable image for the wanted platform, version and revision, all of whose layers are there. */
  predicate ImageOk(a: Archive, want: Want, v: Json) {
    var manifest := Parsed(a, v);
    var config := Parsed(a, At(manifest, ["config"]));
    var layers, ids := At(manifest, ["layers"]), At(config, ["rootfs", "diff_ids"]);
    && IsMetadata(a, At(manifest, ["config"]), {CONFIG}, MAX_JSON)
    && At(v, ["platform", "os"]) == At(config, ["os"]) == Str(want.os)
    && At(v, ["platform", "architecture"]) == At(config, ["architecture"]) == Str(want.arch)
    && IsVariant(At(v, ["platform", "variant"]), want) && IsVariant(At(config, ["variant"]), want)
    && (forall key | key in {"os.version", "os.features", "features"} ::
          !Truthy(At(v, ["platform", key])) && !Truthy(At(config, [key])))
    && At(At(config, ["config", "Labels"]), ["org.opencontainers.image.version"]) == Str(want.version)
    && At(At(config, ["config", "Labels"]), ["org.opencontainers.image.revision"]) == Str(want.revision)
    && At(config, ["rootfs", "type"]) == Str("layers")
    && layers.List? && ids.List? && |layers.items| == |ids.items| <= MAX_LAYERS
    && forall k | 0 <= k < |layers.items| ::
         NamesBlob(a, layers.items[k], LAYER_TYPES) && IsDigestValue(ids.items[k])
         && ExpandsTo(a, layers.items[k], ids.items[k])
  }

  // ---- Attestations -----------------------------------------------------------------------

  /** An in-toto statement of a type that is about the content with this SHA-256. */
  predicate Attests(statement: Json, hex: string) {
    && (At(statement, ["_type"]) == Str("https://in-toto.io/Statement/v0.1")
        || At(statement, ["_type"]) == Str("https://in-toto.io/Statement/v1"))
    && At(statement, ["predicateType"]).Str? && At(statement, ["predicateType"]).s != ""
    && At(statement, ["subject"]).List?
    && (forall item | item in At(statement, ["subject"]).items :: item.Obj?)
    && exists item | item in At(statement, ["subject"]).items :: At(item, ["digest", "sha256"]) == Str(hex)
  }

  predicate StatementOk(a: Archive, layer: Json, hex: string) {
    IsMetadata(a, layer, {IN_TOTO}, MAX_ATTESTATION_JSON) && Attests(Parsed(a, layer), hex)
  }

  function ReferenceOf(v: Json): Json {
    At(v, ["annotations", "vnd.docker.reference.digest"])
  }

  /** A platform of a subject is none, or Linux on this architecture as far as it says. */
  predicate PlatformFits(subject: Json, arch: string) {
    var platform := At(subject, ["platform"]);
    || platform == Null
    || (platform.Obj? && (Lacks(platform, "os") || At(platform, ["os"]) == Str("linux"))
        && (Lacks(platform, "architecture") || At(platform, ["architecture"]) == Str(arch)))
  }

  /** The attestation has an artifact type: its subject is a descriptor. */
  predicate TypedOk(a: Archive, v: Json) {
    var manifest := Parsed(a, v);
    var config, subject := At(manifest, ["config"]), At(manifest, ["subject"]);
    && At(manifest, ["artifactType"]) == Str(ATTESTATION)
    && (At(v, ["artifactType"]) == Null || At(v, ["artifactType"]) == Str(ATTESTATION))
    && IsMetadata(a, config, {EMPTY_CONFIG}, MAX_JSON) && Parsed(a, config) == Obj(map[])
    && At(config, ["size"]) == Int(2) && At(config, ["digest"]) == Str(DIGEST_PREFIX + a.codec.hash(BRACES))
    && NamesBlob(a, subject, {MANIFEST})
    && PlatformFits(subject, a.want.arch)
    && (ReferenceOf(v) == Null || ReferenceOf(v) == At(subject, ["digest"]))
  }

  /** The attestation has none: its subject is what an annotation refers to. */
  predicate LegacyOk(a: Archive, v: Json) {
    var manifest := Parsed(a, v);
    var config := At(manifest, ["config"]);
    && Lacks(v, "artifactType") && Lacks(manifest, "subject") && IsMetadata(a, config, {CONFIG}, MAX_JSON)
    && At(Parsed(a, config), ["os"]) == At(Parsed(a, config), ["architecture"]) == Str("unknown")
    && ReferenceOf(v).Str? && IsDigest(ReferenceOf(v).s) && BLOB_PREFIX + ReferenceOf(v).s[7..] in a.files
  }

  predicate HasType(a: Archive, v: Json) {
    At(Parsed(a, v), ["artifactType"]) != Null
  }

  /** The digest of what an attestation is about. */
  function About(a: Archive, v: Json): string {
    var digest := if HasType(a, v) then At(Parsed(a, v), ["subject", "digest"]) else ReferenceOf(v);
    if digest.Str? then digest.s else ""
  }

  function StatementsOf(a: Archive, v: Json): seq<Json> {
    var layers := At(Parsed(a, v), ["layers"]);
    if layers.List? then layers.items else []
  }

  /** An attestation whose every statement is about its subject. */
  predicate EvidenceOk(a: Archive, v: Json) {
    && At(v, ["platform", "os"]) == At(v, ["platform", "architecture"]) == Str("unknown")
    && (At(v, ["annotations", "vnd.docker.reference.type"]) == Null
        || At(v, ["annotations", "vnd.docker.reference.type"]) == Str("attestation-manifest"))
    && (if HasType(a, v) then TypedOk(a, v) else LegacyOk(a, v))
    && At(Parsed(a, v), ["layers"]).List? && 0 < |StatementsOf(a, v)| <= MAX_LAYERS
    && |About(a, v)| >= 7
    && forall layer | layer in StatementsOf(a, v) :: StatementOk(a, layer, About(a, v)[7..])
  }

  // ---- The graph --------------------------------------------------------------------------

  predicate IsIndex(v: Json) {
    At(v, ["mediaType"]) == Str(INDEX)
  }

  function Children(doc: Json): seq<Json> {
    var manifests := At(doc, ["manifests"]);
    if manifests.List? then manifests.items else []
  }

  predicate IndexOk(doc: Json) {
    && HasSchema(doc, Str(INDEX)) && Lacks(doc, "subject") && Lacks(doc, "artifactType")
    && At(doc, ["manifests"]).List? && 0 < |Children(doc)| <= MAX_MANIFESTS
  }

  predicate IsEvidence(a: Archive, v: Json) {
    At(v, ["annotations", "vnd.docker.reference.type"]) == Str("attestation-manifest")
    || At(Parsed(a, v), ["artifactType"]) == Str(ATTESTATION)
  }

  predicate AnnotationsOk(v: Json) {
    Lacks(v, "annotations")
    || (At(v, ["annotations"]).Obj?
        && forall key | key in At(v, ["annotations"]).fields :: At(v, ["annotations"]).fields[key].Str?)
  }

  predicate LeafOk(a: Archive, v: Json) {
    && AnnotationsOk(v)
    && if IsEvidence(a, v) then EvidenceOk(a, v)
       else
         && Lacks(v, "artifactType") && Lacks(Parsed(a, v), "artifactType") && Lacks(Parsed(a, v), "subject")
         && At(v, ["annotations", "vnd.docker.reference.type"]) == Null && ImageOk(a, a.want, v)
  }

  /** A descriptor at a depth of the graph. */
  datatype Place = Place(v: Json, depth: nat)

  predicate PlaceOk(a: Archive, p: Place) {
    && p.depth <= MAX_DEPTH && IsMetadata(a, p.v, {INDEX, MANIFEST}, MAX_JSON)
    && HasSchema(Parsed(a, p.v), At(p.v, ["mediaType"]))
    && if IsIndex(p.v) then IndexOk(Parsed(a, p.v)) else LeafOk(a, p.v)
  }

  /** All descriptors from one on, in the order of the graph; a descriptor that is reached again is there
      again. */
  function From(a: Archive, v: Json, depth: nat): seq<Place>
    decreases Room(depth), 0, 0
  {
    [Place(v, depth)]
    + if IsIndex(v) && depth <= MAX_DEPTH then FromAll(a, Children(Parsed(a, v)), depth + 1) else []
  }

  function FromAll(a: Archive, items: seq<Json>, depth: nat): seq<Place>
    decreases Room(depth), 1, |items|
  {
    if items == [] then [] else From(a, items[0], depth) + FromAll(a, items[1..], depth)
  }

  // ---- Reading ----------------------------------------------------------------------------

  lemma BlobIsNamed(a: Archive, v: Json, types: set<string>)
    ensures BlobAllowed(a, v, types) <==> NamesBlob(a, v, types)
    ensures v.Obj? ==> FileOf(v) == BlobName(DigestOf(v.fields))
  {
    AtOne(v, "digest");
    AtOne(v, "size");
    AtOne(v, "mediaType");
    AtOne(v, "data");
  }

  /** The file counts as metadata once it has been read. */
  function Recorded(s: State, name: string, size: nat): State {
    s.(metadataBytes := s.metadataBytes + size, metadataNames := s.metadataNames + {name})
  }

  /** A blob is read exactly if it is metadata that fits into what is left of the budget. */
  lemma MetadataRead(a: Archive, s: State, v: Json, types: set<string>)
    ensures ReadBlob(a, s, v, types).Ok? <==>
            IsMetadata(a, v, types, MAX_JSON) && s.metadataBytes + |Content(a, v)| <= MAX_JSON_TOTAL
    ensures ReadBlob(a, s, v, types).Ok? ==>
            Parsed(a, v).Obj?
            && ReadBlob(a, s, v, types).value == Read(Recorded(s, FileOf(v), |Content(a, v)|), Parsed(a, v).fields)
  {
    BlobIsNamed(a, v, types);
    NamedIsThere(a, v, types);
    hide BlobAllowed, NamesBlob, FileOf, DigestOf;
  }

  lemma NamedIsThere(a: Archive, v: Json, types: set<string>)
    ensures NamesBlob(a, v, types) ==> v.Obj? && FileOf(v) in a.files
  {
    AtOne(v, "digest");
  }

  lemma SchemaIs(doc: Doc, media: string)
    ensures Versioned(doc, media) <==> HasSchema(Obj(doc), Str(media))
  {
    AtOne(Obj(doc), "schemaVersion");
    AtOne(Obj(doc), "mediaType");
  }

  // ---- Images -----------------------------------------------------------------------------

  function ConfigAt(a: Archive, v: Json): Json {
    At(Parsed(a, v), ["config"])
  }

  /** The expanded size of the image. */
  function RootBytes(a: Archive, v: Json): nat {
    LayerBytes(a, StatementsOf(a, v))
  }

  lemma PlatformIsFor(v: Json, details: Doc, want: Want)
    ensures SamePlatform(Get(FieldsOf(v), "platform"), details, want) <==>
      && At(v, ["platform", "os"]) == At(Obj(details), ["os"]) == Str(want.os)
      && At(v, ["platform", "architecture"]) == At(Obj(details), ["architecture"]) == Str(want.arch)
      && IsVariant(At(v, ["platform", "variant"]), want) && IsVariant(At(Obj(details), ["variant"]), want)
      && forall key | key in {"os.version", "os.features", "features"} ::
           !Truthy(At(v, ["platform", key])) && !Truthy(At(Obj(details), [key]))
  {
    forall key ensures At(v, ["platform", key]) == Get(FieldsOf(Get(FieldsOf(v), "platform")), key)
      ensures At(Obj(details), [key]) == Get(details, key) {
      AtTwo(v, "platform", key);
      AtOne(Obj(details), key);
    }
    hide At;
  }

  lemma LabelsAre(details: Doc, want: Want)
    ensures Labelled(details, want) <==>
      && At(At(Obj(details), ["config", "Labels"]), ["org.opencontainers.image.version"]) == Str(want.version)
      && At(At(Obj(details), ["config", "Labels"]), ["org.opencontainers.image.revision"]) == Str(want.revision)
  {
    AtTwo(Obj(details), "config", "Labels");
    AtOne(Get(FieldsOf(Get(details, "config")), "Labels"), "org.opencontainers.image.version");
    AtOne(Get(FieldsOf(Get(details, "config")), "Labels"), "org.opencontainers.image.revision");
    hide At;
  }

  /** The layers of the manifest and the diff IDs of the config belong together. */
  predicate LayersOk(a: Archive, layers: Json, ids: Json) {
    && layers.List? && ids.List? && |layers.items| == |ids.items| <= MAX_LAYERS
    && forall k | 0 <= k < |layers.items| ::
         NamesBlob(a, layers.items[k], LAYER_TYPES) && IsDigestValue(ids.items[k])
         && ExpandsTo(a, layers.items[k], ids.items[k])
  }

  lemma LayersAre(a: Archive, data: Doc, details: Doc)
    ensures (&& Get(data, "layers").List? && |LayersOf(data)| <= MAX_LAYERS
             && AllAllowed(a, LayersOf(data), LAYER_TYPES) && Rooted(details, |LayersOf(data)|)
             && LayersFine(a, LayersOf(data), DiffIds(details)))
       <==> At(Obj(details), ["rootfs", "type"]) == Str("layers")
            && LayersOk(a, At(Obj(data), ["layers"]), At(Obj(details), ["rootfs", "diff_ids"]))
  {
    AtOne(Obj(data), "layers");
    AtTwo(Obj(details), "rootfs", "type");
    AtTwo(Obj(details), "rootfs", "diff_ids");
    hide At;
    var layers, ids := LayersOf(data), DiffIds(details);
    forall layer ensures BlobAllowed(a, layer, LAYER_TYPES) <==> NamesBlob(a, layer, LAYER_TYPES) {
      BlobIsNamed(a, layer, LAYER_TYPES);
    }
    forall layer, id | NamesBlob(a, layer, LAYER_TYPES)
      ensures LayerFine(a, FieldsOf(layer), id) <==> ExpandsTo(a, layer, id) {
      LayerIs(a, layer, id);
    }
    hide BlobAllowed, NamesBlob, LayerFine, ExpandsTo, IsDigestValue;
  }

  lemma LayerIs(a: Archive, layer: Json, id: Json)
    requires NamesBlob(a, layer, LAYER_TYPES)
    ensures LayerFine(a, FieldsOf(layer), id) <==> ExpandsTo(a, layer, id)
  {
    AtOne(layer, "digest");
    AtOne(layer, "mediaType");
  }

  /** Everything of an image but its limits. */
  lemma ImageIs(a: Archive, want: Want, d: Doc, data: Doc)
    requires Parsed(a, Obj(d)) == Obj(data)
    ensures ImageOk(a, want, Obj(d)) <==>
      && IsMetadata(a, Get(data, "config"), {CONFIG}, MAX_JSON)
      && var details := Parsed(a, Get(data, "config")).fields;
         ImageAllowed(a, want, d, data, details) && LayersFine(a, LayersOf(data), DiffIds(details))
  {
    AtOne(Obj(data), "config");
    hide At, IsMetadata, SamePlatform, Labelled, Rooted, AllAllowed, LayersFine, NamesBlob, Parsed, ExpandsTo;
    if Parsed(a, Get(data, "config")).Obj? {
      var details := Parsed(a, Get(data, "config")).fields;
      PlatformIsFor(Obj(d), details, want);
      LabelsAre(details, want);
      LayersAre(a, data, details);
    } else {
      NotMetadata(a, Get(data, "config"), {CONFIG}, MAX_JSON);
    }
  }

  lemma NotMetadata(a: Archive, v: Json, types: set<string>, limit: nat)
    requires !Parsed(a, v).Obj?
    ensures !IsMetadata(a, v, types, limit)
  {
  }

  lemma ImageSteps(a: Archive, want: Want, s: State, d: Doc, data: Doc)
    requires CacheFine(a, s) && s.rootfsBytes <= MAX_ROOTFS_BYTES
    ensures var read := ReadBlob(a, s, Get(data, "config"), {CONFIG});
      var r := CheckImage(a, want, s, d, data);
      var layers := LayersOf(data);
      && (r.Ok? <==>
            && read.Ok? && ImageAllowed(a, want, d, data, read.value.doc)
            && LayersFine(a, layers, DiffIds(read.value.doc))
            && read.value.s.rootfsBytes + LayerBytes(a, layers) <= MAX_ROOTFS_BYTES)
      && (r.Ok? ==>
            && CacheFine(a, r.value)
            && r.value == read.value.s.(
                            layers := r.value.layers, rootfsBytes := read.value.s.rootfsBytes + LayerBytes(a, layers),
                            images := read.value.s.images
                                      + [Image(KeyOf(d), DigestOf(FieldsOf(Get(data, "config"))))]))
  {
    hide ImageAllowed, LayersFine, CheckLayers, LayerBytes, CacheFine, DiffIds, BlobAllowed, Readable;
    var read := ReadBlob(a, s, Get(data, "config"), {CONFIG});
    if read.Ok? {
      CacheStays(a, s, read.value.s);
      if ImageAllowed(a, want, d, data, read.value.doc) {
        LayersAllowed(a, want, d, data, read.value.doc);
        LayersChecked(a, read.value.s, LayersOf(data), DiffIds(read.value.doc));
        if CheckImage(a, want, s, d, data).Ok? {
          CacheStays(a, CheckLayers(a, read.value.s, LayersOf(data), DiffIds(read.value.doc)).value,
                     CheckImage(a, want, s, d, data).value);
        }
      }
    }
  }

  /** An image is taken exactly if it is fine, its config fits into the budget of metadata and its layers into
      that of the root filesystem. */
  lemma ImageChecked(a: Archive, want: Want, s: State, d: Doc, data: Doc)
    requires CacheFine(a, s) && s.rootfsBytes <= MAX_ROOTFS_BYTES && Parsed(a, Obj(d)) == Obj(data)
    ensures var v, config := Obj(d), ConfigAt(a, Obj(d));
      var r := CheckImage(a, want, s, d, data);
      && (r.Ok? <==> ImageOk(a, want, v) && s.metadataBytes + |Content(a, config)| <= MAX_JSON_TOTAL
                     && s.rootfsBytes + RootBytes(a, v) <= MAX_ROOTFS_BYTES)
      && (r.Ok? ==>
            && CacheFine(a, r.value)
            && r.value == Recorded(s, FileOf(config), |Content(a, config)|).(
                            layers := r.value.layers, rootfsBytes := s.rootfsBytes + RootBytes(a, v),
                            images := s.images + [Image(KeyOf(d), DigestOf(FieldsOf(config)))]))
  {
    var config := Get(data, "config");
    AtOne(Obj(data), "config");
    AtOne(Obj(data), "layers");
    MetadataRead(a, s, config, {CONFIG});
    ImageIs(a, want, d, data);
    ImageSteps(a, want, s, d, data);
    hide At, IsMetadata, ImageAllowed, LayersFine, NamesBlob, Parsed, Content, FileOf, ReadBlob, LayerBytes;
    hide CacheFine, ImageOk, DiffIds, CheckImage, KeyOf, DigestOf;
  }

  // ---- Attestations -----------------------------------------------------------------------

  function TypeOf(a: Archive, layer: Json): string {
    var kind := At(Parsed(a, layer), ["predicateType"]);
    if kind.Str? then kind.s else ""
  }

  function TypesOf(a: Archive, layers: seq<Json>): set<string> {
    set layer | layer in layers :: TypeOf(a, layer)
  }

  function FilesOf(layers: seq<Json>): set<string> {
    set layer | layer in layers :: FileOf(layer)
  }

  function ContentBytes(a: Archive, layers: seq<Json>): nat {
    if layers == [] then 0 else |Content(a, layers[0])| + ContentBytes(a, layers[1..])
  }

  lemma StatementIs(statement: Doc, subject: Key)
    requires |subject.digest| >= 7
    ensures StatementAllowed(statement, subject) <==> Attests(Obj(statement), subject.digest[7..])
    ensures StatementAllowed(statement, subject) ==>
            Get(statement, "predicateType") == At(Obj(statement), ["predicateType"])
  {
    AtOne(Obj(statement), "_type");
    AtOne(Obj(statement), "predicateType");
    AtOne(Obj(statement), "subject");
    forall item: Json | item.Obj?
      ensures NamesSubject(item, subject.digest) <==> At(item, ["digest", "sha256"]) == Str(subject.digest[7..]) {
      AtTwo(item, "digest", "sha256");
    }
    hide At, NamesSubject;
  }

  lemma StatementRead(a: Archive, s: State, layer: Json, subject: Key, types: set<string>)
    requires |subject.digest| >= 7
    ensures var r := ReadStatement(a, s, layer, subject, types);
      && (r.Ok? <==> StatementOk(a, layer, subject.digest[7..])
                     && s.metadataBytes + |Content(a, layer)| <= MAX_JSON_TOTAL)
      && (r.Ok? ==> r.value == Statements(Recorded(s, FileOf(layer), |Content(a, layer)|).(
                                            attestationNames := s.attestationNames + {FileOf(layer)}),
                                          types + {TypeOf(a, layer)}))
  {
    BlobIsNamed(a, layer, {IN_TOTO});
    NamedIsThere(a, layer, {IN_TOTO});
    if Parsed(a, layer).Obj? {
      StatementIs(Parsed(a, layer).fields, subject);
    }
    hide BlobAllowed, NamesBlob, FileOf, DigestOf, StatementAllowed, Attests, At;
  }

  /** Statements are read exactly if each is about the subject and all fit into the budget. */
  lemma {:induction false} StatementsRead(a: Archive, s: State, layers: seq<Json>, subject: Key, types: set<string>)
    requires |subject.digest| >= 7 && s.metadataBytes <= MAX_JSON_TOTAL
    ensures var r := ReadStatements(a, s, layers, subject, types);
      && (r.Ok? <==> (forall layer | layer in layers :: StatementOk(a, layer, subject.digest[7..]))
                     && s.metadataBytes + ContentBytes(a, layers) <= MAX_JSON_TOTAL)
      && (r.Ok? ==> r.value == Statements(s.(metadataBytes := s.metadataBytes + ContentBytes(a, layers),
                                             metadataNames := s.metadataNames + FilesOf(layers),
                                             attestationNames := s.attestationNames + FilesOf(layers)),
                                          types + TypesOf(a, layers)))
    decreases |layers|
  {
    hide ReadStatement, StatementOk, Content, FileOf, TypeOf;
    if layers != [] {
      StatementRead(a, s, layers[0], subject, types);
      var next := ReadStatement(a, s, layers[0], subject, types);
      assert layers == [layers[0]] + layers[1..];
      if next.Ok? {
        StatementsRead(a, next.value.s, layers[1..], subject, next.value.types);
        assert FilesOf(layers) == {FileOf(layers[0])} + FilesOf(layers[1..]);
        assert TypesOf(a, layers) == {TypeOf(a, layers[0])} + TypesOf(a, layers[1..]);
      }
    }
  }

  lemma PlatformFitsIs(subject: Doc, arch: string)
    ensures SubjectPlatform(subject, arch) <==> PlatformFits(Obj(subject), arch)
  {
    var platform := Get(subject, "platform");
    AtOne(Obj(subject), "platform");
    AtOne(platform, "os");
    AtOne(platform, "architecture");
    hide At;
  }

  lemma TypedIs(a: Archive, d: Doc, data: Doc)
    requires Parsed(a, Obj(d)) == Obj(data) && IsTyped(data)
    ensures TypedOk(a, Obj(d)) <==>
      && IsMetadata(a, Get(data, "config"), {EMPTY_CONFIG}, MAX_JSON)
      && TypedSubject(a, d, data, Parsed(a, Get(data, "config")).fields).Ok?
    ensures TypedOk(a, Obj(d)) ==>
      TypedSubject(a, d, data, Parsed(a, Get(data, "config")).fields).value
      == KeyOf(Get(data, "subject").fields)
  {
    var config, subject := Get(data, "config"), Get(data, "subject");
    hide IsDigest, Parsed, Content;
    AtOne(Obj(data), "config");
    AtOne(Obj(data), "subject");
    AtOne(Obj(data), "artifactType");
    AtOne(Obj(d), "artifactType");
    AtOne(config, "size");
    AtOne(config, "digest");
    AtOne(subject, "digest");
    AtTwo(Obj(d), "annotations", REFERENCE_DIGEST);
    BlobIsNamed(a, subject, {MANIFEST});
    NamedIsThere(a, subject, {MANIFEST});
    assert NamesBlob(a, subject, {MANIFEST}) ==> At(subject, ["digest"]).Str?;
    if subject.Obj? {
      PlatformFitsIs(subject.fields, a.want.arch);
    }
    hide At, NamesBlob, IsMetadata, BlobAllowed, SubjectPlatform, PlatformFits, FileOf, KeyOf;
  }

  lemma LegacyIs(a: Archive, d: Doc, data: Doc)
    requires Parsed(a, Obj(d)) == Obj(data)
    ensures LegacyOk(a, Obj(d)) <==>
      && IsMetadata(a, Get(data, "config"), {CONFIG}, MAX_JSON)
      && LegacySubject(a, d, data, Parsed(a, Get(data, "config")).fields).Ok?
  {
    var config := Get(data, "config");
    AtOne(Obj(data), "config");
    AtOne(Parsed(a, config), "os");
    AtOne(Parsed(a, config), "architecture");
    AtTwo(Obj(d), "annotations", REFERENCE_DIGEST);
    hide At;
  }

  function SubjectKey(a: Archive, v: Json): Key {
    var digest := About(a, v);
    Key(MANIFEST, digest, if BlobName(digest) in a.files then |a.files[BlobName(digest)]| else 0)
  }

  /** The subject of an attestation of either form. */
  lemma SubjectIs(a: Archive, d: Doc, data: Doc)
    requires Parsed(a, Obj(d)) == Obj(data)
    ensures var v, config := Obj(d), Get(data, "config");
      var types := if IsTyped(data) then {EMPTY_CONFIG} else {CONFIG};
      && (IsTyped(data) <==> HasType(a, v))
      && ((if HasType(a, v) then TypedOk(a, v) else LegacyOk(a, v)) <==>
            IsMetadata(a, config, types, MAX_JSON) && SubjectOf(a, d, data, Parsed(a, config).fields).Ok?)
      && ((if HasType(a, v) then TypedOk(a, v) else LegacyOk(a, v)) ==>
            SubjectOf(a, d, data, Parsed(a, config).fields).value == SubjectKey(a, v) && |About(a, v)| >= 7)
  {
    AtOne(Obj(data), "artifactType");
    AtTwo(Obj(data), "subject", "digest");
    AtTwo(Obj(d), "annotations", REFERENCE_DIGEST);
    if IsTyped(data) {
      TypedIs(a, d, data);
      if TypedOk(a, Obj(d)) {
        TypedKey(a, d, data);
      }
    } else {
      LegacyIs(a, d, data);
    }
    hide At, TypedOk, LegacyOk, IsMetadata, TypedSubject;
  }

  lemma TypedKey(a: Archive, d: Doc, data: Doc)
    requires Parsed(a, Obj(d)) == Obj(data) && TypedOk(a, Obj(d)) && HasType(a, Obj(d))
    ensures Get(data, "subject").Obj? && KeyOf(Get(data, "subject").fields) == SubjectKey(a, Obj(d))
    ensures |About(a, Obj(d))| >= 7
  {
    var subject := Get(data, "subject");
    AtOne(Obj(data), "subject");
    AtTwo(Obj(data), "subject", "digest");
    AtOne(subject, "digest");
    AtOne(subject, "size");
    AtOne(subject, "mediaType");
    assert NamesBlob(a, subject, {MANIFEST});
    hide At, IsMetadata;
  }

  lemma EvidenceSteps(a: Archive, s: State, d: Doc, data: Doc)
    ensures var read := ReadBlob(a, s, Get(data, "config"), if IsTyped(data) then {EMPTY_CONFIG} else {CONFIG});
      var r := CheckAttestation(a, s, d, data);
      var steps := EvidencePlatform(d) && read.Ok? && SubjectOf(a, d, data, read.value.doc).Ok?
                   && Get(data, "layers").List? && 0 < |LayersOf(data)| <= MAX_LAYERS;
      && (r.Ok? ==> steps)
      && (steps ==>
            var subject := SubjectOf(a, d, data, read.value.doc).value;
            var end := ReadStatements(a, read.value.s, LayersOf(data), subject, {});
            r == match end
                 case Failed => Failed
                 case Ok(e) => Ok(e.s.(attestations := e.s.attestations + [Evidence(DigestOf(d), subject, e.types)])))
  {
    hide ReadBlob, ReadStatements, TypedSubject, LegacySubject, EvidencePlatform;
  }

  lemma EvidencePlatformIs(d: Doc)
    ensures EvidencePlatform(d) <==>
      && At(Obj(d), ["platform", "os"]) == At(Obj(d), ["platform", "architecture"]) == Str("unknown")
      && (At(Obj(d), ["annotations", REFERENCE_TYPE]) == Null
          || At(Obj(d), ["annotations", REFERENCE_TYPE]) == Str("attestation-manifest"))
  {
    AtTwo(Obj(d), "platform", "os");
    AtTwo(Obj(d), "platform", "architecture");
    AtTwo(Obj(d), "annotations", REFERENCE_TYPE);
    hide At;
  }

  /** Everything of an attestation but its limits. */
  lemma EvidenceIs(a: Archive, d: Doc, data: Doc)
    requires Parsed(a, Obj(d)) == Obj(data)
    ensures ConfigAt(a, Obj(d)) == Get(data, "config") && StatementsOf(a, Obj(d)) == LayersOf(data)
    ensures var config, key := Get(data, "config"), SubjectKey(a, Obj(d));
      var details := Parsed(a, config);
      && (EvidenceOk(a, Obj(d)) <==>
            && EvidencePlatform(d)
            && IsMetadata(a, config, if IsTyped(data) then {EMPTY_CONFIG} else {CONFIG}, MAX_JSON)
            && SubjectOf(a, d, data, details.fields).Ok?
            && Get(data, "layers").List? && 0 < |LayersOf(data)| <= MAX_LAYERS && |key.digest| >= 7
            && forall layer | layer in LayersOf(data) :: StatementOk(a, layer, key.digest[7..]))
      && (IsMetadata(a, config, if IsTyped(data) then {EMPTY_CONFIG} else {CONFIG}, MAX_JSON)
          && SubjectOf(a, d, data, details.fields).Ok? ==>
            SubjectOf(a, d, data, details.fields).value == key && |key.digest| >= 7)
  {
    AtOne(Obj(data), "config");
    AtOne(Obj(data), "layers");
    EvidencePlatformIs(d);
    SubjectIs(a, d, data);
    hide At, IsMetadata, Content, FileOf, EvidencePlatform, SubjectOf, TypedOk, LegacyOk, HasType, About, StatementOk;
  }

  function EvidenceBytes(a: Archive, v: Json): nat {
    |Content(a, ConfigAt(a, v))| + ContentBytes(a, StatementsOf(a, v))
  }

  /** The state behind an attestation that was taken. */
  function WithEvidence(a: Archive, s: State, v: Json): State {
    var layers := StatementsOf(a, v);
    s.(metadataBytes := s.metadataBytes + EvidenceBytes(a, v),
       metadataNames := s.metadataNames + {FileOf(ConfigAt(a, v))} + FilesOf(layers),
       attestationNames := s.attestationNames + FilesOf(layers),
       attestations := s.attestations + [Evidence(DigestOf(FieldsOf(v)), SubjectKey(a, v), TypesOf(a, layers))])
  }

  lemma WithEvidenceSteps(a: Archive, s: State, v: Json, end: Statements)
    requires var read, layers := Recorded(s, FileOf(ConfigAt(a, v)), |Content(a, ConfigAt(a, v))|), StatementsOf(a, v);
      end == Statements(read.(metadataBytes := read.metadataBytes + ContentBytes(a, layers),
                              metadataNames := read.metadataNames + FilesOf(layers),
                              attestationNames := read.attestationNames + FilesOf(layers)),
                        {} + TypesOf(a, layers))
    ensures end.s.(attestations := end.s.attestations
                                   + [Evidence(DigestOf(FieldsOf(v)), SubjectKey(a, v), end.types)])
            == WithEvidence(a, s, v)
  {
    hide FileOf, ConfigAt, Content, ContentBytes, FilesOf, TypesOf, DigestOf, SubjectKey, StatementsOf;
    assert {} + TypesOf(a, StatementsOf(a, v)) == TypesOf(a, StatementsOf(a, v));
  }

  /** An attestation is taken exactly if it is fine and what it consists of fits into the budget. */
  lemma EvidenceChecked(a: Archive, s: State, d: Doc, data: Doc)
    requires Parsed(a, Obj(d)) == Obj(data)
    ensures var v := Obj(d);
      var r := CheckAttestation(a, s, d, data);
      && (r.Ok? <==> EvidenceOk(a, v) && s.metadataBytes + EvidenceBytes(a, v) <= MAX_JSON_TOTAL)
      && (r.Ok? ==> r.value == WithEvidence(a, s, v))
  {
    var v, config := Obj(d), Get(data, "config");
    var types := if IsTyped(data) then {EMPTY_CONFIG} else {CONFIG};
    MetadataRead(a, s, config, types);
    EvidenceIs(a, d, data);
    EvidenceSteps(a, s, d, data);
    assert EvidenceBytes(a, v) == |Content(a, config)| + ContentBytes(a, LayersOf(data));
    hide *;
    var read := ReadBlob(a, s, config, types);
    if read.Ok? && SubjectOf(a, d, data, read.value.doc).Ok? {
      StatementsRead(a, read.value.s, LayersOf(data), SubjectKey(a, v), {});
      if CheckAttestation(a, s, d, data).Ok? {
        WithEvidenceSteps(a, s, v, ReadStatements(a, read.value.s, LayersOf(data), SubjectKey(a, v), {}).value);
      }
    }
  }

  // ---- What a walk adds up ----------------------------------------------------------------

  datatype Tally = Tally(visited: nat, bytes: nat, rootfs: nat, leaves: seq<Doc>, images: seq<Image>,
                         attestations: seq<Evidence>, names: set<string>, statements: set<string>)

  const NOTHING := Tally(0, 0, 0, [], [], [], {}, {})

  function Sum(t: Tally, u: Tally): Tally {
    Tally(t.visited + u.visited, t.bytes + u.bytes, t.rootfs + u.rootfs, t.leaves + u.leaves, t.images + u.images,
          t.attestations + u.attestations, t.names + u.names, t.statements + u.statements)
  }

  function OfReading(a: Archive, v: Json): Tally {
    Tally(1, |Content(a, v)|, 0, [], [], [], {FileOf(v)}, {})
  }

  function OfLeaf(a: Archive, v: Json): Tally {
    var config, layers := ConfigAt(a, v), StatementsOf(a, v);
    if IsEvidence(a, v) then
      Tally(0, EvidenceBytes(a, v), 0, [FieldsOf(v)], [],
            [Evidence(DigestOf(FieldsOf(v)), SubjectKey(a, v), TypesOf(a, layers))],
            {FileOf(config)} + FilesOf(layers), FilesOf(layers))
    else
      Tally(0, |Content(a, config)|, RootBytes(a, v), [FieldsOf(v)],
            [Image(KeyOf(FieldsOf(v)), DigestOf(FieldsOf(config)))], [], {FileOf(config)}, {})
  }

  function OfPlace(a: Archive, p: Place): Tally {
    if IsIndex(p.v) then OfReading(a, p.v) else Sum(OfReading(a, p.v), OfLeaf(a, p.v))
  }

  function Total(a: Archive, places: seq<Place>): Tally {
    if places == [] then NOTHING else Sum(OfPlace(a, places[0]), Total(a, places[1..]))
  }

  function Plus(s: State, t: Tally): State {
    s.(visited := s.visited + t.visited, metadataBytes := s.metadataBytes + t.bytes,
       rootfsBytes := s.rootfsBytes + t.rootfs, leaves := s.leaves + t.leaves, images := s.images + t.images,
       attestations := s.attestations + t.attestations, metadataNames := s.metadataNames + t.names,
       attestationNames := s.attestationNames + t.statements)
  }

  predicate DigestsDiffer(leaves: seq<Doc>) {
    forall i, j | 0 <= i < j < |leaves| :: DigestOf(leaves[i]) != DigestOf(leaves[j])
  }

  /** What a walk adds keeps the limits, and no digest is a leaf twice. */
  predicate Fits(s: State, t: Tally) {
    && s.visited + t.visited <= MAX_VISITED && s.metadataBytes + t.bytes <= MAX_JSON_TOTAL
    && s.rootfsBytes + t.rootfs <= MAX_ROOTFS_BYTES && DigestsDiffer(s.leaves + t.leaves)
  }

  /** The walk has gone from one state to the other by adding this, and what it remembers of layers is right. */
  predicate Added(a: Archive, s: State, t: Tally, end: State) {
    CacheFine(a, end) && end == Plus(s, t).(layers := end.layers)
  }

  lemma PlusSum(s: State, t: Tally, u: Tally)
    ensures Plus(Plus(s, t), u) == Plus(s, Sum(t, u))
    ensures Plus(s, NOTHING) == s
  {
    assert s.leaves + t.leaves + u.leaves == s.leaves + (t.leaves + u.leaves);
    assert s.images + t.images + u.images == s.images + (t.images + u.images);
    assert s.attestations + t.attestations + u.attestations == s.attestations + (t.attestations + u.attestations);
    assert s.metadataNames + t.names + u.names == s.metadataNames + (t.names + u.names);
    assert s.attestationNames + t.statements + u.statements == s.attestationNames + (t.statements + u.statements);
  }

  lemma AddedTwice(a: Archive, s: State, t: Tally, m: State, u: Tally, end: State)
    requires Added(a, s, t, m) && Added(a, m, u, end)
    ensures Added(a, s, Sum(t, u), end)
  {
    hide CacheFine;
    PlusSum(s, t, u);
  }

  lemma FitsSum(a: Archive, s: State, t: Tally, m: State, u: Tally)
    requires Added(a, s, t, m)
    ensures Fits(s, Sum(t, u)) <==> Fits(s, t) && Fits(m, u)
  {
    hide CacheFine, DigestOf;
    assert s.leaves + t.leaves + u.leaves == s.leaves + (t.leaves + u.leaves);
    assert (s.leaves + t.leaves + u.leaves)[..|s.leaves + t.leaves|] == s.leaves + t.leaves;
    if DigestsDiffer(m.leaves + u.leaves) {
      forall i, j | 0 <= i < j < |m.leaves| ensures DigestOf(m.leaves[i]) != DigestOf(m.leaves[j]) {
        assert m.leaves[i] == (m.leaves + u.leaves)[i] && m.leaves[j] == (m.leaves + u.leaves)[j];
      }
    }
  }

  /** What does not fit at first does not fit later. */
  lemma FitsLess(s: State, t: Tally, u: Tally)
    ensures Fits(s, Sum(t, u)) ==> Fits(s, t)
  {
    hide DigestOf;
    var all := s.leaves + (t.leaves + u.leaves);
    forall i | 0 <= i < |s.leaves + t.leaves| ensures (s.leaves + t.leaves)[i] == all[i] {
    }
  }

  lemma SumSum(t: Tally, u: Tally, v: Tally)
    ensures Sum(Sum(t, u), v) == Sum(t, Sum(u, v))
    ensures Sum(NOTHING, t) == t == Sum(t, NOTHING)
  {
    assert t.leaves + u.leaves + v.leaves == t.leaves + (u.leaves + v.leaves);
    assert t.images + u.images + v.images == t.images + (u.images + v.images);
    assert t.attestations + u.attestations + v.attestations == t.attestations + (u.attestations + v.attestations);
    assert t.names + u.names + v.names == t.names + (u.names + v.names);
    assert t.statements + u.statements + v.statements == t.statements + (u.statements + v.statements);
    assert Sum(NOTHING, t) == t;
    assert Sum(t, NOTHING) == t;
  }

  lemma {:induction false} TotalSum(a: Archive, p: seq<Place>, q: seq<Place>)
    ensures Total(a, p + q) == Sum(Total(a, p), Total(a, q))
    decreases |p|
  {
    hide OfPlace, Sum;
    if p == [] {
      assert p + q == q;
      SumSum(Total(a, q), NOTHING, NOTHING);
    } else {
      assert (p + q)[1..] == p[1..] + q;
      TotalSum(a, p[1..], q);
      SumSum(OfPlace(a, p[0]), Total(a, p[1..]), Total(a, q));
    }
  }

  lemma {:induction false} TotalVisits(a: Archive, p: seq<Place>)
    ensures Total(a, p).visited == |p|
    decreases |p|
  {
    if p != [] {
      TotalVisits(a, p[1..]);
    }
  }

  // ---- Leaves -----------------------------------------------------------------------------

  lemma KindIs(a: Archive, d: Doc, data: Doc)
    requires Parsed(a, Obj(d)) == Obj(data)
    ensures AnnotationsAllowed(d) <==> AnnotationsOk(Obj(d))
    ensures IsAttestation(d, data) <==> IsEvidence(a, Obj(d))
    ensures IsPlainImage(d, data) <==>
      && Lacks(Obj(d), "artifactType") && Lacks(Obj(data), "artifactType") && Lacks(Obj(data), "subject")
      && At(Obj(d), ["annotations", REFERENCE_TYPE]) == Null
  {
    AtOne(Obj(d), "annotations");
    AtTwo(Obj(d), "annotations", REFERENCE_TYPE);
    AtOne(Obj(data), "artifactType");
    hide At;
  }

  lemma NewLeafIs(leaves: seq<Doc>, d: Doc)
    requires DigestsDiffer(leaves)
    ensures NewLeaf(leaves, d) <==> DigestsDiffer(leaves + [d])
  {
    hide DigestOf;
    var more := leaves + [d];
    if DigestsDiffer(more) {
      forall leaf | leaf in leaves ensures DigestOf(leaf) != DigestOf(d) {
        var i :| 0 <= i < |leaves| && leaves[i] == leaf;
        assert more[i] == leaf && more[|leaves|] == d;
      }
    }
    if NewLeaf(leaves, d) {
      forall i, j | 0 <= i < j < |more| ensures DigestOf(more[i]) != DigestOf(more[j]) {
        assert more[i] == leaves[i] && leaves[i] in leaves;
      }
    }
  }

  lemma EvidenceLeaf(a: Archive, s: State, d: Doc)
    requires IsEvidence(a, Obj(d)) && CacheFine(a, s)
    ensures WithEvidence(a, s, Obj(d)).(leaves := s.leaves + [d]) == Plus(s, OfLeaf(a, Obj(d)))
    ensures Added(a, s, OfLeaf(a, Obj(d)), Plus(s, OfLeaf(a, Obj(d))))
  {
    CacheStays(a, s, Plus(s, OfLeaf(a, Obj(d))));
    hide FileOf, ConfigAt, FilesOf, TypesOf, DigestOf, SubjectKey, StatementsOf, EvidenceBytes, CacheFine, IsEvidence;
    var v := Obj(d);
    assert s.images + [] == s.images && s.rootfsBytes + 0 == s.rootfsBytes;
    assert s.metadataNames + {FileOf(ConfigAt(a, v))} + FilesOf(StatementsOf(a, v))
        == s.metadataNames + ({FileOf(ConfigAt(a, v))} + FilesOf(StatementsOf(a, v)));
  }

  /** The state behind an image that was taken as a leaf. */
  lemma ImageLeaf(a: Archive, s: State, d: Doc, next: State)
    requires !IsEvidence(a, Obj(d)) && CacheFine(a, next)
    requires var v, config := Obj(d), ConfigAt(a, Obj(d));
      next == Recorded(s, FileOf(config), |Content(a, config)|).(
                layers := next.layers, rootfsBytes := s.rootfsBytes + RootBytes(a, v),
                images := s.images + [Image(KeyOf(d), DigestOf(FieldsOf(config)))])
    ensures Added(a, s, OfLeaf(a, Obj(d)), next.(leaves := s.leaves + [d]))
  {
    CacheStays(a, next, next.(leaves := s.leaves + [d]));
    hide FileOf, ConfigAt, Content, DigestOf, KeyOf, RootBytes, CacheFine, IsEvidence;
    assert s.attestations + [] == s.attestations;
    assert s.attestationNames + {} == s.attestationNames;
  }

  lemma LeafSteps(a: Archive, s: State, d: Doc, data: Doc)
    requires !a.runnable
    ensures Leaf(a, s, d, data) ==
      if !AnnotationsAllowed(d) || !(IsAttestation(d, data) || IsPlainImage(d, data)) then Failed
      else
        match if IsAttestation(d, data) then CheckAttestation(a, s, d, data) else CheckImage(a, a.want, s, d, data)
        case Failed => Failed
        case Ok(next) => if NewLeaf(next.leaves, d) then Ok(next.(leaves := next.leaves + [d])) else Failed
  {
    hide AnnotationsAllowed, IsAttestation, IsPlainImage, CheckAttestation, CheckImage, NewLeaf;
  }

  lemma FitsNow(s: State)
    ensures Fits(s, NOTHING) <==>
            s.visited <= MAX_VISITED && s.metadataBytes <= MAX_JSON_TOTAL && s.rootfsBytes <= MAX_ROOTFS_BYTES
            && DigestsDiffer(s.leaves)
  {
    hide DigestsDiffer;
    assert s.leaves + [] == s.leaves;
  }

  lemma LeafFits(a: Archive, s: State, v: Json)
    requires Fits(s, NOTHING)
    ensures Fits(s, OfLeaf(a, v)) <==>
      && DigestsDiffer(s.leaves + [FieldsOf(v)])
      && if IsEvidence(a, v) then s.metadataBytes + EvidenceBytes(a, v) <= MAX_JSON_TOTAL
         else s.metadataBytes + |Content(a, ConfigAt(a, v))| <= MAX_JSON_TOTAL
              && s.rootfsBytes + RootBytes(a, v) <= MAX_ROOTFS_BYTES
  {
    hide DigestsDiffer, IsEvidence, EvidenceBytes, ConfigAt, RootBytes, SubjectKey, TypesOf, FilesOf, StatementsOf;
    FitsNow(s);
  }

  lemma LeafOkIs(a: Archive, d: Doc, data: Doc)
    requires Parsed(a, Obj(d)) == Obj(data)
    ensures LeafOk(a, Obj(d)) <==>
      && AnnotationsAllowed(d) && (IsAttestation(d, data) || IsPlainImage(d, data))
      && if IsAttestation(d, data) then EvidenceOk(a, Obj(d)) else ImageOk(a, a.want, Obj(d))
    ensures IsAttestation(d, data) <==> IsEvidence(a, Obj(d))
  {
    KindIs(a, d, data);
    hide AnnotationsAllowed, AnnotationsOk, IsAttestation, IsPlainImage, IsEvidence, EvidenceOk, ImageOk, At, Parsed;
  }

  lemma LeafChecked(a: Archive, s: State, d: Doc, data: Doc)
    requires !a.runnable && Parsed(a, Obj(d)) == Obj(data) && CacheFine(a, s) && Fits(s, NOTHING)
    ensures var v, r := Obj(d), Leaf(a, s, d, data);
      && (r.Ok? <==> LeafOk(a, v) && Fits(s, OfLeaf(a, v)))
      && (r.Ok? ==> Added(a, s, OfLeaf(a, v), r.value))
  {
    hide *;
    var v := Obj(d);
    FitsNow(s);
    LeafSteps(a, s, d, data);
    LeafOkIs(a, d, data);
    LeafFits(a, s, v);
    NewLeafIs(s.leaves, d);
    FieldsAre(d);
    if IsAttestation(d, data) {
      EvidenceChecked(a, s, d, data);
      EvidenceLeaf(a, s, d);
      EvidenceLeaves(a, s, v);
    } else {
      ImageChecked(a, a.want, s, d, data);
      if CheckImage(a, a.want, s, d, data).Ok? {
        ImageLeaf(a, s, d, CheckImage(a, a.want, s, d, data).value);
        RecordedLeaves(s, FileOf(ConfigAt(a, v)), |Content(a, ConfigAt(a, v))|);
      }
    }
  }

  lemma FieldsAre(d: Doc)
    ensures FieldsOf(Obj(d)) == d
  {
  }

  lemma EvidenceLeaves(a: Archive, s: State, v: Json)
    ensures WithEvidence(a, s, v).leaves == s.leaves
  {
  }

  lemma RecordedLeaves(s: State, name: string, size: nat)
    ensures Recorded(s, name, size).leaves == s.leaves
  {
  }

  // ---- The walk ---------------------------------------------------------------------------

  ghost predicate AllOk(a: Archive, places: seq<Place>) {
    forall p | p in places :: PlaceOk(a, p)
  }

  lemma AllOkSplit(a: Archive, p: seq<Place>, q: seq<Place>)
    ensures AllOk(a, p + q) <==> AllOk(a, p) && AllOk(a, q)
  {
    hide PlaceOk;
    if AllOk(a, p + q) {
      forall x | x in p ensures PlaceOk(a, x) {
        assert x in p + q;
      }
      forall x | x in q ensures PlaceOk(a, x) {
        assert x in p + q;
      }
    }
  }

  /** A descriptor is read exactly if it is metadata within the limits. */
  lemma VisitSteps(a: Archive, s: State, v: Json, depth: nat)
    requires CacheFine(a, s) && Fits(s, NOTHING)
    ensures var types, visit := {INDEX, MANIFEST}, s.(visited := s.visited + 1);
      var read := ReadBlob(a, visit, v, types);
      && (s.visited < MAX_VISITED && read.Ok? <==> IsMetadata(a, v, types, MAX_JSON) && Fits(s, OfReading(a, v)))
      && (s.visited < MAX_VISITED && read.Ok? ==>
            && Parsed(a, v).Obj? && v.Obj? && read.value.doc == Parsed(a, v).fields
            && Added(a, s, OfReading(a, v), read.value.s) && (MediaOf(v.fields) == INDEX <==> IsIndex(v))
            && (Versioned(read.value.doc, MediaOf(v.fields)) <==> HasSchema(Parsed(a, v), At(v, ["mediaType"]))))
  {
    var types := {INDEX, MANIFEST};
    var visit := s.(visited := s.visited + 1);
    var read := ReadBlob(a, visit, v, types);
    MetadataRead(a, visit, v, types);
    NamedIsThere(a, v, types);
    assert s.leaves + [] == s.leaves;
    assert IsMetadata(a, v, types, MAX_JSON) ==> NamesBlob(a, v, types) && At(v, ["mediaType"]).Str?;
    AtOne(v, "mediaType");
    hide IsMetadata, NamesBlob, Parsed, Content, FileOf, ReadBlob, At, HasSchema, Versioned, CacheFine, DigestsDiffer;
    if s.visited < MAX_VISITED && read.Ok? {
      SchemaIs(read.value.doc, MediaOf(v.fields));
      CacheStays(a, s, read.value.s);
      assert s.images + [] == s.images && s.attestations + [] == s.attestations;
      assert s.attestationNames + {} == s.attestationNames;
    }
  }

  lemma WalkSteps(a: Archive, s: State, v: Json, depth: nat)
    ensures var read := ReadBlob(a, s.(visited := s.visited + 1), v, {INDEX, MANIFEST});
      Walk(a, s, v, depth) ==
      if depth > MAX_DEPTH || s.visited >= MAX_VISITED || read.Failed?
         || !Versioned(read.value.doc, MediaOf(FieldsOf(v))) then Failed
      else if MediaOf(FieldsOf(v)) == INDEX then
        if IndexAllowed(read.value.doc)
        then WalkAll(a, read.value.s, Get(read.value.doc, "manifests").items, depth + 1) else Failed
      else Leaf(a, read.value.s, FieldsOf(v), read.value.doc)
  {
    hide ReadBlob, Versioned, IndexAllowed, Leaf, WalkAll;
  }

  lemma IndexIs(doc: Doc)
    ensures IndexAllowed(doc) <==> IndexOk(Obj(doc))
    ensures IndexAllowed(doc) ==> Get(doc, "manifests").List? && Get(doc, "manifests").items == Children(Obj(doc))
  {
    AtOne(Obj(doc), "manifests");
    SchemaIs(doc, INDEX);
    hide At, HasSchema, Versioned;
  }

  function Below(a: Archive, v: Json, depth: nat): seq<Place> {
    if IsIndex(v) && depth <= MAX_DEPTH then FromAll(a, Children(Parsed(a, v)), depth + 1) else []
  }

  /** What a descriptor adds besides its own reading. */
  function Beyond(a: Archive, v: Json, depth: nat): Tally {
    if IsIndex(v) then Total(a, Below(a, v, depth)) else OfLeaf(a, v)
  }

  lemma TotalFirst(a: Archive, p: Place, q: seq<Place>)
    ensures Total(a, [p] + q) == Sum(OfPlace(a, p), Total(a, q))
    ensures AllOk(a, [p] + q) <==> PlaceOk(a, p) && AllOk(a, q)
  {
    hide OfPlace, Sum, PlaceOk;
    assert ([p] + q)[0] == p && ([p] + q)[1..] == q;
    AllOkSplit(a, [p], q);
    assert p in [p];
  }

  /** The descriptors from one on are that and those below it. */
  lemma FromIs(a: Archive, v: Json, depth: nat)
    ensures AllOk(a, From(a, v, depth)) <==> PlaceOk(a, Place(v, depth)) && AllOk(a, Below(a, v, depth))
    ensures Total(a, From(a, v, depth)) == Sum(OfReading(a, v), Beyond(a, v, depth))
  {
    hide PlaceOk, AllOk, Total, FromAll, OfReading, OfLeaf, Sum;
    TotalFirst(a, Place(v, depth), Below(a, v, depth));
    assert From(a, v, depth) == [Place(v, depth)] + Below(a, v, depth);
    if !IsIndex(v) {
      NothingBelow(a, v, depth);
      SumSum(Sum(OfReading(a, v), OfLeaf(a, v)), NOTHING, NOTHING);
    }
  }

  lemma NothingBelow(a: Archive, v: Json, depth: nat)
    requires !IsIndex(v) || depth > MAX_DEPTH
    ensures Below(a, v, depth) == [] && Total(a, []) == NOTHING && AllOk(a, [])
  {
  }

  /** A descriptor that was read is fine exactly if its schema is, and its index or leaf. */
  lemma PlaceIs(a: Archive, v: Json, depth: nat)
    ensures PlaceOk(a, Place(v, depth)) <==>
      && depth <= MAX_DEPTH && IsMetadata(a, v, {INDEX, MANIFEST}, MAX_JSON)
      && HasSchema(Parsed(a, v), At(v, ["mediaType"]))
      && if IsIndex(v) then IndexOk(Parsed(a, v)) else LeafOk(a, v)
  {
    hide IsMetadata, HasSchema, IsIndex, IndexOk, LeafOk, At, Parsed;
  }

  lemma AddedFits(a: Archive, s: State, t: Tally, m: State, u: Tally)
    requires Added(a, s, t, m) && Fits(s, t)
    ensures CacheFine(a, m) && Fits(m, NOTHING) && (Fits(s, Sum(t, u)) <==> Fits(m, u))
  {
    FitsSum(a, s, t, m, u);
    FitsSum(a, s, t, m, NOTHING);
    SumSum(t, NOTHING, NOTHING);
  }

  /** A visit succeeds exactly if every descriptor from there on is fine and all fit; and then it has added
      exactly what these say. */
  lemma {:induction false} WalkChecked(a: Archive, s: State, v: Json, depth: nat)
    requires !a.runnable && CacheFine(a, s) && Fits(s, NOTHING)
    ensures var places, r := From(a, v, depth), Walk(a, s, v, depth);
      && (r.Ok? <==> AllOk(a, places) && Fits(s, Total(a, places)))
      && (r.Ok? ==> Added(a, s, Total(a, places), r.value))
    decreases Room(depth), 0, 1
  {
    hide *;
    FromIs(a, v, depth);
    PlaceIs(a, v, depth);
    VisitSteps(a, s, v, depth);
    WalkSteps(a, s, v, depth);
    FitsLess(s, OfReading(a, v), Beyond(a, v, depth));
    var read := ReadBlob(a, s.(visited := s.visited + 1), v, {INDEX, MANIFEST});
    if depth <= MAX_DEPTH && s.visited < MAX_VISITED && read.Ok? {
      AddedFits(a, s, OfReading(a, v), read.value.s, Beyond(a, v, depth));
      VisitGoesOn(a, read.value.s, v, depth, read.value.doc);
      WalkAdds(a, s, OfReading(a, v), read.value.s, Beyond(a, v, depth), Visited(a, read.value.s, v, depth));
      VisitedIs(a, read.value.s, v, depth);
    }
  }

  /** What a visit does behind its own reading. */
  function Visited(a: Archive, m: State, v: Json, depth: nat): Result<State> {
    if !Parsed(a, v).Obj? then Failed
    else if IsIndex(v) then
      if IndexAllowed(Parsed(a, v).fields)
      then WalkAll(a, m, Get(Parsed(a, v).fields, "manifests").items, depth + 1) else Failed
    else Leaf(a, m, FieldsOf(v), Parsed(a, v).fields)
  }

  lemma VisitedIs(a: Archive, m: State, v: Json, depth: nat)
    requires v.Obj?
    ensures FieldsOf(v) == v.fields
    ensures Visited(a, m, v, depth) ==
            if !Parsed(a, v).Obj? then Failed
            else if IsIndex(v) then
              if IndexAllowed(Parsed(a, v).fields)
              then WalkAll(a, m, Get(Parsed(a, v).fields, "manifests").items, depth + 1) else Failed
            else Leaf(a, m, v.fields, Parsed(a, v).fields)
  {
    hide IndexAllowed, WalkAll, Leaf, Parsed, IsIndex;
  }

  lemma {:induction false} VisitGoesOn(a: Archive, m: State, v: Json, depth: nat, doc: Doc)
    requires !a.runnable && CacheFine(a, m) && Fits(m, NOTHING) && depth <= MAX_DEPTH && v.Obj?
    requires Parsed(a, v) == Obj(doc)
    ensures var r := Visited(a, m, v, depth);
      && (r.Ok? <==> (if IsIndex(v) then IndexOk(Parsed(a, v)) else LeafOk(a, v))
                     && AllOk(a, Below(a, v, depth)) && Fits(m, Beyond(a, v, depth)))
      && (r.Ok? ==> Added(a, m, Beyond(a, v, depth), r.value))
    decreases Room(depth), 0, 0
  {
    hide IndexAllowed, WalkAll, Leaf, Parsed, IsIndex, IndexOk, LeafOk, AllOk, Fits, Added, CacheFine, Total, OfLeaf,
         FromAll;
    if IsIndex(v) {
      IndexIs(doc);
      WalkAllChecked(a, m, Children(Obj(doc)), depth + 1);
    } else {
      NothingBelow(a, v, depth);
      LeafChecked(a, m, v.fields, doc);
    }
  }

  lemma WalkAdds(a: Archive, s: State, t: Tally, m: State, u: Tally, r: Result<State>)
    requires Added(a, s, t, m) && (r.Ok? ==> Added(a, m, u, r.value))
    ensures r.Ok? ==> Added(a, s, Sum(t, u), r.value)
  {
    hide Added;
    if r.Ok? {
      AddedTwice(a, s, t, m, u, r.value);
    }
  }

  lemma {:induction false} WalkAllChecked(a: Archive, s: State, items: seq<Json>, depth: nat)
    requires !a.runnable && CacheFine(a, s) && Fits(s, NOTHING)
    ensures var places, r := FromAll(a, items, depth), WalkAll(a, s, items, depth);
      && (r.Ok? <==> AllOk(a, places) && Fits(s, Total(a, places)))
      && (r.Ok? ==> Added(a, s, Total(a, places), r.value))
    decreases Room(depth), 1, |items|
  {
    hide Walk, From, PlaceOk, OfPlace, CacheFine, DigestsDiffer;
    if items == [] {
      PlusSum(s, NOTHING, NOTHING);
    } else {
      var first, later := From(a, items[0], depth), FromAll(a, items[1..], depth);
      AllOkSplit(a, first, later);
      TotalSum(a, first, later);
      WalkChecked(a, s, items[0], depth);
      FitsLess(s, Total(a, first), Total(a, later));
      if Walk(a, s, items[0], depth).Ok? {
        var m := Walk(a, s, items[0], depth).value;
        FitsSum(a, s, Total(a, first), m, Total(a, later));
        FitsSum(a, s, Total(a, first), m, NOTHING);
        SumSum(Total(a, first), NOTHING, NOTHING);
        WalkAllChecked(a, m, items[1..], depth);
        WalkAdds(a, s, Total(a, first), m, Total(a, later), WalkAll(a, m, items[1..], depth));
      }
    }
  }

  // ---- Main results -----------------------------------------------------------------------

  function TopDoc(a: Archive, name: string): Json {
    if name in a.files && a.codec.decode(a.files[name]).Ok? then Obj(a.codec.decode(a.files[name]).value) else Null
  }

  predicate TopOk(a: Archive, name: string) {
    name in a.files && 0 < |a.files[name]| <= MAX_JSON && TopDoc(a, name).Obj?
  }

  /** All descriptors an archive leads to. */
  function Places(a: Archive): seq<Place> {
    FromAll(a, Children(TopDoc(a, INDEX_JSON)), 0)
  }

  /** What a native archive has to be: a layout and an index, and below it nothing but fine indexes, images and
      attestations, all of them within the limits, with one image that every attestation is about. */
  ghost predicate Acceptable(a: Archive) {
    var t := Total(a, Places(a));
    && TopOk(a, LAYOUT) && At(TopDoc(a, LAYOUT), ["imageLayoutVersion"]) == Str("1.0.0")
    && TopOk(a, INDEX_JSON) && IndexOk(TopDoc(a, INDEX_JSON)) && AllOk(a, Places(a))
    && |Places(a)| <= MAX_VISITED && |a.files[LAYOUT]| + |a.files[INDEX_JSON]| + t.bytes <= MAX_JSON_TOTAL
    && t.rootfs <= MAX_ROOTFS_BYTES && DigestsDiffer(t.leaves)
    && |t.images| == 1 && forall e | e in t.attestations :: e.subject == t.images[0].descriptor
  }

  lemma TopRead(a: Archive, s: State, name: string)
    ensures ReadJson(a, s, name, MAX_JSON).Ok? <==>
            TopOk(a, name) && s.metadataBytes + |a.files[name]| <= MAX_JSON_TOTAL
    ensures ReadJson(a, s, name, MAX_JSON).Ok? ==>
            ReadJson(a, s, name, MAX_JSON).value == Read(Recorded(s, name, |a.files[name]|), TopDoc(a, name).fields)
  {
  }

  /** Behind layout and index. */
  function Started(a: Archive): State
    requires TopOk(a, LAYOUT) && TopOk(a, INDEX_JSON)
  {
    Recorded(Recorded(FRESH, LAYOUT, |a.files[LAYOUT]|), INDEX_JSON, |a.files[INDEX_JSON]|)
  }

  lemma InspectSteps(a: Archive)
    requires !a.runnable
    ensures Inspect(a).Ok? ==>
      && TopOk(a, LAYOUT) && At(TopDoc(a, LAYOUT), ["imageLayoutVersion"]) == Str("1.0.0") && TopOk(a, INDEX_JSON)
      && IndexOk(TopDoc(a, INDEX_JSON)) && Started(a).metadataBytes <= MAX_JSON_TOTAL
    ensures TopOk(a, LAYOUT) && At(TopDoc(a, LAYOUT), ["imageLayoutVersion"]) == Str("1.0.0") && TopOk(a, INDEX_JSON)
            && IndexOk(TopDoc(a, INDEX_JSON)) && Started(a).metadataBytes <= MAX_JSON_TOTAL ==>
      Inspect(a) == match WalkAll(a, Started(a), Children(TopDoc(a, INDEX_JSON)), 0)
                    case Failed => Failed
                    case Ok(s) => if Complete(a, s) then Ok(s) else Failed
  {
    TopRead(a, FRESH, LAYOUT);
    AtOne(TopDoc(a, LAYOUT), "imageLayoutVersion");
    if TopOk(a, LAYOUT) && TopOk(a, INDEX_JSON) {
      TopRead(a, Recorded(FRESH, LAYOUT, |a.files[LAYOUT]|), INDEX_JSON);
      IndexIs(TopDoc(a, INDEX_JSON).fields);
    }
    hide At, ReadJson, IndexAllowed, IndexOk, WalkAll, Complete;
  }

  /** The walk accepts exactly the acceptable archives, and what it records is what their graph says. */
  lemma InspectAccepts(a: Archive)
    requires !a.runnable
    ensures Inspect(a).Ok? <==> Acceptable(a)
    ensures Inspect(a).Ok? ==>
      Inspect(a).value == Plus(Started(a), Total(a, Places(a))).(layers := Inspect(a).value.layers)
  {
    InspectSteps(a);
    TotalVisits(a, Places(a));
    hide At, IndexOk, WalkAll, FromAll, Total, TopDoc, AllOk, CacheFine, Inspect, DigestsDiffer, Children, Plus, Fits,
         TopOk, Complete;
    if TopOk(a, LAYOUT) && TopOk(a, INDEX_JSON) {
      StartFits(a, Total(a, Places(a)));
      if Started(a).metadataBytes <= MAX_JSON_TOTAL {
        WalkAllChecked(a, Started(a), Children(TopDoc(a, INDEX_JSON)), 0);
        EndIsComplete(a, Total(a, Places(a)), WalkAll(a, Started(a), Children(TopDoc(a, INDEX_JSON)), 0));
      }
    }
  }

  lemma StartFits(a: Archive, t: Tally)
    requires TopOk(a, LAYOUT) && TopOk(a, INDEX_JSON)
    ensures CacheFine(a, Started(a)) && (Started(a).metadataBytes <= MAX_JSON_TOTAL ==> Fits(Started(a), NOTHING))
    ensures Started(a).metadataBytes == |a.files[LAYOUT]| + |a.files[INDEX_JSON]|
    ensures Fits(Started(a), t) <==>
      && t.visited <= MAX_VISITED && Started(a).metadataBytes + t.bytes <= MAX_JSON_TOTAL
      && t.rootfs <= MAX_ROOTFS_BYTES && DigestsDiffer(t.leaves)
  {
    assert Started(a).leaves + t.leaves == t.leaves;
  }

  lemma EndIsComplete(a: Archive, t: Tally, r: Result<State>)
    requires !a.runnable && TopOk(a, LAYOUT) && TopOk(a, INDEX_JSON) && (r.Ok? ==> Added(a, Started(a), t, r.value))
    ensures r.Ok? ==> r.value == Plus(Started(a), t).(layers := r.value.layers)
    ensures r.Ok? ==> (Complete(a, r.value) <==>
                       |t.images| == 1 && forall e | e in t.attestations :: e.subject == t.images[0].descriptor)
  {
    hide CacheFine, TopOk;
    assert FRESH.images + t.images == t.images && FRESH.attestations + t.attestations == t.attestations;
  }

  lemma {:induction false} TotalHolds(a: Archive, places: seq<Place>, e: Evidence)
    requires e in Total(a, places).attestations
    ensures exists p :: p in places && !IsIndex(p.v) && IsEvidence(a, p.v)
                        && e == Evidence(DigestOf(FieldsOf(p.v)), SubjectKey(a, p.v), TypesOf(a, StatementsOf(a, p.v)))
                        && FilesOf(StatementsOf(a, p.v)) <= Total(a, places).statements
    decreases |places|
  {
    hide IsIndex, IsEvidence, DigestOf, SubjectKey, TypesOf, StatementsOf, FilesOf;
    var first, rest := places[0], places[1..];
    if e in Total(a, rest).attestations {
      TotalHolds(a, rest, e);
      var p :| p in rest && !IsIndex(p.v) && IsEvidence(a, p.v)
               && e == Evidence(DigestOf(FieldsOf(p.v)), SubjectKey(a, p.v), TypesOf(a, StatementsOf(a, p.v)))
               && FilesOf(StatementsOf(a, p.v)) <= Total(a, rest).statements;
      assert p in places;
    } else {
      assert e in OfPlace(a, first).attestations;
      assert first in places;
    }
  }

  /** A document of the archive, read as evidence, attests this type of the content with this SHA-256. */
  ghost predicate AttestedBy(a: Archive, name: string, kind: string, hex: string) {
    && name in a.files && a.codec.decode(a.files[name]).Ok?
    && var statement := Obj(a.codec.decode(a.files[name]).value);
       Attests(statement, hex) && At(statement, ["predicateType"]) == Str(kind)
  }

  /** Evidence is about the image: every recorded attestation has the image as its subject, and each of its
      predicate types comes from a statement in the archive that names the image's own digest. */
  lemma EvidenceIsAboutImage(a: Archive)
    requires !a.runnable && Inspect(a).Ok?
    ensures var s := Inspect(a).value;
      && |s.images| == 1
      && forall e | e in s.attestations ::
           && e.subject == s.images[0].descriptor && |e.subject.digest| >= 7
           && forall kind | kind in e.predicateTypes ::
                exists name :: name in s.attestationNames && AttestedBy(a, name, kind, e.subject.digest[7..])
  {
    InspectAccepts(a);
    var s, t := Inspect(a).value, Total(a, Places(a));
    forall e | e in s.attestations
      ensures e.subject == s.images[0].descriptor && |e.subject.digest| >= 7
      ensures forall kind | kind in e.predicateTypes ::
                exists name :: name in s.attestationNames && AttestedBy(a, name, kind, e.subject.digest[7..]) {
      assert e in t.attestations && s.images == t.images && t.statements <= s.attestationNames by {
        assert FRESH.attestations + t.attestations == t.attestations && FRESH.images + t.images == t.images;
      }
      TotalHolds(a, Places(a), e);
      var p :| p in Places(a) && !IsIndex(p.v) && IsEvidence(a, p.v)
               && e == Evidence(DigestOf(FieldsOf(p.v)), SubjectKey(a, p.v), TypesOf(a, StatementsOf(a, p.v)))
               && FilesOf(StatementsOf(a, p.v)) <= t.statements;
      assert PlaceOk(a, p);
      StatementsAttest(a, p.v, e, s.attestationNames);
    }
  }

  lemma StatementsAttest(a: Archive, v: Json, e: Evidence, names: set<string>)
    requires EvidenceOk(a, v) && e.subject == SubjectKey(a, v) && e.predicateTypes == TypesOf(a, StatementsOf(a, v))
    requires FilesOf(StatementsOf(a, v)) <= names
    ensures |e.subject.digest| >= 7
    ensures forall kind | kind in e.predicateTypes ::
              exists name :: name in names && AttestedBy(a, name, kind, e.subject.digest[7..])
  {
    hide At, HasType, TypedOk, LegacyOk;
    forall kind | kind in e.predicateTypes
      ensures exists name :: name in names && AttestedBy(a, name, kind, e.subject.digest[7..]) {
      var layer :| layer in StatementsOf(a, v) && TypeOf(a, layer) == kind;
      assert StatementOk(a, layer, About(a, v)[7..]);
      NamedIsThere(a, layer, {IN_TOTO});
      assert FileOf(layer) in names && AttestedBy(a, FileOf(layer), kind, e.subject.digest[7..]);
    }
  }
}
