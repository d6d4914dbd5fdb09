/** The runnable archive of a release (scripts/release_provenance.py): the images of two native archives
    under canonical metadata, and when its own check accepts it. */
module OciRuntime {
  import opened Results
  import opened OciArchive
  import opened OciReplay

  // ---- Layers -----------------------------------------------------------------------------

  /** The layer expands within its limit to what the config says. */
  predicate LayerFine(a: Archive, layer: Doc, id: Json) {
    var key := LayerKeyOf(layer);
    && BlobName(key.digest) in a.files
    && match a.codec.expand(a.files[BlobName(key.digest)], key.mediaType)
       case Failed => false
       case Ok(x) => x.size <= MAX_LAYER_BYTES && Str(x.digest) == id
  }

  function LayerSize(a: Archive, layer: Doc): nat {
    var key := LayerKeyOf(layer);
    if BlobName(key.digest) !in a.files then 0
    else
      match a.codec.expand(a.files[BlobName(key.digest)], key.mediaType)
      case Failed => 0
      case Ok(x) => x.size
  }

  /** The expanded size of a root filesystem; a layer that stands twice counts twice. */
  function LayerBytes(a: Archive, layers: seq<Json>): nat {
    if layers == [] then 0 else LayerSize(a, FieldsOf(layers[0])) + LayerBytes(a, layers[1..])
  }

  predicate LayersFine(a: Archive, layers: seq<Json>, ids: seq<Json>) {
    |layers| == |ids| && forall k | 0 <= k < |layers| :: LayerFine(a, FieldsOf(layers[k]), ids[k])
  }

  /** Remembered layers are what expanding them again would give. */
  predicate CacheFine(a: Archive, s: State) {
    forall key | key in s.layers ::
      && BlobName(key.digest) in a.files && s.layers[key].size <= MAX_LAYER_BYTES
      && a.codec.expand(a.files[BlobName(key.digest)], key.mediaType) == Ok(s.layers[key])
  }

  lemma LayerChecked(a: Archive, s: State, layer: Doc, id: Json)
    requires CacheFine(a, s)
    ensures CheckLayer(a, s, layer, id).Ok?
       <==> LayerFine(a, layer, id) && s.rootfsBytes + LayerSize(a, layer) <= MAX_ROOTFS_BYTES
    ensures CheckLayer(a, s, layer, id).Ok? ==>
              var t := CheckLayer(a, s, layer, id).value;
              CacheFine(a, t) && t == s.(layers := t.layers, rootfsBytes := s.rootfsBytes + LayerSize(a, layer))
  {
  }

  /** Layers are accepted exactly if each is fine and all fit into what is left of the limit. */
  lemma {:induction false} LayersChecked(a: Archive, s: State, layers: seq<Json>, ids: seq<Json>)
    requires CacheFine(a, s) && |layers| == |ids| && s.rootfsBytes <= MAX_ROOTFS_BYTES
    ensures CheckLayers(a, s, layers, ids).Ok?
       <==> LayersFine(a, layers, ids) && s.rootfsBytes + LayerBytes(a, layers) <= MAX_ROOTFS_BYTES
    ensures CheckLayers(a, s, layers, ids).Ok? ==>
              var t := CheckLayers(a, s, layers, ids).value;
              CacheFine(a, t) && t == s.(layers := t.layers, rootfsBytes := s.rootfsBytes + LayerBytes(a, layers))
    decreases |layers|
  {
    hide CheckLayer, LayerFine, LayerSize, CacheFine;
    if layers != [] {
      LayerChecked(a, s, FieldsOf(layers[0]), ids[0]);
      LayersFineSplit(a, layers, ids);
      if CheckLayer(a, s, FieldsOf(layers[0]), ids[0]).Ok? {
        LayersChecked(a, CheckLayer(a, s, FieldsOf(layers[0]), ids[0]).value, layers[1..], ids[1..]);
      }
    }
  }

  lemma LayersFineSplit(a: Archive, layers: seq<Json>, ids: seq<Json>)
    requires |layers| == |ids| > 0
    ensures LayersFine(a, layers, ids)
            <==> LayerFine(a, FieldsOf(layers[0]), ids[0]) && LayersFine(a, layers[1..], ids[1..])
  {
    hide LayerFine;
    if LayerFine(a, FieldsOf(layers[0]), ids[0]) && LayersFine(a, layers[1..], ids[1..]) {
      forall k | 0 <= k < |layers| ensures LayerFine(a, FieldsOf(layers[k]), ids[k]) {
        if k > 0 {
          assert layers[k] == layers[1..][k - 1] && ids[k] == ids[1..][k - 1];
        }
      }
    }
  }

  // ---- What an accepted image is ----------------------------------------------------------

  /** Structural metadata that can be read. */
  predicate Small(a: Archive, digest: string) {
    && BlobName(digest) in a.files && 0 < |a.files[BlobName(digest)]| <= MAX_JSON
    && a.codec.decode(a.files[BlobName(digest)]).Ok?
  }

  function DocAt(a: Archive, digest: string): Doc {
    if Small(a, digest) then a.codec.decode(a.files[BlobName(digest)]).value else map[]
  }

  function ConfigOf(data: Doc): Doc {
    FieldsOf(Get(data, "config"))
  }

  /** A descriptor that can be read as the manifest of an image. */
  predicate ManifestFine(a: Archive, d: Doc) {
    && BlobAllowed(a, Obj(d), {INDEX, MANIFEST}) && MediaOf(d) == MANIFEST && Small(a, DigestOf(d))
    && var data := DocAt(a, DigestOf(d));
       Versioned(data, MANIFEST) && AnnotationsAllowed(d) && !IsAttestation(d, data) && IsPlainImage(d, data)
  }

  /** Everything that is checked of an image but the common limits. */
  predicate ImageFine(a: Archive, want: Want, d: Doc) {
    var data := DocAt(a, DigestOf(d));
    var details := DocAt(a, DigestOf(ConfigOf(data)));
    && ManifestFine(a, d) && BlobAllowed(a, Get(data, "config"), {CONFIG}) && Small(a, DigestOf(ConfigOf(data)))
    && ImageAllowed(a, want, d, data, details) && LayersFine(a, LayersOf(data), DiffIds(details))
  }

  function ImageBytes(a: Archive, digest: string): nat {
    LayerBytes(a, LayersOf(DocAt(a, digest)))
  }

  function ImagesBytes(a: Archive, images: seq<Image>): nat {
    if images == [] then 0
    else ImagesBytes(a, images[..|images| - 1]) + ImageBytes(a, images[|images| - 1].descriptor.digest)
  }

  predicate HasFineLeaf(a: Archive, leaves: seq<Doc>, image: Image) {
    exists leaf | leaf in leaves :: KeyOf(leaf) == image.descriptor && ImageFine(a, a.want, leaf)
  }

  /** What a walk of a native archive keeps. */
  predicate Sound(a: Archive, s: State) {
    && CacheFine(a, s) && s.rootfsBytes == ImagesBytes(a, s.images) && s.rootfsBytes <= MAX_ROOTFS_BYTES
    && forall image | image in s.images :: HasFineLeaf(a, s.leaves, image)
  }

  /** Reading metadata changes no more than what is recorded of it. */
  lemma ConfigRead(a: Archive, s: State, config: Json)
    requires ReadBlob(a, s, config, {CONFIG}).Ok?
    ensures var read := ReadBlob(a, s, config, {CONFIG}).value;
      var digest := DigestOf(FieldsOf(config));
      && BlobAllowed(a, config, {CONFIG}) && Small(a, digest) && read.doc == DocAt(a, digest)
      && read.s == s.(metadataBytes := s.metadataBytes + |a.files[BlobName(digest)]|,
                      metadataNames := s.metadataNames + {BlobName(digest)})
  {
    hide BlobAllowed;
    BlobHasFields(a, config, {CONFIG});
  }

  /** An accepted image is fine and adds its own size. */
  lemma ImageSound(a: Archive, want: Want, s: State, d: Doc)
    requires ManifestFine(a, d) && CheckImage(a, want, s, d, DocAt(a, DigestOf(d))).Ok?
    requires CacheFine(a, s) && s.rootfsBytes <= MAX_ROOTFS_BYTES
    ensures var t := CheckImage(a, want, s, d, DocAt(a, DigestOf(d))).value;
      && ImageFine(a, want, d) && CacheFine(a, t) && t.leaves == s.leaves
      && t.rootfsBytes == s.rootfsBytes + ImageBytes(a, DigestOf(d)) && t.rootfsBytes <= MAX_ROOTFS_BYTES
      && |t.images| == |s.images| + 1 && t.images[..|s.images|] == s.images
         && t.images[|s.images|].descriptor == KeyOf(d)
  {
    hide ManifestFine, ReadBlob, ImageAllowed, CheckLayers, LayersFine, CacheFine, BlobAllowed, LayerBytes;
    var data := DocAt(a, DigestOf(d));
    var read := ReadBlob(a, s, Get(data, "config"), {CONFIG}).value;
    ConfigRead(a, s, Get(data, "config"));
    LayersAllowed(a, want, d, data, read.doc);
    CacheStays(a, s, read.s);
    LayersChecked(a, read.s, LayersOf(data), DiffIds(read.doc));
    var next := CheckLayers(a, read.s, LayersOf(data), DiffIds(read.doc)).value;
    CacheStays(a, next, CheckImage(a, want, s, d, data).value);
  }

  lemma CacheStays(a: Archive, s: State, t: State)
    requires CacheFine(a, s) && t.layers == s.layers
    ensures CacheFine(a, t)
  {
  }

  lemma FineLeafStays(a: Archive, leaves: seq<Doc>, d: Doc, image: Image)
    requires HasFineLeaf(a, leaves, image)
    ensures HasFineLeaf(a, leaves + [d], image)
  {
    hide ImageFine;
    var leaf :| leaf in leaves && KeyOf(leaf) == image.descriptor && ImageFine(a, a.want, leaf);
    assert leaf in leaves + [d];
  }

  lemma NewFineLeaf(a: Archive, leaves: seq<Doc>, d: Doc, image: Image)
    requires ImageFine(a, a.want, d) && image.descriptor == KeyOf(d)
    ensures HasFineLeaf(a, leaves + [d], image)
  {
    hide ImageFine;
    assert d in leaves + [d];
  }

  lemma LeafSound(a: Archive, s: State, d: Doc)
    requires !a.runnable && Sound(a, s) && BlobAllowed(a, Obj(d), {INDEX, MANIFEST}) && MediaOf(d) == MANIFEST
    requires Small(a, DigestOf(d)) && Versioned(DocAt(a, DigestOf(d)), MANIFEST)
    requires Leaf(a, s, d, DocAt(a, DigestOf(d))).Ok?
    ensures Sound(a, Leaf(a, s, d, DocAt(a, DigestOf(d))).value)
  {
    hide CheckImage, CheckAttestation, AnnotationsAllowed, IsAttestation, IsPlainImage, HasFineLeaf, ImageFine,
         CacheFine;
    hide BlobAllowed, Small, ImageBytes;
    var data := DocAt(a, DigestOf(d));
    var t := Leaf(a, s, d, data).value;
    if IsAttestation(d, data) {
      AttestationGrows(a, s, d, data);
      EvidenceKeepsSize(a, s, d, data);
      CacheStays(a, s, t);
      forall image | image in t.images ensures HasFineLeaf(a, t.leaves, image) {
        FineLeafStays(a, s.leaves, d, image);
      }
    } else {
      ImageSound(a, a.want, s, d);
      CacheStays(a, CheckImage(a, a.want, s, d, data).value, t);
      forall image | image in t.images ensures HasFineLeaf(a, t.leaves, image) {
        if image == t.images[|s.images|] {
          NewFineLeaf(a, s.leaves, d, image);
        } else {
          assert image in t.images[..|s.images|];
          FineLeafStays(a, s.leaves, d, image);
        }
      }
    }
  }

  lemma EvidenceKeepsSize(a: Archive, s: State, d: Doc, data: Doc)
    requires CheckAttestation(a, s, d, data).Ok?
    ensures CheckAttestation(a, s, d, data).value.rootfsBytes == s.rootfsBytes
  {
    hide ReadStatements, SubjectOf, CheckAttestation, BlobAllowed;
    AttestationParts(a, s, d, data);
    var config := if IsTyped(data) then {EMPTY_CONFIG} else {CONFIG};
    var read := ReadBlob(a, s, Get(data, "config"), config).value;
    StatementsKeepSize(a, read.s, LayersOf(data), SubjectOf(a, d, data, read.doc).value, {});
  }

  lemma {:induction false} StatementsKeepSize(a: Archive, s: State, layers: seq<Json>, subject: Key, types: set<string>)
    requires ReadStatements(a, s, layers, subject, types).Ok?
    ensures ReadStatements(a, s, layers, subject, types).value.s.rootfsBytes == s.rootfsBytes
    decreases |layers|
  {
    hide BlobAllowed, StatementAllowed;
    if layers != [] {
      var next := ReadStatement(a, s, layers[0], subject, types).value;
      StatementsKeepSize(a, next.s, layers[1..], subject, next.types);
    }
  }

  /** What a visit has read, and that it leads on with everything sound. */
  lemma EntrySound(a: Archive, s: State, descriptor: Json, depth: nat)
    requires Walk(a, s, descriptor, depth).Ok? && Sound(a, s)
    ensures descriptor.Obj? && ReadBlob(a, s.(visited := s.visited + 1), descriptor, {INDEX, MANIFEST}).Ok?
    ensures var d := descriptor.fields;
      var read := ReadBlob(a, s.(visited := s.visited + 1), descriptor, {INDEX, MANIFEST}).value;
      && Sound(a, read.s) && BlobAllowed(a, Obj(d), {INDEX, MANIFEST}) && Small(a, DigestOf(d))
      && read.doc == DocAt(a, DigestOf(d)) && Versioned(read.doc, MediaOf(d)) && MediaOf(d) in {INDEX, MANIFEST}
  {
    hide WalkIndex, Leaf, HasFineLeaf, CacheFine, ImagesBytes;
    var read := ReadBlob(a, s.(visited := s.visited + 1), descriptor, {INDEX, MANIFEST}).value;
    CacheStays(a, s, read.s);
  }

  lemma {:induction false} WalkSound(a: Archive, s: State, descriptor: Json, depth: nat)
    requires !a.runnable && Sound(a, s) && Walk(a, s, descriptor, depth).Ok?
    ensures Sound(a, Walk(a, s, descriptor, depth).value)
    decreases Room(depth), 0, 0
  {
    hide Walk, Leaf, Sound, ReadBlob, BlobAllowed;
    VisitReads(a, s, descriptor, depth);
    EntrySound(a, s, descriptor, depth);
    var read := ReadBlob(a, s.(visited := s.visited + 1), descriptor, {INDEX, MANIFEST}).value;
    if MediaOf(descriptor.fields) == INDEX {
      WalkAllSound(a, read.s, Get(read.doc, "manifests").items, depth + 1);
    } else {
      LeafSound(a, read.s, descriptor.fields);
    }
  }

  lemma {:induction false} WalkAllSound(a: Archive, s: State, children: seq<Json>, depth: nat)
    requires !a.runnable && Sound(a, s) && WalkAll(a, s, children, depth).Ok?
    ensures Sound(a, WalkAll(a, s, children, depth).value)
    decreases Room(depth), 1, |children|
  {
    hide Walk, Sound;
    if children != [] {
      WalkSound(a, s, children[0], depth);
      WalkAllSound(a, Walk(a, s, children[0], depth).value, children[1..], depth);
    }
  }

  /** A native archive that passed its check: its image is fine, and the root filesystem it counted is its. */
  lemma InspectSound(a: Archive)
    requires !a.runnable && Inspect(a).Ok?
    ensures Sound(a, Inspect(a).value)
  {
    hide WalkAll, Inspect, Sound;
    var layout, root := InspectParts(a);
    assert Sound(a, root.s) by {
      FreshIsSound(a, root.s);
    }
    WalkAllSound(a, root.s, Get(root.doc, "manifests").items, 0);
  }

  lemma FreshIsSound(a: Archive, s: State)
    requires s.layers == map[] && s.images == [] && s.rootfsBytes == 0
    ensures Sound(a, s)
  {
  }

  // ---- Canonical metadata -----------------------------------------------------------------

  const LAYOUT_DOC: Doc := map["imageLayoutVersion" := Str("1.0.0")]

  function IndexOver(children: seq<Json>): Doc {
    map["schemaVersion" := Int(2), "mediaType" := Str(INDEX), "manifests" := List(children)]
  }

  /** The index of both images. */
  function Inner(d0: Doc, d1: Doc): Doc {
    IndexOver([Obj(d0), Obj(d1)])
  }

  function InnerDescriptor(codec: Codec, d0: Doc, d1: Doc): Doc {
    var inner := codec.encode(Inner(d0, d1));
    map["mediaType" := Str(INDEX), "digest" := Str(DIGEST_PREFIX + codec.hash(inner)), "size" := Int(|inner|)]
  }

  function Root(codec: Codec, d0: Doc, d1: Doc): Doc {
    IndexOver([Obj(InnerDescriptor(codec, d0, d1))])
  }

  function InnerName(codec: Codec, d0: Doc, d1: Doc): string {
    BLOB_PREFIX + codec.hash(codec.encode(Inner(d0, d1)))
  }

  /** `runtime_metadata`. */
  function Generated(codec: Codec, d0: Doc, d1: Doc): map<string, Bytes> {
    map[LAYOUT := codec.encode(LAYOUT_DOC), INDEX_JSON := codec.encode(Root(codec, d0, d1)),
        InnerName(codec, d0, d1) := codec.encode(Inner(d0, d1))]
  }

  /** `write_runtime_archive`. */
  function Written(codec: Codec, d0: Doc, d1: Doc, blobs: map<string, Bytes>): map<string, Bytes> {
    blobs + Generated(codec, d0, d1)
  }

  /** What is compared of a file that may be long. */
  function Head(raw: Bytes): Bytes {
    if |raw| <= MAX_JSON + 1 then raw else raw[..MAX_JSON + 1]
  }

  predicate IsCanonical(a: Archive, s: State) {
    && s.descriptors.Keys == {0, 1}
    && var generated := Generated(a.codec, s.descriptors[0], s.descriptors[1]);
       forall name | name in generated :: name in a.files && Head(a.files[name]) == generated[name]
  }

  /** The check of a runnable archive: inventory and walk, and then nothing but canonical metadata over
      what the walk has used. */
  function InspectRunnable(a: Archive): Result<State> {
    if !a.runnable || !Hashed(a.codec.hash, a.files) then Failed
    else
      match Inspect(a)
      case Failed => Failed
      case Ok(s) => if IsCanonical(a, s) && a.files.Keys == s.metadataNames + s.layerNames then Ok(s) else Failed
  }

  // ---- Accepting an image that is fine ----------------------------------------------------

  lemma ImageTaken(e: Archive, want: Want, s: State, d: Doc)
    requires ImageFine(e, want, d) && CacheFine(e, s) && s.rootfsBytes <= MAX_ROOTFS_BYTES
    requires s.metadataBytes + MAX_JSON <= MAX_JSON_TOTAL
    ensures var data := DocAt(e, DigestOf(d));
      var r := CheckImage(e, want, s, d, data);
      && (r.Ok? <==> s.rootfsBytes + ImageBytes(e, DigestOf(d)) <= MAX_ROOTFS_BYTES)
      && (r.Ok? ==>
            && r.value == s.(metadataBytes := r.value.metadataBytes,
                             metadataNames := s.metadataNames + {BlobName(DigestOf(ConfigOf(data)))},
                             layers := r.value.layers, rootfsBytes := s.rootfsBytes + ImageBytes(e, DigestOf(d)),
                             images := s.images + [Image(KeyOf(d), DigestOf(ConfigOf(data)))])
            && r.value.metadataBytes <= s.metadataBytes + MAX_JSON && CacheFine(e, r.value))
  {
    hide ManifestFine, ReadBlob, ImageAllowed, CheckLayers, LayersFine, CacheFine, BlobAllowed, LayerBytes;
    var data := DocAt(e, DigestOf(d));
    ConfigReadable(e, s, Get(data, "config"));
    var read := ReadBlob(e, s, Get(data, "config"), {CONFIG}).value;
    ConfigRead(e, s, Get(data, "config"));
    LayersAllowed(e, want, d, data, read.doc);
    CacheStays(e, s, read.s);
    LayersChecked(e, read.s, LayersOf(data), DiffIds(read.doc));
    if CheckLayers(e, read.s, LayersOf(data), DiffIds(read.doc)).Ok? {
      var next := CheckLayers(e, read.s, LayersOf(data), DiffIds(read.doc)).value;
      CacheStays(e, next, CheckImage(e, want, s, d, data).value);
    }
  }

  lemma ConfigReadable(e: Archive, s: State, config: Json)
    requires BlobAllowed(e, config, {CONFIG}) && Small(e, DigestOf(FieldsOf(config)))
    requires s.metadataBytes + MAX_JSON <= MAX_JSON_TOTAL
    ensures ReadBlob(e, s, config, {CONFIG}).Ok?
  {
    hide BlobAllowed;
    BlobHasFields(e, config, {CONFIG});
  }

  /** One image of a runnable archive, its manifest included. */
  predicate Took(e: Archive, s: State, t: State, d: Doc, i: nat) {
    var data := DocAt(e, DigestOf(d));
    && t == s.(visited := s.visited + 1, metadataBytes := t.metadataBytes,
               metadataNames := s.metadataNames + {BlobName(DigestOf(d))} + {BlobName(DigestOf(ConfigOf(data)))},
               layers := t.layers, rootfsBytes := s.rootfsBytes + ImageBytes(e, DigestOf(d)),
               images := s.images + [Image(KeyOf(d), DigestOf(ConfigOf(data)))], leaves := s.leaves + [d],
               descriptors := s.descriptors[i := d], layerNames := s.layerNames + LayerNames(data))
    && t.metadataBytes <= s.metadataBytes + 2 * MAX_JSON && CacheFine(e, t) && t.rootfsBytes <= MAX_ROOTFS_BYTES
  }

  predicate Awaits(e: Archive, s: State, d: Doc, i: nat) {
    && e.runnable && CacheFine(e, s) && s.rootfsBytes <= MAX_ROOTFS_BYTES && s.visited < MAX_VISITED
    && s.metadataBytes + 2 * MAX_JSON <= MAX_JSON_TOTAL && i !in s.descriptors && NewLeaf(s.leaves, d)
  }

  lemma ManifestReadable(e: Archive, s: State, d: Doc)
    requires ManifestFine(e, d) && s.metadataBytes + MAX_JSON <= MAX_JSON_TOTAL
    ensures ReadBlob(e, s, Obj(d), {INDEX, MANIFEST})
         == Ok(Read(s.(metadataBytes := s.metadataBytes + |e.files[BlobName(DigestOf(d))]|,
                       metadataNames := s.metadataNames + {BlobName(DigestOf(d))}), DocAt(e, DigestOf(d))))
    ensures |e.files[BlobName(DigestOf(d))]| <= MAX_JSON
  {
    hide BlobAllowed, AnnotationsAllowed, IsAttestation, IsPlainImage, Versioned;
  }

  lemma LeafWalked(e: Archive, s: State, d: Doc)
    requires e.runnable && ManifestFine(e, d) && s.visited < MAX_VISITED && s.metadataBytes + MAX_JSON <= MAX_JSON_TOTAL
    ensures var read := ReadBlob(e, s.(visited := s.visited + 1), Obj(d), {INDEX, MANIFEST});
      read.Ok? && Walk(e, s, Obj(d), 1) ==
        match CheckRunnable(e, read.value.s, d, DocAt(e, DigestOf(d)))
        case Failed => Failed
        case Ok(next) => if NewLeaf(next.leaves, d) then Ok(next.(leaves := next.leaves + [d])) else Failed
  {
    hide BlobAllowed, AnnotationsAllowed, IsAttestation, IsPlainImage, Versioned, CheckRunnable, NewLeaf, Small,
         ReadBlob;
    ManifestReadable(e, s.(visited := s.visited + 1), d);
  }

  lemma ImageWalked(e: Archive, s: State, d: Doc, i: nat)
    requires Awaits(e, s, d, i) && PlatformOf(d) == Some(i)
    requires ImageFine(e, WantFor(i, e.want.version, e.want.revision), d)
    ensures var r := Walk(e, s, Obj(d), 1);
      && (r.Ok? <==> s.rootfsBytes + ImageBytes(e, DigestOf(d)) <= MAX_ROOTFS_BYTES)
      && (r.Ok? ==> Took(e, s, r.value, d, i))
  {
    hide Walk, ManifestFine, ImageAllowed, CheckImage, LayersFine, CacheFine, BlobAllowed, NewLeaf, ReadBlob,
         ImageBytes, PlatformOf;
    var want := WantFor(i, e.want.version, e.want.revision);
    var visit := s.(visited := s.visited + 1);
    LeafWalked(e, s, d);
    ManifestReadable(e, visit, d);
    var read := ReadBlob(e, visit, Obj(d), {INDEX, MANIFEST}).value;
    CacheStays(e, s, read.s);
    ImageTaken(e, want, read.s, d);
    var r := Walk(e, s, Obj(d), 1);
    if r.Ok? {
      CacheStays(e, CheckImage(e, want, read.s, d, DocAt(e, DigestOf(d))).value, r.value);
    }
  }

  predicate BothFine(e: Archive, d0: Doc, d1: Doc) {
    && PlatformOf(d0) == Some(0) && ImageFine(e, WantFor(0, e.want.version, e.want.revision), d0)
    && PlatformOf(d1) == Some(1) && ImageFine(e, WantFor(1, e.want.version, e.want.revision), d1)
    && DigestOf(d0) != DigestOf(d1)
  }

  /** The names one image takes. */
  function Names(e: Archive, d: Doc): set<string> {
    {BlobName(DigestOf(d))} + {BlobName(DigestOf(ConfigOf(DocAt(e, DigestOf(d)))))}
  }

  function BothBytes(e: Archive, d0: Doc, d1: Doc): nat {
    ImageBytes(e, DigestOf(d0)) + ImageBytes(e, DigestOf(d1))
  }

  predicate TookBoth(e: Archive, s: State, t: State, d0: Doc, d1: Doc) {
    && t.metadataNames == s.metadataNames + Names(e, d0) + Names(e, d1)
    && t.layerNames == LayerNames(DocAt(e, DigestOf(d0))) + LayerNames(DocAt(e, DigestOf(d1)))
    && t.descriptors == map[0 := d0, 1 := d1] && |t.images| == 2
  }

  /** A state in which no image has been taken. */
  predicate Untouched(s: State) {
    && s.visited <= 1 && s.metadataBytes <= 3 * MAX_JSON && s.layers == map[] && s.rootfsBytes == 0
    && s.leaves == [] && s.images == [] && s.descriptors == map[] && s.layerNames == {}
  }

  lemma BothWalked(e: Archive, s: State, d0: Doc, d1: Doc)
    requires e.runnable && Untouched(s) && BothFine(e, d0, d1)
    ensures var r := WalkAll(e, s, [Obj(d0), Obj(d1)], 1);
      && (r.Ok? <==> BothBytes(e, d0, d1) <= MAX_ROOTFS_BYTES)
      && (r.Ok? ==> TookBoth(e, s, r.value, d0, d1))
  {
    hide Walk, ImageFine, ImageBytes, PlatformOf;
    var children := [Obj(d0), Obj(d1)];
    assert children[1..] == [Obj(d1)] && [Obj(d1)][1..] == [];
    assert Awaits(e, s, d0, 0);
    ImageWalked(e, s, d0, 0);
    var first := Walk(e, s, Obj(d0), 1);
    if first.Ok? {
      AwaitsSecond(e, s, first.value, d0, d1);
      ImageWalked(e, first.value, d1, 1);
      assert WalkAll(e, s, children, 1) == WalkAll(e, first.value, [Obj(d1)], 1);
      assert WalkAll(e, first.value, [Obj(d1)], 1).Ok? <==> Walk(e, first.value, Obj(d1), 1).Ok?;
      if Walk(e, first.value, Obj(d1), 1).Ok? {
        var second := Walk(e, first.value, Obj(d1), 1).value;
        assert WalkAll(e, first.value, [Obj(d1)], 1) == WalkAll(e, second, [], 1) == Ok(second);
        TookAll(e, s, first.value, second, d0, d1);
      }
    }
  }

  lemma AwaitsSecond(e: Archive, s: State, t: State, d0: Doc, d1: Doc)
    requires e.runnable && Untouched(s) && Took(e, s, t, d0, 0) && DigestOf(d0) != DigestOf(d1)
    ensures Awaits(e, t, d1, 1)
  {
    hide CacheFine, DigestOf, DocAt;
    assert t.leaves == [d0];
  }

  lemma TookAll(e: Archive, s: State, t: State, u: State, d0: Doc, d1: Doc)
    requires Untouched(s) && Took(e, s, t, d0, 0) && Took(e, t, u, d1, 1)
    ensures TookBoth(e, s, u, d0, d1)
  {
    hide CacheFine, DigestOf, DocAt, LayerNames;
  }

  // ---- The whole runnable archive ---------------------------------------------------------

  predicate IsHash(s: string) {
    |s| == 64 && forall i | 0 <= i < 64 :: '0' <= s[i] <= '9' || 'a' <= s[i] <= 'f'
  }

  /** Canonical JSON reads back. */
  predicate Encodes(codec: Codec, doc: Doc) {
    |codec.encode(doc)| > 0 && codec.decode(codec.encode(doc)) == Ok(doc)
  }

  /** What the encoder and SHA-256 do for the generated metadata. */
  predicate EncodesMetadata(codec: Codec, d0: Doc, d1: Doc) {
    && Encodes(codec, LAYOUT_DOC) && Encodes(codec, Root(codec, d0, d1)) && Encodes(codec, Inner(d0, d1))
    && IsHash(codec.hash(codec.encode(Inner(d0, d1))))
  }

  /** The limits a pair may break although both its archives keep them: on the generated metadata, which
      the annotations of two descriptors can make long, and on both root filesystems together. */
  predicate RunnableFits(codec: Codec, d0: Doc, d1: Doc, rootfsBytes: nat) {
    && |codec.encode(LAYOUT_DOC)| <= MAX_JSON && |codec.encode(Root(codec, d0, d1))| <= MAX_JSON
    && |codec.encode(Inner(d0, d1))| <= MAX_JSON && rootfsBytes <= MAX_ROOTFS_BYTES
  }

  predicate HasGenerated(e: Archive, d0: Doc, d1: Doc) {
    forall name | name in Generated(e.codec, d0, d1) ::
        name in e.files && e.files[name] == Generated(e.codec, d0, d1)[name]
  }

  lemma InnerAllowed(e: Archive, d0: Doc, d1: Doc)
    requires HasGenerated(e, d0, d1) && EncodesMetadata(e.codec, d0, d1)
    ensures var d := InnerDescriptor(e.codec, d0, d1);
      && BlobName(DigestOf(d)) == InnerName(e.codec, d0, d1) && MediaOf(d) == INDEX
      && BlobAllowed(e, Obj(d), {INDEX, MANIFEST})
  {
    hide Inner, Root;
    var hash := e.codec.hash(e.codec.encode(Inner(d0, d1)));
    assert (DIGEST_PREFIX + hash)[7..] == hash;
    assert InnerName(e.codec, d0, d1) in Generated(e.codec, d0, d1);
  }

  /** The three generated names differ. */
  lemma NamesApart(codec: Codec, d0: Doc, d1: Doc)
    ensures LAYOUT != INDEX_JSON && LAYOUT != InnerName(codec, d0, d1) && INDEX_JSON != InnerName(codec, d0, d1)
  {
    assert LAYOUT[0] == 'o' && INDEX_JSON[0] == 'i' && InnerName(codec, d0, d1)[0] == 'b';
  }

  /** The inner index is read exactly within the limit of structural metadata. */
  lemma InnerRead(e: Archive, s: State, d0: Doc, d1: Doc)
    requires HasGenerated(e, d0, d1) && EncodesMetadata(e.codec, d0, d1) && s.metadataBytes <= 2 * MAX_JSON
    ensures var r := ReadBlob(e, s, Obj(InnerDescriptor(e.codec, d0, d1)), {INDEX, MANIFEST});
      var inner := e.codec.encode(Inner(d0, d1));
      && (r.Ok? <==> |inner| <= MAX_JSON)
      && (r.Ok? ==> r.value == Read(s.(metadataBytes := s.metadataBytes + |inner|,
                                       metadataNames := s.metadataNames + {InnerName(e.codec, d0, d1)}), Inner(d0, d1)))
  {
    hide BlobAllowed, Root, Inner;
    InnerAllowed(e, d0, d1);
    NamesApart(e.codec, d0, d1);
    assert InnerName(e.codec, d0, d1) in Generated(e.codec, d0, d1);
  }

  lemma InnerWalked(e: Archive, s: State, d0: Doc, d1: Doc)
    requires e.runnable && HasGenerated(e, d0, d1) && EncodesMetadata(e.codec, d0, d1) && BothFine(e, d0, d1)
    requires Untouched(s) && s.visited == 0 && s.metadataBytes <= 2 * MAX_JSON
    ensures var r := Walk(e, s, Obj(InnerDescriptor(e.codec, d0, d1)), 0);
      && (r.Ok? <==> |e.codec.encode(Inner(d0, d1))| <= MAX_JSON && BothBytes(e, d0, d1) <= MAX_ROOTFS_BYTES)
      && (r.Ok? ==> TookBoth(e, s.(metadataNames := s.metadataNames + {InnerName(e.codec, d0, d1)}), r.value, d0, d1))
  {
    hide BothFine, WalkAll, ReadBlob, BothBytes, Root, HasGenerated, EncodesMetadata, InnerName;
    var d := InnerDescriptor(e.codec, d0, d1);
    InnerIsIndex(e, d0, d1);
    InnerRead(e, s.(visited := s.visited + 1), d0, d1);
    var read := ReadBlob(e, s.(visited := s.visited + 1), Obj(d), {INDEX, MANIFEST});
    if read.Ok? {
      BothWalked(e, read.value.s, d0, d1);
    }
  }

  lemma InnerIsIndex(e: Archive, d0: Doc, d1: Doc)
    ensures MediaOf(InnerDescriptor(e.codec, d0, d1)) == INDEX
    ensures Versioned(Inner(d0, d1), INDEX) && IndexAllowed(Inner(d0, d1))
    ensures Get(Inner(d0, d1), "manifests").items == [Obj(d0), Obj(d1)]
  {
  }

  predicate TopFits(codec: Codec, d0: Doc, d1: Doc) {
    |codec.encode(LAYOUT_DOC)| <= MAX_JSON && |codec.encode(Root(codec, d0, d1))| <= MAX_JSON
  }

  /** Layout and index are read. */
  lemma TopReads(e: Archive, d0: Doc, d1: Doc)
    requires HasGenerated(e, d0, d1) && EncodesMetadata(e.codec, d0, d1)
    ensures var layout := ReadJson(e, FRESH, LAYOUT, MAX_JSON);
      && (layout.Ok? <==> |e.codec.encode(LAYOUT_DOC)| <= MAX_JSON)
      && (layout.Ok? ==>
            && layout.value.doc == LAYOUT_DOC
            && var root := ReadJson(e, layout.value.s, INDEX_JSON, MAX_JSON);
               && (root.Ok? <==> |e.codec.encode(Root(e.codec, d0, d1))| <= MAX_JSON)
               && (root.Ok? ==>
                     && root.value.doc == Root(e.codec, d0, d1) && Untouched(root.value.s) && root.value.s.visited == 0
                     && root.value.s.metadataBytes <= 2 * MAX_JSON
                        && root.value.s.metadataNames == {LAYOUT, INDEX_JSON}))
  {
    hide Inner, Root;
    NamesApart(e.codec, d0, d1);
    assert LAYOUT in Generated(e.codec, d0, d1) && INDEX_JSON in Generated(e.codec, d0, d1);
  }

  /** The root index leads to the inner one. */
  lemma RootWalks(e: Archive, s: State, d0: Doc, d1: Doc)
    ensures WalkIndex(e, s, Root(e.codec, d0, d1), 0) == Walk(e, s, Obj(InnerDescriptor(e.codec, d0, d1)), 0)
  {
    hide Walk, InnerDescriptor;
    var children := [Obj(InnerDescriptor(e.codec, d0, d1))];
    assert children[1..] == [];
    var first := Walk(e, s, children[0], 0);
    assert WalkAll(e, s, children, 0) == first by {
      if first.Ok? {
        assert WalkAll(e, first.value, [], 0) == Ok(first.value);
      }
    }
  }

  /** The names of a runnable archive of two images. */
  function AllNames(e: Archive, d0: Doc, d1: Doc): set<string> {
    {LAYOUT, INDEX_JSON} + {InnerName(e.codec, d0, d1)} + Names(e, d0) + Names(e, d1)
    + LayerNames(DocAt(e, DigestOf(d0))) + LayerNames(DocAt(e, DigestOf(d1)))
  }

  lemma RunnableInspected(e: Archive, d0: Doc, d1: Doc)
    requires e.runnable && HasGenerated(e, d0, d1) && EncodesMetadata(e.codec, d0, d1) && BothFine(e, d0, d1)
    ensures Inspect(e).Ok? <==> RunnableFits(e.codec, d0, d1, BothBytes(e, d0, d1))
    ensures Inspect(e).Ok? ==>
              && Inspect(e).value.descriptors == map[0 := d0, 1 := d1]
              && Inspect(e).value.metadataNames + Inspect(e).value.layerNames == AllNames(e, d0, d1)
  {
    hide BothFine, Walk, WalkIndex, Root, Inner, BothBytes, EncodesMetadata, HasGenerated, Names, LayerNames, ReadJson;
    TopReads(e, d0, d1);
    if TopFits(e.codec, d0, d1) {
      var layout := ReadJson(e, FRESH, LAYOUT, MAX_JSON).value;
      var root := ReadJson(e, layout.s, INDEX_JSON, MAX_JSON).value;
      RootWalks(e, root.s, d0, d1);
      InnerWalked(e, root.s, d0, d1);
    }
  }

  /** The whole check, where the files are no more than what two fine images need. */
  lemma RunnableAccepted(e: Archive, d0: Doc, d1: Doc)
    requires e.runnable && HasGenerated(e, d0, d1) && EncodesMetadata(e.codec, d0, d1) && BothFine(e, d0, d1)
    requires Hashed(e.codec.hash, e.files) && e.files.Keys == AllNames(e, d0, d1)
    ensures InspectRunnable(e).Ok? <==> RunnableFits(e.codec, d0, d1, BothBytes(e, d0, d1))
    ensures InspectRunnable(e).Ok? ==> InspectRunnable(e).value.descriptors == map[0 := d0, 1 := d1]
  {
    hide BothFine, Inspect, Root, Inner, BothBytes, EncodesMetadata, AllNames, Hashed;
    RunnableInspected(e, d0, d1);
    if Inspect(e).Ok? {
      NamesApart(e.codec, d0, d1);
      assert IsCanonical(e, Inspect(e).value);
    }
  }

  // ---- From the native archives -----------------------------------------------------------

  /** The other archive has what the image at `d` consists of. */
  ghost predicate Shares(a: Archive, e: Archive, d: Doc) {
    && e.codec == a.codec
    && forall name | name in RuntimeNames(a, DigestOf(d)) ::
         name in a.files && name in e.files && e.files[name] == a.files[name]
  }

  lemma AllowedMoves(a: Archive, e: Archive, descriptor: Json, types: set<string>)
    requires descriptor.Obj? && Same(a, e.files, BlobName(DigestOf(descriptor.fields)))
    ensures BlobAllowed(a, descriptor, types) <==> BlobAllowed(e, descriptor, types)
  {
  }

  lemma SmallMoves(a: Archive, e: Archive, digest: string)
    requires e.codec == a.codec && Same(a, e.files, BlobName(digest))
    ensures Small(a, digest) <==> Small(e, digest)
    ensures DocAt(a, digest) == DocAt(e, digest)
  {
  }

  lemma LayerMoves(a: Archive, e: Archive, layer: Doc, id: Json)
    requires e.codec == a.codec && Same(a, e.files, BlobName(DigestOf(layer)))
    ensures LayerFine(a, layer, id) <==> LayerFine(e, layer, id)
    ensures LayerSize(a, layer) == LayerSize(e, layer)
  {
  }

  lemma {:induction false} LayersMove(a: Archive, e: Archive, layers: seq<Json>)
    requires e.codec == a.codec && forall layer | layer in layers ::
               Same(a, e.files, BlobName(DigestOf(FieldsOf(layer))))
    ensures LayerBytes(a, layers) == LayerBytes(e, layers)
    decreases |layers|
  {
    hide Same, LayerSize;
    if layers != [] {
      assert layers[0] in layers;
      LayerMoves(a, e, FieldsOf(layers[0]), Null);
      LayersMove(a, e, layers[1..]);
    }
  }

  lemma ImageMoves(a: Archive, e: Archive, want: Want, d: Doc)
    requires ImageFine(a, want, d) && Shares(a, e, d)
    ensures ImageFine(e, want, d) && ImageBytes(e, DigestOf(d)) == ImageBytes(a, DigestOf(d))
    ensures RuntimeNames(a, DigestOf(d)) == Names(e, d) + LayerNames(DocAt(e, DigestOf(d)))
  {
    hide SamePlatform, Labelled, Rooted, BlobAllowed, Versioned, AnnotationsAllowed, IsAttestation, IsPlainImage,
         LayerFine;
    var data := DocAt(a, DigestOf(d));
    NamesOfImage(a, d);
    AllowedMoves(a, e, Obj(d), {INDEX, MANIFEST});
    SmallMoves(a, e, DigestOf(d));
    ConfigHasFields(a, Get(data, "config"));
    AllowedMoves(a, e, Get(data, "config"), {CONFIG});
    SmallMoves(a, e, DigestOf(ConfigOf(data)));
    forall layer | layer in LayersOf(data)
      ensures Same(a, e.files, BlobName(DigestOf(FieldsOf(layer)))) && BlobAllowed(e, layer, LAYER_TYPES) {
      assert BlobAllowed(a, layer, LAYER_TYPES);
      BlobHasFields(a, layer, LAYER_TYPES);
      AllowedMoves(a, e, layer, LAYER_TYPES);
    }
    var ids := DiffIds(DocAt(a, DigestOf(ConfigOf(data))));
    forall k | 0 <= k < |LayersOf(data)| ensures LayerFine(e, FieldsOf(LayersOf(data)[k]), ids[k]) {
      assert LayersOf(data)[k] in LayersOf(data);
      LayerMoves(a, e, FieldsOf(LayersOf(data)[k]), ids[k]);
    }
    LayersMove(a, e, LayersOf(data));
  }

  lemma ConfigHasFields(a: Archive, config: Json)
    requires BlobAllowed(a, config, {CONFIG})
    ensures config.Obj?
  {
  }

  lemma NamesOfImage(a: Archive, d: Doc)
    requires Small(a, DigestOf(d))
    ensures RuntimeNames(a, DigestOf(d)) == Names(a, d) + LayerNames(DocAt(a, DigestOf(d)))
  {
  }

  lemma PlatformIs(a: Archive, i: nat, version: string, revision: string, d: Doc)
    requires i < 2 && ImageFine(a, WantFor(i, version, revision), d)
    ensures PlatformOf(d) == Some(i)
  {
    hide ManifestFine, Labelled, Rooted, AllAllowed, LayersFine, BlobAllowed;
  }

  /** An image is for one platform, so two platforms have two images. */
  lemma DifferentImages(a0: Archive, a1: Archive, version: string, revision: string, d0: Doc, d1: Doc)
    requires ImageFine(a0, WantFor(0, version, revision), d0) && ImageFine(a1, WantFor(1, version, revision), d1)
    requires a1.codec == a0.codec && Injective(a0.codec.hash)
    requires Hashed(a0.codec.hash, a0.files) && Hashed(a0.codec.hash, a1.files)
    ensures DigestOf(d0) != DigestOf(d1)
  {
    hide Injective, Hashed, ManifestFine, Labelled, Rooted, AllAllowed, LayersFine, BlobAllowed;
    if DigestOf(d0) == DigestOf(d1) {
      ManifestSmall(a0, d0);
      ManifestSmall(a1, d1);
      SameDoc(a0, a1, DigestOf(d0));
      SameDoc(a0, a1, DigestOf(ConfigOf(DocAt(a0, DigestOf(d0)))));
    }
  }

  lemma ManifestSmall(a: Archive, d: Doc)
    requires ManifestFine(a, d)
    ensures Small(a, DigestOf(d))
  {
  }

  /** A digest means one document. */
  lemma SameDoc(a0: Archive, a1: Archive, digest: string)
    requires a1.codec == a0.codec && Injective(a0.codec.hash) && Small(a0, digest) && Small(a1, digest)
    requires Hashed(a0.codec.hash, a0.files) && Hashed(a0.codec.hash, a1.files)
    ensures DocAt(a0, digest) == DocAt(a1, digest)
  {
    hide Injective, Hashed;
    SameName(a0.codec.hash, a0.files, a1.files, BlobName(digest));
  }

  /** The blobs of an image under their hashes, whatever stands beside them. */
  lemma SharesBlobs(a: Archive, e: Archive, d: Doc, blobs: map<string, Bytes>)
    requires e.codec == a.codec && Injective(a.codec.hash)
    requires Hashed(a.codec.hash, a.files) && Hashed(a.codec.hash, e.files)
    requires blobs.Keys <= e.files.Keys && RuntimeNames(a, DigestOf(d)) <= blobs.Keys
    requires RuntimeNames(a, DigestOf(d)) <= a.files.Keys
    ensures Shares(a, e, d)
  {
    hide Injective, Hashed;
    forall name | name in RuntimeNames(a, DigestOf(d)) ensures e.files[name] == a.files[name] {
      assert IsBlobName(name);
      SameName(a.codec.hash, a.files, e.files, name);
    }
  }

  lemma WrittenHas(e: Archive, d0: Doc, d1: Doc, blobs: map<string, Bytes>)
    requires e.files == Written(e.codec, d0, d1, blobs)
    ensures HasGenerated(e, d0, d1) && blobs.Keys <= e.files.Keys
    ensures e.files.Keys == blobs.Keys + {LAYOUT, INDEX_JSON, InnerName(e.codec, d0, d1)}
  {
    hide Root, Inner;
  }

  lemma WrittenIsHashed(codec: Codec, d0: Doc, d1: Doc, blobs: map<string, Bytes>)
    requires Hashed(codec.hash, blobs)
    ensures Hashed(codec.hash, Written(codec, d0, d1, blobs))
  {
    hide Root, Inner;
    NamesApart(codec, d0, d1);
    assert BLOB_PREFIX[0] == 'b' && LAYOUT[0] == 'o' && INDEX_JSON[0] == 'i';
  }

  /** Two images of native archives, written together: the runnable archive is accepted exactly if the
      generated metadata and both root filesystems together keep the limits. */
  lemma WrittenAccepted(a0: Archive, a1: Archive, d0: Doc, d1: Doc, e: Archive, blobs: map<string, Bytes>)
    requires a1.codec == a0.codec && e.codec == a0.codec && e.runnable && Injective(a0.codec.hash)
    requires ImageFine(a0, WantFor(0, e.want.version, e.want.revision), d0)
    requires ImageFine(a1, WantFor(1, e.want.version, e.want.revision), d1)
    requires RuntimeNames(a0, DigestOf(d0)) <= a0.files.Keys && RuntimeNames(a1, DigestOf(d1)) <= a1.files.Keys
    requires blobs.Keys == RuntimeNames(a0, DigestOf(d0)) + RuntimeNames(a1, DigestOf(d1))
    requires Hashed(a0.codec.hash, a0.files) && Hashed(a0.codec.hash, a1.files) && Hashed(a0.codec.hash, blobs)
    requires EncodesMetadata(e.codec, d0, d1) && e.files == Written(e.codec, d0, d1, blobs)
    ensures var r := InspectRunnable(e);
      && (r.Ok? <==> RunnableFits(e.codec, d0, d1, ImageBytes(a0, DigestOf(d0)) + ImageBytes(a1, DigestOf(d1))))
      && (r.Ok? ==> r.value.descriptors == map[0 := d0, 1 := d1])
  {
    hide ImageFine, Injective, Hashed, Root, Inner, EncodesMetadata, Written, RuntimeNames, InspectRunnable, ImageBytes;
    hide HasGenerated, Shares, PlatformOf, Names, LayerNames, AllNames, InnerName, RunnableFits;
    WrittenHas(e, d0, d1, blobs);
    WrittenIsHashed(e.codec, d0, d1, blobs);
    SharesBlobs(a0, e, d0, blobs);
    SharesBlobs(a1, e, d1, blobs);
    ImageMoves(a0, e, WantFor(0, e.want.version, e.want.revision), d0);
    ImageMoves(a1, e, WantFor(1, e.want.version, e.want.revision), d1);
    PlatformIs(e, 0, e.want.version, e.want.revision, d0);
    PlatformIs(e, 1, e.want.version, e.want.revision, d1);
    DifferentImages(a0, a1, e.want.version, e.want.revision, d0, d1);
    assert e.files.Keys == AllNames(e, d0, d1) by {
      NamesTogether(e, d0, d1, RuntimeNames(a0, DigestOf(d0)), RuntimeNames(a1, DigestOf(d1)));
    }
    RunnableAccepted(e, d0, d1);
  }

  lemma NamesTogether(e: Archive, d0: Doc, d1: Doc, names0: set<string>, names1: set<string>)
    requires names0 == Names(e, d0) + LayerNames(DocAt(e, DigestOf(d0)))
    requires names1 == Names(e, d1) + LayerNames(DocAt(e, DigestOf(d1)))
    requires e.files.Keys == names0 + names1 + {LAYOUT, INDEX_JSON, InnerName(e.codec, d0, d1)}
    ensures e.files.Keys == AllNames(e, d0, d1)
  {
    hide Names, LayerNames, InnerName;
  }

  // ---- The method -------------------------------------------------------------------------

  /** The constructor of the runnable archive behind its inventory. */
  method OpenRunnable(a: Archive) returns (r: Result<State>)
    requires a.runnable && Hashed(a.codec.hash, a.files)
    ensures r == InspectRunnable(a)
  {
    hide Inspect, Generated, Hashed;
    var walker := new Walker(a);
    var ok := walker.Check();
    if !ok {
      return Failed;
    }
    CompleteHasBoth(a);
    var generated := Generated(a.codec, walker.descriptors[0], walker.descriptors[1]);
    var pending := generated.Keys;
    while pending != {}
      invariant pending <= generated.Keys
      invariant forall name | name in generated && name !in pending ::
                  name in a.files && Head(a.files[name]) == generated[name]
      decreases |pending|
    {
      var name :| name in pending;
      if name !in a.files || Head(a.files[name]) != generated[name] {
        return Failed;
      }
      pending := pending - {name};
    }
    r := if a.files.Keys == walker.metadataNames + walker.layerNames then Ok(walker.Now()) else Failed;
  }

  lemma CompleteHasBoth(a: Archive)
    requires a.runnable && Inspect(a).Ok?
    ensures Inspect(a).value.descriptors.Keys == {0, 1}
  {
    hide WalkIndex, ReadJson;
  }
}
