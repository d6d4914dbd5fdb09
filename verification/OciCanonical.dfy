/** Runnable archives (scripts/release_provenance.py) from outside: whatever passes the check is two images under
    canonical metadata, and nothing else. */
module OciCanonical {
  import opened Results
  import opened OciArchive
  import opened OciReplay
  import opened OciRuntime

  // ---- What a runnable walk records -------------------------------------------------------

  /** Only manifests are recorded as images. */
  predicate RecordsManifests(s: State) {
    forall i | i in s.descriptors :: MediaOf(s.descriptors[i]) != INDEX
  }

  lemma LeafRecords(a: Archive, s: State, d: Doc, data: Doc)
    requires a.runnable && RecordsManifests(s) && Leaf(a, s, d, data).Ok? && MediaOf(d) != INDEX
    ensures RecordsManifests(Leaf(a, s, d, data).value)
  {
    hide CheckImage, AnnotationsAllowed, IsAttestation, IsPlainImage, PlatformOf, NewLeaf;
    var want := WantFor(PlatformOf(d).value, a.want.version, a.want.revision);
    ImageKeeps(a, want, s, d, data);
  }

  /** An image leaves the records of a runnable archive to its caller. */
  lemma ImageKeeps(a: Archive, want: Want, s: State, d: Doc, data: Doc)
    requires CheckImage(a, want, s, d, data).Ok?
    ensures CheckImage(a, want, s, d, data).value.descriptors == s.descriptors
    ensures CheckImage(a, want, s, d, data).value.layerNames == s.layerNames
  {
    hide ImageAllowed, CheckLayers, BlobAllowed;
    var read := ReadBlob(a, s, Get(data, "config"), {CONFIG}).value;
    LayersAllowed(a, want, d, data, read.doc);
    LayersKeep(a, read.s, LayersOf(data), DiffIds(read.doc));
  }

  lemma {:induction false} LayersKeep(a: Archive, s: State, layers: seq<Json>, ids: seq<Json>)
    requires |layers| == |ids| && CheckLayers(a, s, layers, ids).Ok?
    ensures CheckLayers(a, s, layers, ids).value.descriptors == s.descriptors
    ensures CheckLayers(a, s, layers, ids).value.layerNames == s.layerNames
    decreases |layers|
  {
    if layers != [] {
      LayersKeep(a, CheckLayer(a, s, FieldsOf(layers[0]), ids[0]).value, layers[1..], ids[1..]);
    }
  }

  lemma {:induction false} WalkRecords(a: Archive, s: State, descriptor: Json, depth: nat)
    requires a.runnable && RecordsManifests(s) && Walk(a, s, descriptor, depth).Ok?
    ensures RecordsManifests(Walk(a, s, descriptor, depth).value)
    decreases Room(depth), 0, 0
  {
    hide Walk, Leaf, ReadBlob;
    VisitReads(a, s, descriptor, depth);
    var read := ReadBlob(a, s.(visited := s.visited + 1), descriptor, {INDEX, MANIFEST}).value;
    ReadKeeps(a, s.(visited := s.visited + 1), descriptor);
    if MediaOf(descriptor.fields) == INDEX {
      IndexWalked(a, read.s, read.doc, depth + 1);
      WalkAllRecords(a, read.s, Get(read.doc, "manifests").items, depth + 1);
    } else {
      LeafRecords(a, read.s, descriptor.fields, read.doc);
    }
  }

  lemma ReadKeeps(a: Archive, s: State, descriptor: Json)
    requires ReadBlob(a, s, descriptor, {INDEX, MANIFEST}).Ok?
    ensures var t := ReadBlob(a, s, descriptor, {INDEX, MANIFEST}).value.s;
      t == s.(metadataBytes := t.metadataBytes,
              metadataNames := s.metadataNames + {BlobName(DigestOf(FieldsOf(descriptor)))})
  {
    hide BlobAllowed;
    BlobHasFields(a, descriptor, {INDEX, MANIFEST});
  }

  lemma {:induction false} WalkAllRecords(a: Archive, s: State, children: seq<Json>, depth: nat)
    requires a.runnable && RecordsManifests(s) && WalkAll(a, s, children, depth).Ok?
    ensures RecordsManifests(WalkAll(a, s, children, depth).value)
    decreases Room(depth), 1, |children|
  {
    hide Walk, RecordsManifests;
    if children != [] {
      WalkRecords(a, s, children[0], depth);
      WalkAllRecords(a, Walk(a, s, children[0], depth).value, children[1..], depth);
    }
  }

  // ---- One image --------------------------------------------------------------------------

  /** What the accepted visit of one image has taken. */
  predicate Takes(a: Archive, s: State, t: State, d: Doc, i: nat) {
    && PlatformOf(d) == Some(i) && ImageFine(a, WantFor(i, a.want.version, a.want.revision), d)
    && i !in s.descriptors && NewLeaf(s.leaves, d) && t.leaves == s.leaves + [d]
    && t.descriptors == s.descriptors[i := d]
    && t.layerNames == s.layerNames + LayerNames(DocAt(a, DigestOf(d)))
    && t.metadataNames == s.metadataNames + Names(a, d)
    && t.rootfsBytes == s.rootfsBytes + ImageBytes(a, DigestOf(d)) && t.rootfsBytes <= MAX_ROOTFS_BYTES
    && CacheFine(a, t)
  }

  lemma ManifestVisit(a: Archive, s: State, d: Doc)
    requires a.runnable && MediaOf(d) != INDEX && Walk(a, s, Obj(d), 1).Ok?
    ensures var read := ReadBlob(a, s.(visited := s.visited + 1), Obj(d), {INDEX, MANIFEST});
      && read.Ok? && ManifestFine(a, d) && read.value.doc == DocAt(a, DigestOf(d))
      && CheckRunnable(a, read.value.s, d, read.value.doc).Ok?
      && var next := CheckRunnable(a, read.value.s, d, read.value.doc).value;
         NewLeaf(next.leaves, d) && Walk(a, s, Obj(d), 1).value == next.(leaves := next.leaves + [d])
  {
    hide CheckRunnable, AnnotationsAllowed, IsAttestation, IsPlainImage, Versioned, NewLeaf, WalkIndex;
    BlobHasFields(a, Obj(d), {INDEX, MANIFEST});
  }

  lemma ImageVisit(a: Archive, s: State, d: Doc) returns (i: nat)
    requires a.runnable && CacheFine(a, s) && s.rootfsBytes <= MAX_ROOTFS_BYTES && MediaOf(d) != INDEX
    requires Walk(a, s, Obj(d), 1).Ok?
    ensures Takes(a, s, Walk(a, s, Obj(d), 1).value, d, i)
  {
    hide Walk, CheckImage, CacheFine, ManifestFine, ImageFine, ImageBytes, ReadBlob, NewLeaf, PlatformOf, LayerNames,
         DocAt;
    ManifestVisit(a, s, d);
    var visit := s.(visited := s.visited + 1);
    var read := ReadBlob(a, visit, Obj(d), {INDEX, MANIFEST}).value;
    ReadKeeps(a, visit, Obj(d));
    i := PlatformOf(d).value;
    var want := WantFor(i, a.want.version, a.want.revision);
    CacheStays(a, s, read.s);
    ImageSound(a, want, read.s, d);
    ImageKeeps(a, want, read.s, d, read.doc);
    ConfigRecorded(a, want, read.s, d);
    CacheStays(a, CheckImage(a, want, read.s, d, read.doc).value, Walk(a, s, Obj(d), 1).value);
  }

  lemma ConfigRecorded(a: Archive, want: Want, s: State, d: Doc)
    requires CheckImage(a, want, s, d, DocAt(a, DigestOf(d))).Ok?
    ensures CheckImage(a, want, s, d, DocAt(a, DigestOf(d))).value.metadataNames
         == s.metadataNames + {BlobName(DigestOf(ConfigOf(DocAt(a, DigestOf(d)))))}
  {
    hide ImageAllowed, CheckLayers, BlobAllowed, DocAt, Readable;
    var data := DocAt(a, DigestOf(d));
    var read := ReadBlob(a, s, Get(data, "config"), {CONFIG}).value;
    ConfigRead(a, s, Get(data, "config"));
    LayersAllowed(a, want, d, data, read.doc);
    LayersGrow(a, read.s, LayersOf(data), DiffIds(read.doc));
  }

  // ---- The whole archive ------------------------------------------------------------------

  /** A file that was read as structural metadata is compared in full. */
  lemma ComparedInFull(a: Archive, s: State, d0: Doc, d1: Doc, name: string)
    requires IsCanonical(a, s) && s.descriptors == map[0 := d0, 1 := d1] && name in Generated(a.codec, d0, d1)
    requires name in a.files && |a.files[name]| <= MAX_JSON
    ensures a.files[name] == Generated(a.codec, d0, d1)[name]
  {
    hide Generated;
  }

  /** What the walk saw on top is the canonical root, so it went on with the canonical inner index. */
  lemma TopIsCanonical(a: Archive, d0: Doc, d1: Doc) returns (s: State)
    requires Inspect(a).Ok? && IsCanonical(a, Inspect(a).value) && EncodesMetadata(a.codec, d0, d1)
    requires Inspect(a).value.descriptors == map[0 := d0, 1 := d1]
    ensures Untouched(s) && s.visited == 0 && s.metadataBytes <= 2 * MAX_JSON
    ensures s.metadataNames == {LAYOUT, INDEX_JSON} && LAYOUT in a.files && INDEX_JSON in a.files
    ensures a.files[LAYOUT] == a.codec.encode(LAYOUT_DOC)
    ensures a.files[INDEX_JSON] == a.codec.encode(Root(a.codec, d0, d1))
    ensures Walk(a, s, Obj(InnerDescriptor(a.codec, d0, d1)), 0) == Ok(Inspect(a).value)
  {
    hide WalkAll, Walk, Root, Inner, InnerDescriptor, IsCanonical;
    var layout, root := InspectParts(a);
    s := root.s;
    NamesApart(a.codec, d0, d1);
    ComparedInFull(a, Inspect(a).value, d0, d1, LAYOUT);
    ComparedInFull(a, Inspect(a).value, d0, d1, INDEX_JSON);
    assert root.doc == Root(a.codec, d0, d1);
    RootWalks(a, root.s, d0, d1);
  }

  lemma InnerIsSmall(a: Archive, s: State, t: State, d0: Doc, d1: Doc)
    requires EncodesMetadata(a.codec, d0, d1) && Walk(a, s, Obj(InnerDescriptor(a.codec, d0, d1)), 0) == Ok(t)
    ensures InnerName(a.codec, d0, d1) in a.files && |a.files[InnerName(a.codec, d0, d1)]| <= MAX_JSON
  {
    hide Walk, WalkIndex, Leaf, Inner, BlobAllowed, Before;
    var d := InnerDescriptor(a.codec, d0, d1);
    VisitReads(a, s, Obj(d), 0);
    var hash := a.codec.hash(a.codec.encode(Inner(d0, d1)));
    assert (DIGEST_PREFIX + hash)[7..] == hash;
  }

  /** The inner index is canonical too, and the walk went on with its two images. */
  lemma InnerIsCanonical(a: Archive, s: State, t: State, d0: Doc, d1: Doc) returns (u: State)
    requires EncodesMetadata(a.codec, d0, d1) && IsCanonical(a, t) && t.descriptors == map[0 := d0, 1 := d1]
    requires Untouched(s) && s.visited == 0 && s.metadataBytes <= 2 * MAX_JSON
    requires LAYOUT in a.files && INDEX_JSON in a.files && a.files[LAYOUT] == a.codec.encode(LAYOUT_DOC)
    requires a.files[INDEX_JSON] == a.codec.encode(Root(a.codec, d0, d1))
    requires Walk(a, s, Obj(InnerDescriptor(a.codec, d0, d1)), 0) == Ok(t)
    ensures HasGenerated(a, d0, d1) && Untouched(u)
    ensures u.metadataNames == s.metadataNames + {InnerName(a.codec, d0, d1)}
    ensures WalkAll(a, u, [Obj(d0), Obj(d1)], 1) == Ok(t)
  {
    hide Walk, WalkAll, Leaf, Root, Inner, InnerDescriptor, IsCanonical, BlobAllowed, Before, EncodesMetadata, ReadBlob;
    InnerIsSmall(a, s, t, d0, d1);
    ComparedInFull(a, t, d0, d1, InnerName(a.codec, d0, d1));
    NamesApart(a.codec, d0, d1);
    var d, visit := InnerDescriptor(a.codec, d0, d1), s.(visited := s.visited + 1);
    InnerIsIndex(a, d0, d1);
    InnerRead(a, visit, d0, d1);
    VisitReads(a, s, Obj(d), 0);
    u := ReadBlob(a, visit, Obj(d), {INDEX, MANIFEST}).value.s;
  }

  lemma NothingCached(a: Archive, s: State)
    requires s.layers == map[]
    ensures CacheFine(a, s)
  {
  }

  /** Two visits that end with a record of two images have taken one image for each platform. */
  lemma TwoImages(a: Archive, u: State, t: State, d0: Doc, d1: Doc)
    requires a.runnable && Untouched(u) && WalkAll(a, u, [Obj(d0), Obj(d1)], 1) == Ok(t)
    requires t.descriptors == map[0 := d0, 1 := d1]
    ensures BothFine(a, d0, d1)
    ensures t.metadataNames == u.metadataNames + Names(a, d0) + Names(a, d1)
    ensures t.layerNames == LayerNames(DocAt(a, DigestOf(d0))) + LayerNames(DocAt(a, DigestOf(d1)))
    ensures BothBytes(a, d0, d1) <= MAX_ROOTFS_BYTES
  {
    hide Walk, ImageFine, CacheFine, PlatformOf, Names, LayerNames, DocAt, DigestOf, MediaOf, ImageBytes;
    var children := [Obj(d0), Obj(d1)];
    assert children[1..] == [Obj(d1)] && [Obj(d1)][1..] == [];
    var m := Walk(a, u, Obj(d0), 1).value;
    assert Walk(a, m, Obj(d1), 1) == Ok(t) by {
      assert WalkAll(a, u, children, 1) == WalkAll(a, m, [Obj(d1)], 1);
      assert WalkAll(a, Walk(a, m, Obj(d1), 1).value, [], 1) == Walk(a, m, Obj(d1), 1);
    }
    WalkAllRecords(a, u, children, 1);
    assert MediaOf(t.descriptors[0]) != INDEX && MediaOf(t.descriptors[1]) != INDEX;
    NothingCached(a, u);
    var i := ImageVisit(a, u, d0);
    var j := ImageVisit(a, m, d1);
    assert m.leaves == [d0];
    assert t.descriptors == map[i := d0][j := d1];
    assert i in t.descriptors && j in t.descriptors;
  }

  /** What a runnable archive with these two images has to be. */
  predicate IsRunnable(a: Archive, d0: Doc, d1: Doc) {
    && a.runnable && Hashed(a.codec.hash, a.files) && a.files.Keys == AllNames(a, d0, d1)
    && HasGenerated(a, d0, d1) && BothFine(a, d0, d1) && RunnableFits(a.codec, d0, d1, BothBytes(a, d0, d1))
  }

  lemma AcceptedIsRunnable(a: Archive, d0: Doc, d1: Doc)
    requires EncodesMetadata(a.codec, d0, d1)
    requires InspectRunnable(a).Ok? && InspectRunnable(a).value.descriptors == map[0 := d0, 1 := d1]
    ensures IsRunnable(a, d0, d1)
  {
    hide Inspect, Walk, WalkAll, Root, Inner, InnerDescriptor, IsCanonical, EncodesMetadata, BothFine, HasGenerated,
         Names, LayerNames, BothBytes, Hashed, InnerName, DocAt, DigestOf;
    var t := Inspect(a).value;
    var s := TopIsCanonical(a, d0, d1);
    var u := InnerIsCanonical(a, s, t, d0, d1);
    TwoImages(a, u, t, d0, d1);
    NamesTaken(a, d0, d1, t);
    RunnableInspected(a, d0, d1);
  }

  lemma NamesTaken(a: Archive, d0: Doc, d1: Doc, t: State)
    requires t.metadataNames == {LAYOUT, INDEX_JSON} + {InnerName(a.codec, d0, d1)} + Names(a, d0) + Names(a, d1)
    requires t.layerNames == LayerNames(DocAt(a, DigestOf(d0))) + LayerNames(DocAt(a, DigestOf(d1)))
    ensures t.metadataNames + t.layerNames == AllNames(a, d0, d1)
  {
    hide InnerName, Names, LayerNames;
  }

  /** The check of a runnable archive accepts exactly the canonical archives of two fine images within the limits. */
  lemma AcceptsRunnable(a: Archive, d0: Doc, d1: Doc)
    requires EncodesMetadata(a.codec, d0, d1)
    ensures IsRunnable(a, d0, d1) <==>
            InspectRunnable(a).Ok? && InspectRunnable(a).value.descriptors == map[0 := d0, 1 := d1]
  {
    hide BothFine, HasGenerated, BothBytes, EncodesMetadata, AllNames, Hashed, InspectRunnable, RunnableFits;
    if IsRunnable(a, d0, d1) {
      RunnableAccepted(a, d0, d1);
    } else if InspectRunnable(a).Ok? && InspectRunnable(a).value.descriptors == map[0 := d0, 1 := d1] {
      AcceptedIsRunnable(a, d0, d1);
    }
  }
}
