/** Detached OCI evidence (scripts/release_provenance.py): the original graph is walked again over the
    runnable archive and the retained metadata. */
module OciReplay {
  import opened Results
  import opened OciArchive

  // ---- What a walk looks at ---------------------------------------------------------------

  predicate Same(a: Archive, files: map<string, Bytes>, name: string) {
    name in a.files && name in files && files[name] == a.files[name]
  }

  /** `files` has what a walk that ended in `s` looked at: the metadata it read, the layers it expanded,
      and the blobs its attestations are about. */
  predicate Keeps(a: Archive, files: map<string, Bytes>, s: State) {
    && (forall name | name in s.metadataNames :: Same(a, files, name))
    && (forall key | key in s.layers :: Same(a, files, BlobName(key.digest)))
    && (forall e | e in s.attestations :: Same(a, files, BlobName(e.subject.digest)))
  }

  predicate IsBlobName(name: string) {
    BLOB_PREFIX <= name
  }

  predicate ReadAs(a: Archive, s: State, name: string) {
    name in a.files && 0 < |a.files[name]| <= if name in s.attestationNames then MAX_ATTESTATION_JSON else MAX_JSON
  }

  /** A walk goes from `s` to `t`: it records more, and the names it adds are blobs it read. */
  predicate Before(a: Archive, s: State, t: State) {
    && s.metadataNames <= t.metadataNames && s.layers.Keys <= t.layers.Keys
    && (forall e | e in s.attestations :: e in t.attestations)
    && s.attestationNames <= t.attestationNames
    && (forall name | name in t.metadataNames :: name in s.metadataNames || (IsBlobName(name) && ReadAs(a, t, name)))
  }

  lemma KeepsBefore(a: Archive, files: map<string, Bytes>, s: State, t: State)
    requires Keeps(a, files, t) && Before(a, s, t)
    ensures Keeps(a, files, s)
  {
    hide Same;
  }

  lemma BeforeAll(a: Archive, s: State, t: State, u: State)
    requires Before(a, s, t) && Before(a, t, u)
    ensures Before(a, s, u)
  {
  }

  // ---- Every part of the walk depends on these files alone --------------------------------

  lemma AllowedIsLocal(a: Archive, files: map<string, Bytes>, descriptor: Json, types: set<string>)
    requires descriptor.Obj? && Same(a, files, BlobName(DigestOf(descriptor.fields)))
    ensures BlobAllowed(a, descriptor, types) <==> BlobAllowed(a.(files := files), descriptor, types)
  {
  }

  lemma ReadIsLocal(a: Archive, files: map<string, Bytes>, s: State, descriptor: Json, types: set<string>)
    requires ReadBlob(a, s, descriptor, types).Ok?
    requires Keeps(a, files, ReadBlob(a, s, descriptor, types).value.s)
    ensures ReadBlob(a.(files := files), s, descriptor, types) == ReadBlob(a, s, descriptor, types)
  {
    hide BlobAllowed;
    BlobHasFields(a, descriptor, types);
    assert BlobName(DigestOf(descriptor.fields)) in ReadBlob(a, s, descriptor, types).value.s.metadataNames;
    AllowedIsLocal(a, files, descriptor, types);
  }

  lemma {:induction false} LayersGrow(a: Archive, s: State, layers: seq<Json>, ids: seq<Json>)
    requires |layers| == |ids| && CheckLayers(a, s, layers, ids).Ok?
    ensures var t := CheckLayers(a, s, layers, ids).value;
      && Before(a, s, t) && t.metadataNames == s.metadataNames && t.attestations == s.attestations
         && t.images == s.images
      && t.attestationNames == s.attestationNames && t.leaves == s.leaves && t.visited == s.visited
      && (forall layer | layer in layers :: LayerKeyOf(FieldsOf(layer)) in t.layers)
      && (forall key | key in t.layers ::
            key in s.layers || exists layer | layer in layers :: key == LayerKeyOf(FieldsOf(layer)))
    decreases |layers|
  {
    if layers != [] {
      LayersGrow(a, CheckLayer(a, s, FieldsOf(layers[0]), ids[0]).value, layers[1..], ids[1..]);
      assert layers == [layers[0]] + layers[1..];
    }
  }

  lemma CheckLayerIsLocal(a: Archive, files: map<string, Bytes>, s: State, layer: Doc, expected: Json)
    requires Same(a, files, BlobName(DigestOf(layer)))
    ensures CheckLayer(a.(files := files), s, layer, expected) == CheckLayer(a, s, layer, expected)
  {
  }

  lemma {:induction false} LayersAreLocal(a: Archive, files: map<string, Bytes>, s: State, layers: seq<Json>,
                                          ids: seq<Json>)
    requires |layers| == |ids|
    requires forall layer | layer in layers :: Same(a, files, BlobName(DigestOf(FieldsOf(layer))))
    ensures CheckLayers(a.(files := files), s, layers, ids) == CheckLayers(a, s, layers, ids)
    decreases |layers|
  {
    hide CheckLayer, Same;
    if layers != [] {
      assert layers[0] in layers;
      CheckLayerIsLocal(a, files, s, FieldsOf(layers[0]), ids[0]);
      if CheckLayer(a, s, FieldsOf(layers[0]), ids[0]).Ok? {
        LayersAreLocal(a, files, CheckLayer(a, s, FieldsOf(layers[0]), ids[0]).value, layers[1..], ids[1..]);
      }
    }
  }

  lemma LayersAllowedAreLocal(a: Archive, files: map<string, Bytes>, want: Want, d: Doc, data: Doc, details: Doc)
    requires forall layer | layer in LayersOf(data) :: Same(a, files, BlobName(DigestOf(FieldsOf(layer))))
    requires ImageAllowed(a, want, d, data, details)
    ensures ImageAllowed(a.(files := files), want, d, data, details)
  {
    hide SamePlatform, Labelled, Rooted, BlobAllowed;
    forall layer | layer in LayersOf(data) ensures BlobAllowed(a.(files := files), layer, LAYER_TYPES) {
      assert BlobAllowed(a, layer, LAYER_TYPES);
      BlobHasFields(a, layer, LAYER_TYPES);
      AllowedIsLocal(a, files, layer, LAYER_TYPES);
    }
  }

  lemma ImageGrows(a: Archive, want: Want, s: State, d: Doc, data: Doc)
    requires CheckImage(a, want, s, d, data).Ok?
    ensures var t := CheckImage(a, want, s, d, data).value;
      && Before(a, s, t) && t.images == s.images + [Image(KeyOf(d), DigestOf(FieldsOf(Get(data, "config"))))]
      && (forall layer | layer in LayersOf(data) :: LayerKeyOf(FieldsOf(layer)) in t.layers)
      && (forall key | key in t.layers ::
            key in s.layers || exists layer | layer in LayersOf(data) :: key == LayerKeyOf(FieldsOf(layer)))
      && t.leaves == s.leaves && t.visited == s.visited
  {
    hide ImageAllowed, CheckLayers, BlobAllowed;
    var read := ReadBlob(a, s, Get(data, "config"), {CONFIG}).value;
    LayersAllowed(a, want, d, data, read.doc);
    LayersGrow(a, read.s, LayersOf(data), DiffIds(read.doc));
  }

  lemma ImageIsLocal(a: Archive, files: map<string, Bytes>, want: Want, s: State, d: Doc, data: Doc)
    requires CheckImage(a, want, s, d, data).Ok? && Keeps(a, files, CheckImage(a, want, s, d, data).value)
    ensures CheckImage(a.(files := files), want, s, d, data) == CheckImage(a, want, s, d, data)
  {
    hide ImageAllowed, CheckLayers, ReadBlob, Same;
    var t := CheckImage(a, want, s, d, data).value;
    var read := ReadBlob(a, s, Get(data, "config"), {CONFIG}).value;
    ImageGrows(a, want, s, d, data);
    LayersAllowed(a, want, d, data, read.doc);
    LayersGrow(a, read.s, LayersOf(data), DiffIds(read.doc));
    KeepsBefore(a, files, read.s, t);
    ReadIsLocal(a, files, s, Get(data, "config"), {CONFIG});
    forall layer | layer in LayersOf(data) ensures Same(a, files, BlobName(DigestOf(FieldsOf(layer)))) {
      assert LayerKeyOf(FieldsOf(layer)) in t.layers;
    }
    LayersAllowedAreLocal(a, files, want, d, data, read.doc);
    LayersAreLocal(a, files, read.s, LayersOf(data), DiffIds(read.doc));
  }

  // ---- Attestations -----------------------------------------------------------------------

  lemma {:induction false} StatementsGrow(a: Archive, s: State, layers: seq<Json>, subject: Key, types: set<string>)
    requires ReadStatements(a, s, layers, subject, types).Ok?
    ensures var t := ReadStatements(a, s, layers, subject, types).value.s;
      Before(a, s, t) && t.images == s.images && t.leaves == s.leaves && t.visited == s.visited && t.layers == s.layers
    decreases |layers|
  {
    hide BlobAllowed, StatementAllowed;
    if layers != [] {
      var next := ReadStatement(a, s, layers[0], subject, types).value;
      StatementsGrow(a, next.s, layers[1..], subject, next.types);
    }
  }

  lemma StatementIsLocal(a: Archive, files: map<string, Bytes>, s: State, layer: Json, subject: Key, types: set<string>)
    requires ReadStatement(a, s, layer, subject, types).Ok?
    requires Keeps(a, files, ReadStatement(a, s, layer, subject, types).value.s)
    ensures ReadStatement(a.(files := files), s, layer, subject, types) == ReadStatement(a, s, layer, subject, types)
    ensures Before(a, s, ReadStatement(a, s, layer, subject, types).value.s)
  {
    hide BlobAllowed, StatementAllowed;
    BlobHasFields(a, layer, {IN_TOTO});
    assert BlobName(DigestOf(layer.fields)) in ReadStatement(a, s, layer, subject, types).value.s.metadataNames;
    AllowedIsLocal(a, files, layer, {IN_TOTO});
  }

  lemma {:induction false} StatementsAreLocal(a: Archive, files: map<string, Bytes>, s: State, layers: seq<Json>,
                                              subject: Key, types: set<string>)
    requires ReadStatements(a, s, layers, subject, types).Ok?
    requires Keeps(a, files, ReadStatements(a, s, layers, subject, types).value.s)
    ensures ReadStatements(a.(files := files), s, layers, subject, types)
            == ReadStatements(a, s, layers, subject, types)
    decreases |layers|
  {
    hide ReadStatement, Keeps, Before;
    if layers != [] {
      var next := ReadStatement(a, s, layers[0], subject, types).value;
      StatementsGrow(a, next.s, layers[1..], subject, next.types);
      KeepsBefore(a, files, next.s, ReadStatements(a, s, layers, subject, types).value.s);
      StatementIsLocal(a, files, s, layers[0], subject, types);
      StatementsAreLocal(a, files, next.s, layers[1..], subject, next.types);
    }
  }

  function SubjectOf(a: Archive, d: Doc, data: Doc, details: Doc): Result<Key> {
    if IsTyped(data) then TypedSubject(a, d, data, details) else LegacySubject(a, d, data, details)
  }

  /** The parts of an accepted attestation. */
  lemma AttestationParts(a: Archive, s: State, d: Doc, data: Doc)
    requires CheckAttestation(a, s, d, data).Ok?
    ensures var config := if IsTyped(data) then {EMPTY_CONFIG} else {CONFIG};
      && ReadBlob(a, s, Get(data, "config"), config).Ok?
      && var read := ReadBlob(a, s, Get(data, "config"), config).value;
         && SubjectOf(a, d, data, read.doc).Ok?
         && var subject := SubjectOf(a, d, data, read.doc).value;
            && ReadStatements(a, read.s, LayersOf(data), subject, {}).Ok?
            && var end := ReadStatements(a, read.s, LayersOf(data), subject, {}).value;
               CheckAttestation(a, s, d, data).value
               == end.s.(attestations := end.s.attestations + [Evidence(DigestOf(d), subject, end.types)])
  {
    hide ReadBlob, ReadStatements, TypedSubject, LegacySubject, EvidencePlatform;
  }

  lemma AttestationGrows(a: Archive, s: State, d: Doc, data: Doc)
    requires CheckAttestation(a, s, d, data).Ok?
    ensures var t := CheckAttestation(a, s, d, data).value;
      Before(a, s, t) && t.images == s.images && t.leaves == s.leaves && t.visited == s.visited && t.layers == s.layers
  {
    hide ReadStatements, SubjectOf, CheckAttestation, BlobAllowed;
    AttestationParts(a, s, d, data);
    var config := if IsTyped(data) then {EMPTY_CONFIG} else {CONFIG};
    var read := ReadBlob(a, s, Get(data, "config"), config).value;
    StatementsGrow(a, read.s, LayersOf(data), SubjectOf(a, d, data, read.doc).value, {});
  }

  /** An attestation is checked alike where its parts are. */
  lemma AttestationFrom(a: Archive, files: map<string, Bytes>, s: State, d: Doc, data: Doc, read: Read, subject: Key,
                        end: Statements)
    requires CheckAttestation(a, s, d, data).Ok?
    requires var config := if IsTyped(data) then {EMPTY_CONFIG} else {CONFIG};
      && ReadBlob(a, s, Get(data, "config"), config) == Ok(read)
      && ReadBlob(a.(files := files), s, Get(data, "config"), config) == Ok(read)
    requires SubjectOf(a, d, data, read.doc) == Ok(subject)
             && SubjectOf(a.(files := files), d, data, read.doc) == Ok(subject)
    requires ReadStatements(a, read.s, LayersOf(data), subject, {}) == Ok(end)
    requires ReadStatements(a.(files := files), read.s, LayersOf(data), subject, {}) == Ok(end)
    ensures CheckAttestation(a.(files := files), s, d, data) == CheckAttestation(a, s, d, data)
  {
    hide ReadBlob, ReadStatements, TypedSubject, LegacySubject, EvidencePlatform;
  }

  /** The subject is a blob that is kept. */
  lemma SubjectIsLocal(a: Archive, files: map<string, Bytes>, d: Doc, data: Doc, details: Doc)
    requires SubjectOf(a, d, data, details).Ok? && Same(a, files, BlobName(SubjectOf(a, d, data, details).value.digest))
    ensures SubjectOf(a.(files := files), d, data, details) == SubjectOf(a, d, data, details)
  {
    hide EvidencePlatform, SubjectPlatform;
  }

  lemma AttestationIsLocal(a: Archive, files: map<string, Bytes>, s: State, d: Doc, data: Doc)
    requires CheckAttestation(a, s, d, data).Ok? && Keeps(a, files, CheckAttestation(a, s, d, data).value)
    ensures CheckAttestation(a.(files := files), s, d, data) == CheckAttestation(a, s, d, data)
  {
    hide ReadStatements, SubjectOf, CheckAttestation, BlobAllowed, Same, ReadBlob;
    var config := if IsTyped(data) then {EMPTY_CONFIG} else {CONFIG};
    AttestationParts(a, s, d, data);
    var read := ReadBlob(a, s, Get(data, "config"), config).value;
    var subject := SubjectOf(a, d, data, read.doc).value;
    var end := ReadStatements(a, read.s, LayersOf(data), subject, {}).value;
    var t := CheckAttestation(a, s, d, data).value;
    StatementsGrow(a, read.s, LayersOf(data), subject, {});
    assert t.attestations[|end.s.attestations|] in t.attestations;
    SubjectIsLocal(a, files, d, data, read.doc);
    KeepsBefore(a, files, end.s, t);
    StatementsAreLocal(a, files, read.s, LayersOf(data), subject, {});
    KeepsBefore(a, files, read.s, end.s);
    ReadIsLocal(a, files, s, Get(data, "config"), config);
    AttestationFrom(a, files, s, d, data, read, subject, end);
  }

  // ---- The whole walk ---------------------------------------------------------------------

  /** The names a runnable image needs: its manifest, its config and its layers. */
  function RuntimeNames(a: Archive, digest: string): set<string> {
    if BlobName(digest) in a.files && a.codec.decode(a.files[BlobName(digest)]).Ok? then
      var data := a.codec.decode(a.files[BlobName(digest)]).value;
      {BlobName(digest), BlobName(DigestOf(FieldsOf(Get(data, "config"))))}
      + set layer | layer in LayersOf(data) :: BlobName(DigestOf(FieldsOf(layer)))
    else {}
  }

  predicate ManifestRead(a: Archive, digest: string) {
    && BlobName(digest) in a.files && |a.files[BlobName(digest)]| <= MAX_JSON
    && a.codec.decode(a.files[BlobName(digest)]).Ok?
  }

  /** Every expanded layer belongs to an image, and every image has its own leaf and a manifest that was read. */
  predicate Accounted(a: Archive, s: State) {
    && (forall key | key in s.layers ::
          exists image | image in s.images :: BlobName(key.digest) in RuntimeNames(a, image.descriptor.digest))
    && (forall image | image in s.images ::
          RuntimeNames(a, image.descriptor.digest) <= a.files.Keys && ManifestRead(a, image.descriptor.digest)
          && BlobName(image.descriptor.digest) in s.metadataNames
          && exists leaf | leaf in s.leaves :: KeyOf(leaf) == image.descriptor)
    && (forall i, j | 0 <= i < j < |s.leaves| :: DigestOf(s.leaves[i]) != DigestOf(s.leaves[j]))
    && s.visited <= MAX_VISITED
  }

  lemma AccountedLayer(a: Archive, s: State, key: LayerKey) returns (image: Image)
    requires Accounted(a, s) && key in s.layers
    ensures image in s.images && BlobName(key.digest) in RuntimeNames(a, image.descriptor.digest)
  {
    image :| image in s.images && BlobName(key.digest) in RuntimeNames(a, image.descriptor.digest);
  }

  /** One more image with its leaf. */
  lemma OneMoreAccounted(a: Archive, s: State, t: State, d: Doc, image: Image)
    requires Accounted(a, s) && Before(a, s, t) && NewLeaf(s.leaves, d) && t.leaves == s.leaves
             && t.visited == s.visited
    requires t.images == s.images + [image] && image.descriptor == KeyOf(d)
    requires BlobName(DigestOf(d)) in s.metadataNames && ManifestRead(a, DigestOf(d))
    requires RuntimeNames(a, DigestOf(d)) <= a.files.Keys
    requires forall key | key in t.layers :: key in s.layers || BlobName(key.digest) in RuntimeNames(a, DigestOf(d))
    ensures Accounted(a, t.(leaves := t.leaves + [d]))
  {
    hide RuntimeNames;
    var next := t.(leaves := t.leaves + [d]);
    forall key | key in next.layers
      ensures exists im | im in next.images :: BlobName(key.digest) in RuntimeNames(a, im.descriptor.digest) {
      if key in s.layers {
        var im := AccountedLayer(a, s, key);
        assert im in next.images;
      } else {
        assert image in next.images;
      }
    }
    forall im | im in next.images
      ensures RuntimeNames(a, im.descriptor.digest) <= a.files.Keys && ManifestRead(a, im.descriptor.digest)
      ensures BlobName(im.descriptor.digest) in next.metadataNames
      ensures exists leaf | leaf in next.leaves :: KeyOf(leaf) == im.descriptor {
      if im in s.images {
        var leaf :| leaf in s.leaves && KeyOf(leaf) == im.descriptor;
        assert leaf in next.leaves;
      } else {
        assert d in next.leaves;
      }
    }
  }

  /** The names of an accepted image are files, and its layers are among them. */
  lemma ImageNames(a: Archive, want: Want, s: State, d: Doc, data: Doc)
    requires CheckImage(a, want, s, d, data).Ok?
    requires BlobName(DigestOf(d)) in a.files && a.codec.decode(a.files[BlobName(DigestOf(d))]) == Ok(data)
    ensures RuntimeNames(a, DigestOf(d)) <= a.files.Keys
    ensures forall layer | layer in LayersOf(data) ::
              BlobName(LayerKeyOf(FieldsOf(layer)).digest) in RuntimeNames(a, DigestOf(d))
  {
    hide CheckLayers, SamePlatform, Labelled, Rooted, BlobAllowed;
    BlobHasFields(a, Get(data, "config"), {CONFIG});
    forall layer | layer in LayersOf(data) ensures BlobName(DigestOf(FieldsOf(layer))) in a.files {
      assert BlobAllowed(a, layer, LAYER_TYPES);
      BlobHasFields(a, layer, LAYER_TYPES);
    }
  }

  lemma ImageLeafAccounted(a: Archive, want: Want, s: State, d: Doc, data: Doc)
    requires Accounted(a, s) && CheckImage(a, want, s, d, data).Ok? && NewLeaf(s.leaves, d)
    requires BlobName(DigestOf(d)) in s.metadataNames && ManifestRead(a, DigestOf(d))
    requires a.codec.decode(a.files[BlobName(DigestOf(d))]) == Ok(data)
    ensures var t := CheckImage(a, want, s, d, data).value;
      Accounted(a, t.(leaves := t.leaves + [d]))
  {
    hide CheckImage, RuntimeNames, Accounted;
    ImageGrows(a, want, s, d, data);
    ImageNames(a, want, s, d, data);
    OneMoreAccounted(a, s, CheckImage(a, want, s, d, data).value, d,
                     Image(KeyOf(d), DigestOf(FieldsOf(Get(data, "config")))));
  }

  lemma EvidenceLeafAccounted(a: Archive, s: State, d: Doc, data: Doc)
    requires Accounted(a, s) && CheckAttestation(a, s, d, data).Ok? && NewLeaf(s.leaves, d)
    ensures var t := CheckAttestation(a, s, d, data).value;
      Accounted(a, t.(leaves := t.leaves + [d]))
  {
    var t := CheckAttestation(a, s, d, data).value;
    var next := t.(leaves := t.leaves + [d]);
    AttestationGrows(a, s, d, data);
    hide CheckAttestation, RuntimeNames;
    forall im | im in next.images
      ensures BlobName(im.descriptor.digest) in next.metadataNames
      ensures exists leaf | leaf in next.leaves :: KeyOf(leaf) == im.descriptor {
      var leaf :| leaf in s.leaves && KeyOf(leaf) == im.descriptor;
      assert leaf in next.leaves;
    }
  }

  /** What a runnable archive records besides changes nothing of this. */
  lemma AccountedBesides(a: Archive, s: State, descriptors: map<nat, Doc>, layerNames: set<string>)
    requires Accounted(a, s)
    ensures Accounted(a, s.(descriptors := descriptors, layerNames := layerNames))
  {
    hide RuntimeNames;
  }

  lemma RunnableLeafGrows(a: Archive, s: State, d: Doc, data: Doc)
    requires CheckRunnable(a, s, d, data).Ok?
    requires BlobName(DigestOf(d)) in s.metadataNames && ManifestRead(a, DigestOf(d))
    requires a.codec.decode(a.files[BlobName(DigestOf(d))]) == Ok(data)
    ensures var t := CheckRunnable(a, s, d, data).value;
      && Before(a, s, t) && t.leaves == s.leaves
      && (Accounted(a, s) && NewLeaf(s.leaves, d) ==> Accounted(a, t.(leaves := t.leaves + [d])))
  {
    hide CheckImage, Accounted, RuntimeNames;
    var want := WantFor(PlatformOf(d).value, a.want.version, a.want.revision);
    var t := CheckImage(a, want, s, d, data).value;
    ImageGrows(a, want, s, d, data);
    if Accounted(a, s) && NewLeaf(s.leaves, d) {
      ImageLeafAccounted(a, want, s, d, data);
      var r := CheckRunnable(a, s, d, data).value;
      AccountedBesides(a, t.(leaves := t.leaves + [d]), r.descriptors, r.layerNames);
    }
  }

  lemma LeafGrows(a: Archive, s: State, d: Doc, data: Doc)
    requires Leaf(a, s, d, data).Ok?
    requires BlobName(DigestOf(d)) in s.metadataNames && ManifestRead(a, DigestOf(d))
    requires a.codec.decode(a.files[BlobName(DigestOf(d))]) == Ok(data)
    ensures Before(a, s, Leaf(a, s, d, data).value)
    ensures Accounted(a, s) ==> Accounted(a, Leaf(a, s, d, data).value)
  {
    hide CheckImage, CheckRunnable, CheckAttestation, Accounted, AnnotationsAllowed, IsAttestation, IsPlainImage;
    if IsAttestation(d, data) {
      AttestationGrows(a, s, d, data);
      if Accounted(a, s) {
        EvidenceLeafAccounted(a, s, d, data);
      }
    } else if a.runnable {
      RunnableLeafGrows(a, s, d, data);
    } else {
      ImageGrows(a, a.want, s, d, data);
      if Accounted(a, s) {
        ImageLeafAccounted(a, a.want, s, d, data);
      }
    }
  }

  lemma RunnableIsLocal(a: Archive, files: map<string, Bytes>, s: State, d: Doc, data: Doc)
    requires CheckRunnable(a, s, d, data).Ok? && Keeps(a, files, CheckRunnable(a, s, d, data).value)
    ensures CheckRunnable(a.(files := files), s, d, data) == CheckRunnable(a, s, d, data)
  {
    hide CheckImage, Same;
    var want := WantFor(PlatformOf(d).value, a.want.version, a.want.revision);
    assert Keeps(a, files, CheckImage(a, want, s, d, data).value);
    ImageIsLocal(a, files, want, s, d, data);
  }

  lemma LeafIsLocal(a: Archive, files: map<string, Bytes>, s: State, d: Doc, data: Doc)
    requires Leaf(a, s, d, data).Ok? && Keeps(a, files, Leaf(a, s, d, data).value)
    ensures Leaf(a.(files := files), s, d, data) == Leaf(a, s, d, data)
  {
    hide CheckImage, CheckRunnable, CheckAttestation, AnnotationsAllowed, IsAttestation, IsPlainImage, NewLeaf, Same;
    if IsAttestation(d, data) {
      AttestationIsLocal(a, files, s, d, data);
    } else if a.runnable {
      RunnableIsLocal(a, files, s, d, data);
    } else {
      ImageIsLocal(a, files, a.want, s, d, data);
    }
  }

  /** What an accepted visit has read. */
  lemma VisitReads(a: Archive, s: State, descriptor: Json, depth: nat)
    requires Walk(a, s, descriptor, depth).Ok?
    ensures var visit := s.(visited := s.visited + 1);
      && s.visited < MAX_VISITED && depth <= MAX_DEPTH && descriptor.Obj?
      && ReadBlob(a, visit, descriptor, {INDEX, MANIFEST}).Ok?
      && var read := ReadBlob(a, visit, descriptor, {INDEX, MANIFEST}).value;
         var name := BlobName(DigestOf(descriptor.fields));
         && Before(a, s, read.s) && name in read.s.metadataNames && ManifestRead(a, DigestOf(descriptor.fields))
         && a.codec.decode(a.files[name]) == Ok(read.doc)
         && (Accounted(a, s) ==> Accounted(a, read.s))
         && Walk(a, s, descriptor, depth) ==
            if MediaOf(descriptor.fields) == INDEX then WalkIndex(a, read.s, read.doc, depth + 1)
            else Leaf(a, read.s, descriptor.fields, read.doc)
  {
    hide WalkIndex, Leaf, RuntimeNames, BlobAllowed;
    BlobHasFields(a, descriptor, {INDEX, MANIFEST});
  }

  lemma {:induction false} WalkGrows(a: Archive, s: State, descriptor: Json, depth: nat)
    requires Walk(a, s, descriptor, depth).Ok?
    ensures Before(a, s, Walk(a, s, descriptor, depth).value)
    ensures Accounted(a, s) ==> Accounted(a, Walk(a, s, descriptor, depth).value)
    decreases Room(depth), 0, 0
  {
    hide Walk, Leaf, Accounted, ReadBlob, Before;
    VisitReads(a, s, descriptor, depth);
    var read := ReadBlob(a, s.(visited := s.visited + 1), descriptor, {INDEX, MANIFEST}).value;
    if MediaOf(descriptor.fields) == INDEX {
      WalkAllGrows(a, read.s, Get(read.doc, "manifests").items, depth + 1);
    } else {
      LeafGrows(a, read.s, descriptor.fields, read.doc);
    }
    BeforeAll(a, s, read.s, Walk(a, s, descriptor, depth).value);
  }

  lemma {:induction false} WalkAllGrows(a: Archive, s: State, children: seq<Json>, depth: nat)
    requires WalkAll(a, s, children, depth).Ok?
    ensures Before(a, s, WalkAll(a, s, children, depth).value)
    ensures Accounted(a, s) ==> Accounted(a, WalkAll(a, s, children, depth).value)
    decreases Room(depth), 1, |children|
  {
    hide Walk, Accounted;
    if children != [] {
      WalkGrows(a, s, children[0], depth);
      var next := Walk(a, s, children[0], depth).value;
      WalkAllGrows(a, next, children[1..], depth);
      BeforeAll(a, s, next, WalkAll(a, s, children, depth).value);
    }
  }

  /** A visit sees the same over any files that have what it looks at. */
  lemma {:induction false} WalkIsLocal(a: Archive, files: map<string, Bytes>, s: State, descriptor: Json, depth: nat)
    requires Walk(a, s, descriptor, depth).Ok? && Keeps(a, files, Walk(a, s, descriptor, depth).value)
    ensures Walk(a.(files := files), s, descriptor, depth) == Walk(a, s, descriptor, depth)
    decreases Room(depth), 0, 0
  {
    hide Walk, WalkIndex, Leaf, Accounted, ReadBlob, Before, Keeps;
    var visit := s.(visited := s.visited + 1);
    VisitReads(a, s, descriptor, depth);
    var read := ReadBlob(a, visit, descriptor, {INDEX, MANIFEST}).value;
    var t := Walk(a, s, descriptor, depth).value;
    if MediaOf(descriptor.fields) == INDEX {
      IndexWalked(a, read.s, read.doc, depth + 1);
      WalkAllGrows(a, read.s, Get(read.doc, "manifests").items, depth + 1);
      WalkAllIsLocal(a, files, read.s, Get(read.doc, "manifests").items, depth + 1);
      IndexWalks(a.(files := files), read.s, read.doc, depth + 1);
    } else {
      LeafGrows(a, read.s, descriptor.fields, read.doc);
      LeafIsLocal(a, files, read.s, descriptor.fields, read.doc);
    }
    KeepsBefore(a, files, read.s, t);
    ReadIsLocal(a, files, visit, descriptor, {INDEX, MANIFEST});
    VisitFrom(a, files, s, descriptor, depth);
  }

  lemma IndexWalked(a: Archive, s: State, data: Doc, depth: nat)
    requires WalkIndex(a, s, data, depth).Ok?
    ensures IndexAllowed(data) && WalkIndex(a, s, data, depth) == WalkAll(a, s, Get(data, "manifests").items, depth)
  {
    hide WalkAll, IndexAllowed;
  }

  lemma IndexWalks(a: Archive, s: State, data: Doc, depth: nat)
    requires IndexAllowed(data)
    ensures WalkIndex(a, s, data, depth) == WalkAll(a, s, Get(data, "manifests").items, depth)
  {
    hide WalkAll, IndexAllowed;
  }

  /** A visit goes on alike where it reads alike. */
  lemma VisitFrom(a: Archive, files: map<string, Bytes>, s: State, descriptor: Json, depth: nat)
    requires Walk(a, s, descriptor, depth).Ok?
    requires var visit := s.(visited := s.visited + 1);
      ReadBlob(a.(files := files), visit, descriptor, {INDEX, MANIFEST})
        == ReadBlob(a, visit, descriptor, {INDEX, MANIFEST})
    requires ReadBlob(a, s.(visited := s.visited + 1), descriptor, {INDEX, MANIFEST}).Ok? ==>
               var read := ReadBlob(a, s.(visited := s.visited + 1), descriptor, {INDEX, MANIFEST}).value;
               var d := FieldsOf(descriptor);
               if MediaOf(d) == INDEX
               then WalkIndex(a.(files := files), read.s, read.doc, depth + 1)
                 == WalkIndex(a, read.s, read.doc, depth + 1)
               else Leaf(a.(files := files), read.s, d, read.doc) == Leaf(a, read.s, d, read.doc)
    ensures Walk(a.(files := files), s, descriptor, depth) == Walk(a, s, descriptor, depth)
  {
    hide WalkIndex, Leaf, ReadBlob, Versioned;
  }

  lemma {:induction false} WalkAllIsLocal(a: Archive, files: map<string, Bytes>, s: State, children: seq<Json>,
                                          depth: nat)
    requires WalkAll(a, s, children, depth).Ok? && Keeps(a, files, WalkAll(a, s, children, depth).value)
    ensures WalkAll(a.(files := files), s, children, depth) == WalkAll(a, s, children, depth)
    decreases Room(depth), 1, |children|
  {
    hide Walk, Accounted, Keeps, Before;
    if children != [] {
      WalkGrows(a, s, children[0], depth);
      var next := Walk(a, s, children[0], depth).value;
      WalkAllGrows(a, next, children[1..], depth);
      KeepsBefore(a, files, next, WalkAll(a, s, children, depth).value);
      WalkIsLocal(a, files, s, children[0], depth);
      WalkAllIsLocal(a, files, next, children[1..], depth);
    }
  }

  // ---- Whole archives ---------------------------------------------------------------------

  predicate SeesTop(a: Archive, layout: Read, root: Read, s: State) {
    && ReadJson(a, FRESH, LAYOUT, MAX_JSON) == Ok(layout) && Get(layout.doc, "imageLayoutVersion") == Str("1.0.0")
    && ReadJson(a, layout.s, INDEX_JSON, MAX_JSON) == Ok(root)
    && IndexAllowed(root.doc) && WalkAll(a, root.s, Get(root.doc, "manifests").items, 0) == Ok(s) && Complete(a, s)
  }

  lemma InspectParts(a: Archive) returns (layout: Read, root: Read)
    requires Inspect(a).Ok?
    ensures SeesTop(a, layout, root, Inspect(a).value)
  {
    hide WalkAll, Readable;
    layout := ReadJson(a, FRESH, LAYOUT, MAX_JSON).value;
    root := ReadJson(a, layout.s, INDEX_JSON, MAX_JSON).value;
  }

  lemma InspectFrom(a: Archive, layout: Read, root: Read, s: State)
    requires SeesTop(a, layout, root, s)
    ensures Inspect(a) == Ok(s)
  {
    hide WalkAll, ReadJson, IndexAllowed;
  }

  /** An accepted archive: one image with its own leaf, every layer from its manifest, limits kept. */
  lemma InspectAccounts(a: Archive)
    requires Inspect(a).Ok?
    ensures var s := Inspect(a).value;
      && Accounted(a, s) && Complete(a, s) && LAYOUT in s.metadataNames && INDEX_JSON in s.metadataNames
      && forall name | name in s.metadataNames ::
           (IsBlobName(name) || name in {LAYOUT, INDEX_JSON}) && ReadAs(a, s, name)
  {
    hide WalkAll, Inspect, RuntimeNames;
    var layout, root := InspectParts(a);
    assert Accounted(a, root.s);
    WalkAllGrows(a, root.s, Get(root.doc, "manifests").items, 0);
  }

  /** The locality of the whole check: any files that have what it looked at pass it in the same state. */
  lemma InspectIsLocal(a: Archive, files: map<string, Bytes>)
    requires Inspect(a).Ok? && Keeps(a, files, Inspect(a).value)
    ensures Inspect(a.(files := files)) == Inspect(a)
  {
    hide WalkAll, Inspect, Readable, Before, Keeps;
    var layout, root := InspectParts(a);
    var s := Inspect(a).value;
    var e := a.(files := files);
    WalkAllGrows(a, root.s, Get(root.doc, "manifests").items, 0);
    KeepsBefore(a, files, root.s, s);
    TopIsRead(a, files, layout, root);
    WalkAllIsLocal(a, files, root.s, Get(root.doc, "manifests").items, 0);
    InspectFrom(e, layout, root, s);
  }

  lemma TopIsRead(a: Archive, files: map<string, Bytes>, layout: Read, root: Read)
    requires ReadJson(a, FRESH, LAYOUT, MAX_JSON) == Ok(layout)
             && ReadJson(a, layout.s, INDEX_JSON, MAX_JSON) == Ok(root)
    requires Keeps(a, files, root.s)
    ensures ReadJson(a.(files := files), FRESH, LAYOUT, MAX_JSON) == Ok(layout)
    ensures ReadJson(a.(files := files), layout.s, INDEX_JSON, MAX_JSON) == Ok(root)
  {
    assert LAYOUT in root.s.metadataNames && INDEX_JSON in root.s.metadataNames;
  }

  // ---- Content addressing -----------------------------------------------------------------

  /** The inventory: every blob is named by its hash. */
  predicate Hashed(hash: Bytes -> string, files: map<string, Bytes>) {
    forall name | name in files && IsBlobName(name) :: name == BLOB_PREFIX + hash(files[name])
  }

  ghost predicate Injective(hash: Bytes -> string) {
    forall x, y :: hash(x) == hash(y) ==> x == y
  }

  lemma SameName(hash: Bytes -> string, a: map<string, Bytes>, b: map<string, Bytes>, name: string)
    requires Injective(hash) && Hashed(hash, a) && Hashed(hash, b) && IsBlobName(name) && name in a && name in b
    ensures a[name] == b[name]
  {
    assert (BLOB_PREFIX + hash(a[name]))[|BLOB_PREFIX|..] == hash(a[name]);
    assert (BLOB_PREFIX + hash(b[name]))[|BLOB_PREFIX|..] == hash(b[name]);
  }

  // ---- Splitting an archive ---------------------------------------------------------------

  function BlobsNamed(a: Archive, names: set<string>): map<string, Bytes> {
    map name | name in names && IsBlobName(name) && name in a.files :: a.files[name]
  }

  /** The metadata `collect_runtime_inputs` keeps of an archive. */
  function MetadataOf(a: Archive, s: State): map<string, Bytes> {
    BlobsNamed(a, s.metadataNames)
  }

  /** `{**metadata, index, layout}` over the runnable archive. */
  function Overlaid(runtime: map<string, Bytes>, metadata: map<string, Bytes>, index: Bytes,
                    layout: Bytes): map<string, Bytes> {
    runtime + metadata[INDEX_JSON := index][LAYOUT := layout]
  }

  lemma OverlaidAt(runtime: map<string, Bytes>, metadata: map<string, Bytes>, index: Bytes, layout: Bytes, name: string)
    requires name in runtime || name in metadata
    ensures name in Overlaid(runtime, metadata, index, layout)
    ensures name != INDEX_JSON && name != LAYOUT ==>
              Overlaid(runtime, metadata, index, layout)[name]
              == if name in metadata then metadata[name] else runtime[name]
  {
  }

  // ---- Replay -----------------------------------------------------------------------------

  /** The manifest, config and layers of the runnable image of an accepted archive. */
  function RuntimeOf(a: Archive, s: State): map<string, Bytes>
    requires |s.images| == 1
  {
    map name | name in RuntimeNames(a, s.images[0].descriptor.digest) && name in a.files :: a.files[name]
  }

  predicate Retains(a: Archive, s: State, runtime: map<string, Bytes>, metadata: map<string, Bytes>)
    requires |s.images| == 1
  {
    && RuntimeOf(a, s).Keys <= runtime.Keys && MetadataOf(a, s).Keys <= metadata.Keys
    && (forall name | name in metadata :: IsBlobName(name))
    && Hashed(a.codec.hash, a.files) && Hashed(a.codec.hash, runtime) && Hashed(a.codec.hash, metadata)
  }

  /** A blob that is somewhere in the overlay is there with its content. */
  lemma BlobKept(a: Archive, s: State, runtime: map<string, Bytes>, metadata: map<string, Bytes>, index: Bytes,
                 layout: Bytes, name: string)
    requires Injective(a.codec.hash) && |s.images| == 1 && Retains(a, s, runtime, metadata)
    requires IsBlobName(name) && name in a.files && (name in runtime || name in metadata)
    ensures Same(a, Overlaid(runtime, metadata, index, layout), name)
  {
    assert name[0] == 'b' && INDEX_JSON[0] == 'i' && LAYOUT[0] == 'o';
    OverlaidAt(runtime, metadata, index, layout, name);
    if name in metadata {
      SameName(a.codec.hash, metadata, a.files, name);
    } else {
      SameName(a.codec.hash, runtime, a.files, name);
    }
  }

  /** Every name the walk of the original archive looks at is retained. */
  lemma LookedAtIsKept(a: Archive, s: State, runtime: map<string, Bytes>, metadata: map<string, Bytes>)
    requires Injective(a.codec.hash) && Inspect(a) == Ok(s) && |s.images| == 1 && Retains(a, s, runtime, metadata)
    ensures LAYOUT in a.files && INDEX_JSON in a.files
    ensures Keeps(a, Overlaid(runtime, metadata, a.files[INDEX_JSON], a.files[LAYOUT]), s)
  {
    hide Inspect, Same, RuntimeNames, Hashed, Overlaid;
    InspectAccounts(a);
    var files := Overlaid(runtime, metadata, a.files[INDEX_JSON], a.files[LAYOUT]);
    TopKept(a, runtime, metadata, a.files[INDEX_JSON], a.files[LAYOUT]);
    forall name | name in s.metadataNames ensures Same(a, files, name) {
      if IsBlobName(name) {
        assert name in MetadataOf(a, s);
        BlobKept(a, s, runtime, metadata, a.files[INDEX_JSON], a.files[LAYOUT], name);
      }
    }
    forall key | key in s.layers ensures Same(a, files, BlobName(key.digest)) {
      var image := AccountedLayer(a, s, key);
      assert BlobName(key.digest) in RuntimeOf(a, s);
      BlobKept(a, s, runtime, metadata, a.files[INDEX_JSON], a.files[LAYOUT], BlobName(key.digest));
    }
  }

  lemma TopKept(a: Archive, runtime: map<string, Bytes>, metadata: map<string, Bytes>, index: Bytes, layout: Bytes)
    requires LAYOUT in a.files && INDEX_JSON in a.files && a.files[INDEX_JSON] == index && a.files[LAYOUT] == layout
    ensures Same(a, Overlaid(runtime, metadata, index, layout), INDEX_JSON)
    ensures Same(a, Overlaid(runtime, metadata, index, layout), LAYOUT)
  {
    assert INDEX_JSON[0] != LAYOUT[0];
  }

  /** Replay: over the runnable archive and the retained metadata the original graph is accepted in the
      very state of the original walk, with the same manifests, image and attestations. */
  lemma ReplayIsSame(a: Archive, runtime: map<string, Bytes>, metadata: map<string, Bytes>)
    requires Injective(a.codec.hash) && Inspect(a).Ok? && |Inspect(a).value.images| == 1
    requires Retains(a, Inspect(a).value, runtime, metadata)
    ensures LAYOUT in a.files && INDEX_JSON in a.files
    ensures Inspect(a.(files := Overlaid(runtime, metadata, a.files[INDEX_JSON], a.files[LAYOUT]))) == Inspect(a)
  {
    hide Inspect, Retains;
    LookedAtIsKept(a, Inspect(a).value, runtime, metadata);
    InspectIsLocal(a, Overlaid(runtime, metadata, a.files[INDEX_JSON], a.files[LAYOUT]));
  }
}
