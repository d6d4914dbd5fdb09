/** Sidecars (scripts/release_provenance.py): collecting the evidence of two native archives, and verifying
    it together with the runnable archive written from them. */
module OciEvidence {
  import opened Results
  import opened OciArchive
  import opened OciReplay
  import opened OciRuntime
  import OciGraph

  const PLATFORMS := ["linux/amd64", "linux/arm64"]
  const MAX_BLOBS := 4096

  /** An archive that passed its checks, and what they recorded. */
  datatype Checked = Checked(a: Archive, s: State)

  predicate IsChecked(c: Checked) {
    !c.a.runnable && Inspect(c.a) == Ok(c.s) && |c.s.images| == 1 && Hashed(c.a.codec.hash, c.a.files)
  }

  predicate HasProvenance(s: State) {
    exists e | e in s.attestations :: e.predicateTypes * PROVENANCE_TYPES != {}
  }

  function ImageName(c: Checked): string
    requires |c.s.images| == 1
  {
    BlobName(c.s.images[0].descriptor.digest)
  }

  // ---- Collecting -------------------------------------------------------------------------

  datatype Original = Original(index: Bytes, layout: Bytes)

  datatype Collected = Collected(descriptors: seq<Doc>, runtime: map<string, Bytes>, metadata: map<string, Bytes>,
                                 originals: seq<Original>)

  /** An archive is refused only without provenance, or when reading the manifest again leaves the budget. */
  predicate Collectable(c: Checked)
    requires |c.s.images| == 1
  {
    HasProvenance(c.s) && ImageName(c) in c.a.files && c.s.metadataBytes + |c.a.files[ImageName(c)]| <= MAX_JSON_TOTAL
  }

  function AllMetadata(archives: seq<Checked>): map<string, Bytes> {
    if archives == [] then map[]
    else AllMetadata(archives[..|archives| - 1]) + MetadataOf(archives[|archives| - 1].a, archives[|archives| - 1].s)
  }

  function AllRuntime(archives: seq<Checked>): map<string, Bytes>
    requires forall c | c in archives :: |c.s.images| == 1
  {
    if archives == [] then map[]
    else AllRuntime(archives[..|archives| - 1]) + RuntimeOf(archives[|archives| - 1].a, archives[|archives| - 1].s)
  }

  function OriginalOf(c: Checked): Original
    requires LAYOUT in c.a.files && INDEX_JSON in c.a.files
  {
    Original(c.a.files[INDEX_JSON], c.a.files[LAYOUT])
  }

  /** The archive has what an original input consists of. */
  predicate Sourced(c: Checked) {
    |c.s.images| == 1 && LAYOUT in c.a.files && INDEX_JSON in c.a.files
  }

  /** The leaf of the image: the first with its digest, and the only one. */
  lemma ImageLeaf(c: Checked)
    requires IsChecked(c)
    ensures exists leaf | leaf in c.s.leaves :: DigestOf(leaf) == c.s.images[0].descriptor.digest
    ensures forall leaf | leaf in c.s.leaves && DigestOf(leaf) == c.s.images[0].descriptor.digest ::
              KeyOf(leaf) == c.s.images[0].descriptor
    ensures ManifestRead(c.a, c.s.images[0].descriptor.digest) && ImageName(c) in c.a.files && Sourced(c)
  {
    hide Inspect;
    InspectAccounts(c.a);
    var image := c.s.images[0];
    var own :| own in c.s.leaves && KeyOf(own) == image.descriptor;
    forall leaf | leaf in c.s.leaves && DigestOf(leaf) == image.descriptor.digest ensures leaf == own {
      assert own in c.s.leaves && leaf in c.s.leaves;
      var i :| 0 <= i < |c.s.leaves| && c.s.leaves[i] == leaf;
      var j :| 0 <= j < |c.s.leaves| && c.s.leaves[j] == own;
    }
  }

  /** The descriptor of the image is this leaf. */
  predicate IsLeaf(c: Checked, leaf: Doc)
    requires |c.s.images| == 1
  {
    leaf in c.s.leaves && DigestOf(leaf) == c.s.images[0].descriptor.digest
  }

  /** It passed every check of an image, and its root filesystem is the one that was counted. */
  lemma LeafIsFine(c: Checked, leaf: Doc)
    requires IsChecked(c) && IsLeaf(c, leaf)
    ensures ImageFine(c.a, c.a.want, leaf) && KeyOf(leaf) == c.s.images[0].descriptor
    ensures c.s.rootfsBytes == ImageBytes(c.a, DigestOf(leaf)) && RuntimeNames(c.a, DigestOf(leaf)) <= c.a.files.Keys
  {
    hide Inspect, ImageFine, ImageBytes, CacheFine, RuntimeNames, Hashed;
    ImageLeaf(c);
    InspectAccounts(c.a);
    InspectSound(c.a);
    var image := c.s.images[0];
    assert image in c.s.images && HasFineLeaf(c.a, c.s.leaves, image);
    var fine :| fine in c.s.leaves && KeyOf(fine) == image.descriptor && ImageFine(c.a, c.a.want, fine);
    var i :| 0 <= i < |c.s.leaves| && c.s.leaves[i] == leaf;
    var j :| 0 <= j < |c.s.leaves| && c.s.leaves[j] == fine;
    assert c.s.images[..0] == [];
    assert ImagesBytes(c.a, c.s.images) == ImagesBytes(c.a, c.s.images[..0]) + ImageBytes(c.a, image.descriptor.digest);
  }

  predicate Agree(a: map<string, Bytes>, b: map<string, Bytes>) {
    forall name | name in a && name in b :: a[name] == b[name]
  }

  lemma BlobsGrow(a: Archive, names: set<string>, name: string, metadata: map<string, Bytes>)
    requires Agree(metadata, BlobsNamed(a, names))
    requires IsBlobName(name) ==> name in a.files
    ensures IsBlobName(name) ==>
              (Agree(metadata, BlobsNamed(a, names + {name})) <==>
               (name in metadata + BlobsNamed(a, names) ==> (metadata + BlobsNamed(a, names))[name] == a.files[name]))
    ensures IsBlobName(name) ==>
              metadata + BlobsNamed(a, names + {name}) == (metadata + BlobsNamed(a, names))[name := a.files[name]]
    ensures !IsBlobName(name) ==> BlobsNamed(a, names + {name}) == BlobsNamed(a, names)
  {
  }

  lemma AgreeSome(a: Archive, names: set<string>, more: set<string>, metadata: map<string, Bytes>)
    requires names <= more && Agree(metadata, BlobsNamed(a, more))
    ensures Agree(metadata, BlobsNamed(a, names))
  {
    forall name | name in metadata && name in BlobsNamed(a, names)
      ensures metadata[name] == BlobsNamed(a, names)[name] {
      assert name in BlobsNamed(a, more);
    }
  }

  /** The metadata loop for one archive. */
  method CollectMetadata(c: Checked, metadata: map<string, Bytes>) returns (r: Result<map<string, Bytes>>)
    requires IsChecked(c)
    ensures r.Ok? <==> Agree(metadata, MetadataOf(c.a, c.s))
    ensures r.Ok? ==> r.value == metadata + MetadataOf(c.a, c.s)
  {
    hide Inspect, Hashed, Accounted, BlobsNamed, Agree;
    InspectAccounts(c.a);
    var kept := metadata;
    var pending := c.s.metadataNames;
    ghost var done: set<string> := {};
    NothingNamed(c.a, metadata);
    while pending != {}
      invariant pending + done == c.s.metadataNames
      invariant kept == metadata + BlobsNamed(c.a, done) && Agree(metadata, BlobsNamed(c.a, done))
      decreases |pending|
    {
      var name :| name in pending;
      pending := pending - {name};
      BlobsGrow(c.a, done, name, metadata);
      if IsBlobName(name) {
        var raw := c.a.files[name];
        if name in kept && kept[name] != raw {
          if Agree(metadata, MetadataOf(c.a, c.s)) {
            AgreeSome(c.a, done + {name}, c.s.metadataNames, metadata);
          }
          return Failed;
        }
        kept := kept[name := raw];
      }
      done := done + {name};
    }
    assert done == c.s.metadataNames;
    r := Ok(kept);
  }

  lemma NothingNamed(a: Archive, metadata: map<string, Bytes>)
    ensures metadata + BlobsNamed(a, {}) == metadata && Agree(metadata, BlobsNamed(a, {}))
  {
  }

  lemma HashedParts(c: Checked)
    requires IsChecked(c)
    ensures Hashed(c.a.codec.hash, MetadataOf(c.a, c.s)) && Hashed(c.a.codec.hash, RuntimeOf(c.a, c.s))
    ensures forall name | name in MetadataOf(c.a, c.s) :: IsBlobName(name)
  {
    hide Inspect, RuntimeNames;
  }

  lemma {:induction false} AllHashed(codec: Codec, archives: seq<Checked>)
    requires forall c | c in archives :: |c.s.images| == 1 && IsChecked(c) && c.a.codec == codec
    ensures Hashed(codec.hash, AllMetadata(archives)) && Hashed(codec.hash, AllRuntime(archives))
    ensures forall name | name in AllMetadata(archives) :: IsBlobName(name)
    ensures forall c | c in archives ::
              && MetadataOf(c.a, c.s).Keys <= AllMetadata(archives).Keys
              && RuntimeOf(c.a, c.s).Keys <= AllRuntime(archives).Keys
    decreases |archives|
  {
    hide IsChecked, MetadataOf, RuntimeOf;
    if archives != [] {
      AllHashed(codec, archives[..|archives| - 1]);
      HashedParts(archives[|archives| - 1]);
    }
  }

  lemma HashedAgree(hash: Bytes -> string, a: map<string, Bytes>, b: map<string, Bytes>)
    requires Injective(hash) && Hashed(hash, a) && Hashed(hash, b) && forall name | name in a :: IsBlobName(name)
    ensures Agree(a, b)
  {
    hide Injective, Hashed;
    forall name | name in a && name in b ensures a[name] == b[name] {
      SameName(hash, a, b, name);
    }
  }

  /** What is collected of some archives. */
  ghost predicate Gathered(archives: seq<Checked>, all: Collected) {
    && (forall c | c in archives :: Sourced(c))
    && all.metadata == AllMetadata(archives) && all.runtime == AllRuntime(archives)
    && |all.descriptors| == |all.originals| == |archives|
    && forall i | 0 <= i < |archives| ::
         IsLeaf(archives[i], all.descriptors[i]) && all.originals[i] == OriginalOf(archives[i])
  }

  lemma GatherMore(archives: seq<Checked>, all: Collected, c: Checked, leaf: Doc, next: Collected)
    requires Gathered(archives, all) && Sourced(c) && IsLeaf(c, leaf)
    requires next == Collected(all.descriptors + [leaf], all.runtime + RuntimeOf(c.a, c.s),
                               all.metadata + MetadataOf(c.a, c.s), all.originals + [OriginalOf(c)])
    ensures Gathered(archives + [c], next)
  {
    hide MetadataOf, RuntimeOf;
    assert (archives + [c])[..|archives|] == archives;
  }

  /** Archives of one toolchain never conflict. */
  lemma NeverConflicts(codec: Codec, archives: seq<Checked>, all: Collected, c: Checked)
    requires Injective(codec.hash) && Gathered(archives, all) && IsChecked(c) && c.a.codec == codec
    requires forall x | x in archives :: IsChecked(x) && x.a.codec == codec
    ensures Agree(all.metadata, MetadataOf(c.a, c.s))
  {
    hide MetadataOf, RuntimeOf, Hashed, Injective, Agree, Inspect;
    AllHashed(codec, archives);
    HashedParts(c);
    HashedAgree(codec.hash, all.metadata, MetadataOf(c.a, c.s));
  }

  /** `collect_runtime_inputs`: it fails exactly when an archive has no provenance or leaves the
      metadata budget; otherwise it has every archive's metadata and runnable blobs. */
  method CollectRuntimeInputs(codec: Codec, archives: seq<Checked>) returns (r: Result<Collected>)
    requires Injective(codec.hash) && forall c | c in archives :: IsChecked(c) && c.a.codec == codec
    ensures r.Ok? <==> forall c | c in archives ::
              && |c.s.images| == 1 && HasProvenance(c.s) && ImageName(c) in c.a.files
              && c.s.metadataBytes + |c.a.files[ImageName(c)]| <= 32_000_000
    ensures r.Ok? ==> Gathered(archives, r.value)
  {
    hide IsChecked, Injective, MetadataOf, RuntimeOf, Agree, HasProvenance, Gathered;
    var all := Collected([], map[], map[], []);
    StartGathering();
    var i := 0;
    while i < |archives|
      invariant i <= |archives|
      invariant forall k | 0 <= k < i :: |archives[k].s.images| == 1 && Collectable(archives[k])
      invariant Gathered(archives[..i], all)
    {
      var c := archives[i];
      assert c in archives && archives[..i + 1] == archives[..i] + [c];
      ImageLeaf(c);
      if !HasProvenance(c.s) || c.s.metadataBytes + |c.a.files[ImageName(c)]| > MAX_JSON_TOTAL {
        return Failed;
      }
      var leaf :| leaf in c.s.leaves && DigestOf(leaf) == c.s.images[0].descriptor.digest;
      NeverConflicts(codec, archives[..i], all, c);
      var metadata := CollectMetadata(c, all.metadata);
      var next := Collected(all.descriptors + [leaf], all.runtime + RuntimeOf(c.a, c.s), metadata.value,
                            all.originals + [OriginalOf(c)]);
      GatherMore(archives[..i], all, c, leaf, next);
      all := next;
      i := i + 1;
    }
    assert archives[..i] == archives;
    r := Ok(all);
  }

  lemma StartGathering()
    ensures Gathered([], Collected([], map[], map[], []))
  {
  }

  // ---- Verifying --------------------------------------------------------------------------

  datatype Encoded = Encoded(digest: string, raw: Bytes)

  datatype Input = Input(platform: string, index: Bytes, layout: Bytes)

  /** A file by its SHA-256 and size. */
  datatype FileId = FileId(digest: string, size: nat)

  /** What a sidecar says it belongs to: source, frozen plan, runnable archive and its inner index. */
  datatype Header = Header(source: string, planDigest: string, image: string, imageId: FileId, index: string)

  datatype Sidecar = Sidecar(header: Header, blobs: seq<Encoded>, inputs: seq<Input>)

  /** The two files of a pair, the plan they were made for, and the authenticated inventory, if there is one. */
  datatype Pair = Pair(image: string, imageId: FileId, sidecar: string, sidecarId: FileId, planDigest: string,
                       inventory: Option<map<string, FileId>>)

  predicate Listed(p: Pair) {
    p.inventory.Some? ==>
      var files := p.inventory.value;
      p.image in files && p.sidecar in files && files[p.image] == p.imageId && files[p.sidecar] == p.sidecarId
  }

  /** A runnable archive that passed its check: its files, and the descriptor of each platform. */
  datatype Runtime = Runtime(files: map<string, Bytes>, descriptors: map<nat, Doc>)

  function Opened(codec: Codec, files: map<string, Bytes>, version: string, revision: string): Result<Runtime> {
    match InspectRunnable(Archive(codec, files, WantFor(0, version, revision), true))
    case Failed => Failed
    case Ok(s) => Ok(Runtime(files, s.descriptors))
  }

  function Decoded(blobs: seq<Encoded>): map<string, Bytes> {
    if blobs == [] then map[]
    else Decoded(blobs[..|blobs| - 1])[BLOB_PREFIX + blobs[|blobs| - 1].digest := blobs[|blobs| - 1].raw]
  }

  function TotalBytes(blobs: seq<Encoded>): nat {
    if blobs == [] then 0 else TotalBytes(blobs[..|blobs| - 1]) + |blobs[|blobs| - 1].raw|
  }

  predicate BlobFits(codec: Codec, b: Encoded) {
    IsHash(b.digest) && 0 < |b.raw| <= MAX_ATTESTATION_JSON && codec.hash(b.raw) == b.digest
  }

  predicate InputFits(i: Input) {
    0 < |i.index| <= MAX_JSON && 0 < |i.layout| <= MAX_JSON
  }

  function InputBytes(inputs: seq<Input>): nat {
    if inputs == [] then 0
    else InputBytes(inputs[..|inputs| - 1]) + |inputs[|inputs| - 1].index| + |inputs[|inputs| - 1].layout|
  }

  function IndexDigest(codec: Codec, runtime: Runtime): string {
    if 0 in runtime.descriptors && 1 in runtime.descriptors
    then codec.hash(codec.encode(Inner(runtime.descriptors[0], runtime.descriptors[1])))
    else ""
  }

  /** The sidecar was written for this source, plan and archive. */
  predicate Belongs(codec: Codec, runtime: Runtime, header: Header, p: Pair, revision: string) {
    header == Header(revision, p.planDigest, p.image, p.imageId, IndexDigest(codec, runtime))
  }

  function Overlay(codec: Codec, runtime: Runtime, metadata: map<string, Bytes>, input: Input, want: Want): Archive {
    Archive(codec, Overlaid(runtime.files, metadata, input.index, input.layout), want, false)
  }

  /** `EvidenceArchive` for one original input. */
  function Replay(codec: Codec, runtime: Runtime, metadata: map<string, Bytes>, sc: Sidecar, i: nat, version: string,
                  revision: string): Result<State>
    requires i < |sc.inputs|
  {
    match Inspect(Overlay(codec, runtime, metadata, sc.inputs[i], WantFor(i, version, revision)))
    case Failed => Failed
    case Ok(s) =>
      if |s.images| == 1 && i in runtime.descriptors && s.images[0].descriptor == KeyOf(runtime.descriptors[i])
         && HasProvenance(s)
      then Ok(s) else Failed
  }

  /** The blobs are an object, so no digest stands twice. */
  predicate Distinct(blobs: seq<Encoded>) {
    forall i, j | 0 <= i < j < |blobs| :: blobs[i].digest != blobs[j].digest
  }

  predicate Shaped(sc: Sidecar) {
    && |sc.blobs| <= MAX_BLOBS && Distinct(sc.blobs)
    && |sc.inputs| == 2 && sc.inputs[0].platform == PLATFORMS[0] && sc.inputs[1].platform == PLATFORMS[1]
  }

  predicate Budgeted(sc: Sidecar) {
    TotalBytes(sc.blobs) + InputBytes(sc.inputs) <= MAX_JSON_TOTAL
  }

  /** Both inputs replay over the runnable archive, and they read every blob. */
  predicate Replayed(codec: Codec, runtime: Runtime, sc: Sidecar, version: string, revision: string)
    requires |sc.inputs| == 2
  {
    var metadata := Decoded(sc.blobs);
    var r0 := Replay(codec, runtime, metadata, sc, 0, version, revision);
    var r1 := Replay(codec, runtime, metadata, sc, 1, version, revision);
    r0.Ok? && r1.Ok? && metadata.Keys <= r0.value.metadataNames + r1.value.metadataNames
  }

  /** A replay reads this name. */
  predicate Reads(codec: Codec, runtime: Runtime, sc: Sidecar, i: nat, name: string, version: string,
                  revision: string) {
    && i < |sc.inputs|
    && match Replay(codec, runtime, Decoded(sc.blobs), sc, i, version, revision)
       case Failed => false
       case Ok(s) => name in s.metadataNames
  }

  /** What `verify_pair` accepts of the files of a runnable archive and a sidecar. */
  predicate PairAccepted(codec: Codec, p: Pair, files: map<string, Bytes>, sc: Sidecar, version: string,
                         revision: string) {
    && Listed(p) && Shaped(sc) && Budgeted(sc)
    && (forall b | b in sc.blobs :: BlobFits(codec, b)) && (forall i | i in sc.inputs :: InputFits(i))
    && Opened(codec, files, version, revision).Ok?
    && var runtime := Opened(codec, files, version, revision).value;
       Belongs(codec, runtime, sc.header, p, revision) && Replayed(codec, runtime, sc, version, revision)
  }

  lemma {:induction false} TotalOfPrefix(blobs: seq<Encoded>, i: nat)
    requires i <= |blobs|
    ensures TotalBytes(blobs[..i]) <= TotalBytes(blobs)
    decreases |blobs| - i
  {
    if i == |blobs| {
      assert blobs[..i] == blobs;
    } else {
      assert blobs[..i + 1][..i] == blobs[..i];
      TotalOfPrefix(blobs, i + 1);
    }
  }

  /** The sidecar's blobs, decoded within the budget. */
  method DecodeBlobs(codec: Codec, blobs: seq<Encoded>) returns (ok: bool, metadata: map<string, Bytes>, budget: nat)
    ensures ok <==> TotalBytes(blobs) <= MAX_JSON_TOTAL && forall b | b in blobs :: BlobFits(codec, b)
    ensures ok ==> metadata == Decoded(blobs) && budget == TotalBytes(blobs)
  {
    hide BlobFits;
    ok, metadata, budget := false, map[], 0;
    var i := 0;
    while i < |blobs|
      invariant i <= |blobs| && budget <= MAX_JSON_TOTAL
      invariant metadata == Decoded(blobs[..i]) && budget == TotalBytes(blobs[..i])
      invariant forall k | 0 <= k < i :: BlobFits(codec, blobs[k])
    {
      var b := blobs[i];
      assert blobs[..i + 1][..i] == blobs[..i] && b in blobs;
      TotalOfPrefix(blobs, i + 1);
      if !BlobFits(codec, b) || budget + |b.raw| > MAX_JSON_TOTAL {
        return;
      }
      budget := budget + |b.raw|;
      metadata := metadata[BLOB_PREFIX + b.digest := b.raw];
      i := i + 1;
    }
    assert blobs[..i] == blobs;
    ok := true;
  }

  /** One input: decoded within the budget and replayed. */
  method ReplayInput(codec: Codec, runtime: Runtime, metadata: map<string, Bytes>, budget: nat, sc: Sidecar, i: nat,
                     version: string, revision: string) returns (names: Result<set<string>>, spent: nat)
    requires i < |sc.inputs|
    ensures names.Ok? <==>
            && InputFits(sc.inputs[i]) && budget + |sc.inputs[i].index| + |sc.inputs[i].layout| <= MAX_JSON_TOTAL
            && Replay(codec, runtime, metadata, sc, i, version, revision).Ok?
    ensures names.Ok? ==> names == Ok(Replay(codec, runtime, metadata, sc, i, version, revision).value.metadataNames)
                          && spent == budget + |sc.inputs[i].index| + |sc.inputs[i].layout|
  {
    hide Inspect, Overlay, HasProvenance;
    var input := sc.inputs[i];
    spent := budget + |input.index| + |input.layout|;
    names := Failed;
    if !InputFits(input) || spent > MAX_JSON_TOTAL {
      return;
    }
    var walker := new Walker(Overlay(codec, runtime, metadata, input, WantFor(i, version, revision)));
    var ok := walker.Check();
    if ok && |walker.images| == 1 && i in runtime.descriptors
       && walker.images[0].descriptor == KeyOf(runtime.descriptors[i]) && HasProvenance(walker.Now()) {
      names := Ok(walker.metadataNames);
    }
  }

  lemma TwoInputs(inputs: seq<Input>)
    requires |inputs| == 2
    ensures InputBytes(inputs[..0]) == 0 && inputs[..2] == inputs
    ensures InputBytes(inputs[..1]) == |inputs[0].index| + |inputs[0].layout|
    ensures InputBytes(inputs) == InputBytes(inputs[..1]) + |inputs[1].index| + |inputs[1].layout|
    ensures forall i | i in inputs :: i == inputs[0] || i == inputs[1]
  {
    assert InputBytes(inputs) == InputBytes(inputs[..1]) + |inputs[1].index| + |inputs[1].layout|;
    assert InputBytes(inputs[..1]) == InputBytes(inputs[..1][..0]) + |inputs[0].index| + |inputs[0].layout|;
  }

  /** `verify_pair` behind the parsing of the sidecar. */
  method VerifyPair(codec: Codec, p: Pair, files: map<string, Bytes>, sc: Sidecar, version: string, revision: string)
    returns (ok: bool)
    ensures ok <==> PairAccepted(codec, p, files, sc, version, revision)
  {
    hide Replay, InputFits, BlobFits, Decoded, TotalBytes, Hashed, InspectRunnable, Distinct, IndexDigest, Listed;
    if !Listed(p) || sc.header.source != revision || sc.header.planDigest != p.planDigest {
      return false;
    }
    if |sc.blobs| > MAX_BLOBS {
      return false;
    }
    var decoded, metadata, budget := DecodeBlobs(codec, sc.blobs);
    if !decoded || !Shaped(sc) || !Hashed(codec.hash, files) {
      NotHashed(codec, files, version, revision);
      return false;
    }
    var state := OpenRunnable(Archive(codec, files, WantFor(0, version, revision), true));
    if state.Failed? {
      return false;
    }
    var runtime := Runtime(files, state.value.descriptors);
    if !Belongs(codec, runtime, sc.header, p, revision) {
      return false;
    }
    TwoInputs(sc.inputs);
    var used: set<string> := {};
    var i := 0;
    while i < 2
      invariant i <= 2 && used <= metadata.Keys
      invariant budget == TotalBytes(sc.blobs) + InputBytes(sc.inputs[..i]) && budget <= MAX_JSON_TOTAL
      invariant forall k | 0 <= k < i ::
        InputFits(sc.inputs[k]) && Replay(codec, runtime, metadata, sc, k, version, revision).Ok?
      invariant i > 0 ==>
        Replay(codec, runtime, metadata, sc, 0, version, revision).value.metadataNames * metadata.Keys <= used
      invariant i > 1 ==>
        Replay(codec, runtime, metadata, sc, 1, version, revision).value.metadataNames * metadata.Keys <= used
      invariant forall name | name in used ::
        (i > 0 && name in Replay(codec, runtime, metadata, sc, 0, version, revision).value.metadataNames)
        || (i > 1 && name in Replay(codec, runtime, metadata, sc, 1, version, revision).value.metadataNames)
    {
      assert sc.inputs[i] in sc.inputs;
      assert i == 0 || i == 1;
      var names, spent := ReplayInput(codec, runtime, metadata, budget, sc, i, version, revision);
      if names.Failed? {
        return false;
      }
      used := used + names.value * metadata.Keys;
      budget := spent;
      i := i + 1;
    }
    ok := used == metadata.Keys;
  }

  lemma NotHashed(codec: Codec, files: map<string, Bytes>, version: string, revision: string)
    ensures Opened(codec, files, version, revision).Ok? ==> Hashed(codec.hash, files)
  {
    hide Inspect, Hashed;
  }

  // ---- Main results -----------------------------------------------------------------------

  lemma {:induction false} DecodedNames(codec: Codec, blobs: seq<Encoded>)
    requires forall b | b in blobs :: codec.hash(b.raw) == b.digest
    ensures Hashed(codec.hash, Decoded(blobs)) && forall name | name in Decoded(blobs) :: IsBlobName(name)
    ensures forall b | b in blobs :: BLOB_PREFIX + b.digest in Decoded(blobs)
    decreases |blobs|
  {
    if blobs != [] {
      DecodedNames(codec, blobs[..|blobs| - 1]);
    }
  }

  lemma DecodedBlob(codec: Codec, blobs: seq<Encoded>, b: Encoded)
    requires Injective(codec.hash) && b in blobs && forall x | x in blobs :: codec.hash(x.raw) == x.digest
    ensures BLOB_PREFIX + b.digest in Decoded(blobs) && Decoded(blobs)[BLOB_PREFIX + b.digest] == b.raw
  {
    hide Injective;
    var name := BLOB_PREFIX + b.digest;
    DecodedNames(codec, blobs);
    SameName(codec.hash, Decoded(blobs), map[name := b.raw], name);
  }

  lemma CollectedSize(c: Checked, name: string)
    requires IsChecked(c) && name in MetadataOf(c.a, c.s)
    ensures 0 < |MetadataOf(c.a, c.s)[name]| <= MAX_ATTESTATION_JSON
  {
    hide Inspect, Accounted, Complete;
    InspectAccounts(c.a);
  }

  /** A blob that was collected has a size a sidecar may hold. */
  lemma CollectedFits(codec: Codec, c0: Checked, c1: Checked, all: Collected, blobs: seq<Encoded>, b: Encoded)
    requires Injective(codec.hash) && IsChecked(c0) && IsChecked(c1) && Gathered([c0, c1], all)
    requires Decoded(blobs) == all.metadata && b in blobs
    requires forall x | x in blobs :: IsHash(x.digest) && codec.hash(x.raw) == x.digest
    ensures BlobFits(codec, b)
  {
    hide IsChecked, Gathered, MetadataOf, RuntimeOf, Injective, Decoded, IsHash;
    var name := BLOB_PREFIX + b.digest;
    DecodedBlob(codec, blobs, b);
    TwoGathered(c0, c1, all);
    if name in MetadataOf(c1.a, c1.s) {
      CollectedSize(c1, name);
    } else {
      CollectedSize(c0, name);
    }
  }

  lemma TwoGathered(c0: Checked, c1: Checked, all: Collected)
    requires Gathered([c0, c1], all)
    ensures Sourced(c0) && Sourced(c1)
    ensures all.metadata == MetadataOf(c0.a, c0.s) + MetadataOf(c1.a, c1.s)
    ensures all.runtime == RuntimeOf(c0.a, c0.s) + RuntimeOf(c1.a, c1.s)
    ensures |all.descriptors| == 2 && IsLeaf(c0, all.descriptors[0]) && IsLeaf(c1, all.descriptors[1])
    ensures all.originals == [OriginalOf(c0), OriginalOf(c1)]
  {
    hide MetadataOf, RuntimeOf, OriginalOf, IsLeaf;
    var both := [c0, c1];
    assert c0 in both && c1 in both;
    assert both[..1] == [c0] && both[..1][..0] == [];
    assert AllMetadata(both) == AllMetadata(both[..1]) + MetadataOf(c1.a, c1.s);
    assert AllMetadata([c0]) == AllMetadata([c0][..0]) + MetadataOf(c0.a, c0.s);
    assert AllRuntime([c0]) == AllRuntime([c0][..0]) + RuntimeOf(c0.a, c0.s);
    assert both[0] == c0 && both[1] == c1;
  }

  /** The runnable archive and the sidecar that are written from two collected archives. */
  ghost predicate IsBuiltFrom(codec: Codec, p: Pair, all: Collected, files: map<string, Bytes>, sc: Sidecar,
                              revision: string) {
    && |all.descriptors| == 2 && EncodesMetadata(codec, all.descriptors[0], all.descriptors[1])
    && files == Written(codec, all.descriptors[0], all.descriptors[1], all.runtime)
    && Decoded(sc.blobs) == all.metadata && Distinct(sc.blobs)
    && (forall b | b in sc.blobs :: IsHash(b.digest) && codec.hash(b.raw) == b.digest)
    && |all.originals| == 2
    && sc.header == Header(revision, p.planDigest, p.image, p.imageId,
                           codec.hash(codec.encode(Inner(all.descriptors[0], all.descriptors[1]))))
    && sc.inputs == [Input(PLATFORMS[0], all.originals[0].index, all.originals[0].layout),
                     Input(PLATFORMS[1], all.originals[1].index, all.originals[1].layout)]
  }

  /** The runnable archive as its own check sees it. */
  function RuntimeOfPair(all: Collected, files: map<string, Bytes>): Runtime
    requires |all.descriptors| == 2
  {
    Runtime(files, map[0 := all.descriptors[0], 1 := all.descriptors[1]])
  }

  lemma ReplayOf(codec: Codec, p: Pair, c: Checked, all: Collected, files: map<string, Bytes>, sc: Sidecar, i: nat,
                 version: string, revision: string)
    requires Injective(codec.hash) && IsChecked(c) && c.a.codec == codec && c.a.want == WantFor(i, version, revision)
    requires IsBuiltFrom(codec, p, all, files, sc, revision) && i < 2 && Hashed(codec.hash, files)
    requires RuntimeOf(c.a, c.s).Keys <= files.Keys && MetadataOf(c.a, c.s).Keys <= all.metadata.Keys
    requires Sourced(c) && HasProvenance(c.s) && all.originals[i] == OriginalOf(c)
    requires KeyOf(all.descriptors[i]) == c.s.images[0].descriptor
    ensures Replay(codec, RuntimeOfPair(all, files), all.metadata, sc, i, version, revision) == Ok(c.s)
    ensures InputFits(sc.inputs[i])
  {
    hide Inspect, RuntimeOf, MetadataOf, Hashed, Injective, Overlaid, HasProvenance, Accounted, Complete, IsBlobName;
    hide EncodesMetadata, Written;
    DecodedNames(codec, sc.blobs);
    ReplayIsSame(c.a, files, all.metadata);
    InspectAccounts(c.a);
    TopIsSmall(c);
    assert c.a.(files := Overlaid(files, all.metadata, c.a.files[INDEX_JSON], c.a.files[LAYOUT]))
        == Overlay(codec, RuntimeOfPair(all, files), all.metadata, sc.inputs[i], c.a.want);
  }

  /** Index and layout were read within the limit of structural metadata. */
  lemma TopIsSmall(c: Checked)
    requires IsChecked(c) && Sourced(c)
    ensures 0 < |c.a.files[INDEX_JSON]| <= MAX_JSON && 0 < |c.a.files[LAYOUT]| <= MAX_JSON
  {
    hide WalkIndex, Complete, Hashed;
  }

  /** Every blob that is written is hashed, and the images' blobs are there. */
  lemma WrittenPair(codec: Codec, c0: Checked, c1: Checked, all: Collected, files: map<string, Bytes>)
    requires IsChecked(c0) && IsChecked(c1) && c0.a.codec == codec && c1.a.codec == codec
    requires all.runtime == RuntimeOf(c0.a, c0.s) + RuntimeOf(c1.a, c1.s) && |all.descriptors| == 2
    requires files == Written(codec, all.descriptors[0], all.descriptors[1], all.runtime)
    ensures Hashed(codec.hash, all.runtime) && Hashed(codec.hash, files)
    ensures RuntimeOf(c0.a, c0.s).Keys <= files.Keys && RuntimeOf(c1.a, c1.s).Keys <= files.Keys
  {
    hide Inspect, RuntimeOf, Hashed, Generated, MetadataOf;
    HashedParts(c0);
    HashedParts(c1);
    assert Hashed(codec.hash, all.runtime) by {
      HashedSum(codec.hash, RuntimeOf(c0.a, c0.s), RuntimeOf(c1.a, c1.s));
    }
    WrittenIsHashed(codec, all.descriptors[0], all.descriptors[1], all.runtime);
  }

  lemma HashedSum(hash: Bytes -> string, a: map<string, Bytes>, b: map<string, Bytes>)
    requires Hashed(hash, a) && Hashed(hash, b)
    ensures Hashed(hash, a + b)
  {
  }

  /** The runnable archive of a collected pair is accepted exactly within its own limits. */
  lemma PairOpens(codec: Codec, c0: Checked, c1: Checked, all: Collected, files: map<string, Bytes>, version: string,
                  revision: string)
    requires Injective(codec.hash) && IsChecked(c0) && IsChecked(c1) && c0.a.codec == codec && c1.a.codec == codec
    requires c0.a.want == WantFor(0, version, revision) && c1.a.want == WantFor(1, version, revision)
    requires Gathered([c0, c1], all) && |all.descriptors| == 2
    requires EncodesMetadata(codec, all.descriptors[0], all.descriptors[1])
    requires files == Written(codec, all.descriptors[0], all.descriptors[1], all.runtime)
    ensures var opens := Opened(codec, files, version, revision);
      && (opens.Ok? <==>
            RunnableFits(codec, all.descriptors[0], all.descriptors[1], c0.s.rootfsBytes + c1.s.rootfsBytes))
      && (opens.Ok? ==> opens.value == RuntimeOfPair(all, files))
  {
    hide Injective, Gathered, ImageFine, ImageBytes, EncodesMetadata, Written, Hashed, RuntimeNames, InspectRunnable,
         Inspect;
    hide RunnableFits, IsLeaf;
    var d0, d1 := all.descriptors[0], all.descriptors[1];
    TwoGathered(c0, c1, all);
    LeafIsFine(c0, d0);
    LeafIsFine(c1, d1);
    WrittenPair(codec, c0, c1, all, files);
    RuntimeKeys(c0, d0);
    RuntimeKeys(c1, d1);
    WrittenAccepted(c0.a, c1.a, d0, d1, Archive(codec, files, WantFor(0, version, revision), true), all.runtime);
  }

  lemma RuntimeKeys(c: Checked, leaf: Doc)
    requires |c.s.images| == 1 && KeyOf(leaf) == c.s.images[0].descriptor
    requires RuntimeNames(c.a, DigestOf(leaf)) <= c.a.files.Keys
    ensures RuntimeOf(c.a, c.s).Keys == RuntimeNames(c.a, DigestOf(leaf))
  {
    hide RuntimeNames;
  }

  /** A sidecar that was built has its shape; only the number of blobs is open. */
  lemma BuiltShape(codec: Codec, p: Pair, all: Collected, files: map<string, Bytes>, sc: Sidecar, revision: string)
    requires IsBuiltFrom(codec, p, all, files, sc, revision)
    ensures |all.descriptors| == 2 && EncodesMetadata(codec, all.descriptors[0], all.descriptors[1])
    ensures files == Written(codec, all.descriptors[0], all.descriptors[1], all.runtime)
    ensures |sc.inputs| == 2 && (Shaped(sc) <==> |sc.blobs| <= MAX_BLOBS)
    ensures forall i | i in sc.inputs :: i == sc.inputs[0] || i == sc.inputs[1]
    ensures Decoded(sc.blobs) == all.metadata
    ensures forall b | b in sc.blobs :: IsHash(b.digest) && codec.hash(b.raw) == b.digest
  {
    hide EncodesMetadata, Written, Decoded, Distinct, IsHash;
  }

  lemma BuiltBelongs(codec: Codec, p: Pair, all: Collected, files: map<string, Bytes>, sc: Sidecar, revision: string)
    requires IsBuiltFrom(codec, p, all, files, sc, revision)
    ensures Belongs(codec, RuntimeOfPair(all, files), sc.header, p, revision)
  {
    hide EncodesMetadata, Written, Decoded, Distinct, IsHash, Inner;
  }

  /** Both replays, and every blob read. */
  lemma BuiltReplays(codec: Codec, p: Pair, c0: Checked, c1: Checked, all: Collected,
                     files: map<string, Bytes>, sc: Sidecar, version: string, revision: string)
    requires Injective(codec.hash) && IsChecked(c0) && IsChecked(c1) && c0.a.codec == codec && c1.a.codec == codec
    requires c0.a.want == WantFor(0, version, revision) && c1.a.want == WantFor(1, version, revision)
    requires HasProvenance(c0.s) && HasProvenance(c1.s)
    requires Gathered([c0, c1], all) && IsBuiltFrom(codec, p, all, files, sc, revision)
    ensures var runtime := RuntimeOfPair(all, files);
      && Replay(codec, runtime, Decoded(sc.blobs), sc, 0, version, revision) == Ok(c0.s)
      && Replay(codec, runtime, Decoded(sc.blobs), sc, 1, version, revision) == Ok(c1.s)
      && Replayed(codec, runtime, sc, version, revision)
    ensures InputFits(sc.inputs[0]) && InputFits(sc.inputs[1])
  {
    hide Inspect, RuntimeOf, Hashed, Injective, Replay, InputFits, Gathered, HasProvenance, EncodesMetadata, Written,
         IsLeaf;
    TwoGathered(c0, c1, all);
    BuiltShape(codec, p, all, files, sc, revision);
    WrittenPair(codec, c0, c1, all, files);
    LeafIsFine(c0, all.descriptors[0]);
    LeafIsFine(c1, all.descriptors[1]);
    ReplayOf(codec, p, c0, all, files, sc, 0, version, revision);
    ReplayOf(codec, p, c1, all, files, sc, 1, version, revision);
  }

  /** Two archives that passed their checks, split, written and verified as a pair. Verification reads back
      the very walks of the originals. It succeeds exactly when the evidence fits into the sidecar's limits
      and the images into those of the runnable archive, whose merged index and common root filesystem
      limit two archives may exceed that keep their own. */
  lemma CollectedPairVerifies(codec: Codec, p: Pair, c0: Checked, c1: Checked, all: Collected,
                              files: map<string, Bytes>, sc: Sidecar, version: string, revision: string)
    requires Injective(codec.hash) && IsChecked(c0) && IsChecked(c1) && c0.a.codec == codec && c1.a.codec == codec
    requires c0.a.want == WantFor(0, version, revision) && c1.a.want == WantFor(1, version, revision)
    requires HasProvenance(c0.s) && HasProvenance(c1.s)
    requires Gathered([c0, c1], all) && IsBuiltFrom(codec, p, all, files, sc, revision)
    ensures Replay(codec, RuntimeOfPair(all, files), Decoded(sc.blobs), sc, 0, version, revision) == Ok(c0.s)
    ensures Replay(codec, RuntimeOfPair(all, files), Decoded(sc.blobs), sc, 1, version, revision) == Ok(c1.s)
    ensures PairAccepted(codec, p, files, sc, version, revision) <==>
            && Listed(p) && |sc.blobs| <= MAX_BLOBS && Budgeted(sc)
            && RunnableFits(codec, all.descriptors[0], all.descriptors[1], c0.s.rootfsBytes + c1.s.rootfsBytes)
  {
    hide Injective, Replay, InputFits, Gathered, HasProvenance, BlobFits, IsChecked, Budgeted, RunnableFits, Replayed,
         Shaped;
    hide EncodesMetadata, Written, Opened, IsHash, Decoded, RuntimeOfPair, Belongs, Listed, IsBuiltFrom, Distinct;
    BuiltShape(codec, p, all, files, sc, revision);
    BuiltReplays(codec, p, c0, c1, all, files, sc, version, revision);
    PairOpens(codec, c0, c1, all, files, version, revision);
    BuiltBelongs(codec, p, all, files, sc, revision);
    forall b | b in sc.blobs ensures BlobFits(codec, b) {
      CollectedFits(codec, c0, c1, all, sc.blobs, b);
    }
  }

  /** An added blob that no replay reads: the replays go on as before. */
  lemma ReplayIgnores(codec: Codec, runtime: Runtime, sc: Sidecar, extra: Encoded, i: nat, version: string,
                      revision: string)
    requires Injective(codec.hash) && Hashed(codec.hash, runtime.files) && i < |sc.inputs|
    requires (forall b | b in sc.blobs :: codec.hash(b.raw) == b.digest) && codec.hash(extra.raw) == extra.digest
    requires Replay(codec, runtime, Decoded(sc.blobs), sc, i, version, revision).Ok?
    requires !Reads(codec, runtime, sc, i, BLOB_PREFIX + extra.digest, version, revision)
    ensures Replay(codec, runtime, Decoded(sc.blobs + [extra]), sc.(blobs := sc.blobs + [extra]), i, version, revision)
         == Replay(codec, runtime, Decoded(sc.blobs), sc, i, version, revision)
  {
    hide Inspect, Injective, HasProvenance, Hashed, Overlaid;
    var name := BLOB_PREFIX + extra.digest;
    var metadata, more := Decoded(sc.blobs), Decoded(sc.blobs + [extra]);
    assert (sc.blobs + [extra])[..|sc.blobs|] == sc.blobs;
    var input := sc.inputs[i];
    var a := Overlay(codec, runtime, metadata, input, WantFor(i, version, revision));
    var next := Overlaid(runtime.files, more, input.index, input.layout);
    DecodedNames(codec, sc.blobs);
    DecodedNames(codec, sc.blobs + [extra]);
    AddedBlob(codec.hash, runtime.files, metadata, extra, input.index, input.layout);
    InspectAccounts(a);
    assert Keeps(a, next, Inspect(a).value);
    InspectIsLocal(a, next);
  }

  /** A blob added under its hash changes no file there was. */
  lemma AddedBlob(hash: Bytes -> string, runtime: map<string, Bytes>, metadata: map<string, Bytes>, extra: Encoded,
                  index: Bytes, layout: Bytes)
    requires Injective(hash) && Hashed(hash, runtime) && Hashed(hash, metadata) && hash(extra.raw) == extra.digest
    ensures var more := metadata[BLOB_PREFIX + extra.digest := extra.raw];
      forall name | name in Overlaid(runtime, metadata, index, layout) ::
        name in Overlaid(runtime, more, index, layout)
        && Overlaid(runtime, more, index, layout)[name] == Overlaid(runtime, metadata, index, layout)[name]
  {
    hide Injective, Hashed;
    var blob := BLOB_PREFIX + extra.digest;
    var alone := map[blob := extra.raw];
    AloneIsHashed(hash, extra);
    if blob in metadata {
      SameName(hash, metadata, alone, blob);
    } else if blob in runtime {
      SameName(hash, runtime, alone, blob);
    }
    assert blob[0] == 'b' && INDEX_JSON[0] == 'i' && LAYOUT[0] == 'o';
  }

  lemma AloneIsHashed(hash: Bytes -> string, extra: Encoded)
    requires hash(extra.raw) == extra.digest
    ensures Hashed(hash, map[BLOB_PREFIX + extra.digest := extra.raw]) && IsBlobName(BLOB_PREFIX + extra.digest)
  {
  }

  lemma AcceptedParts(codec: Codec, p: Pair, files: map<string, Bytes>, sc: Sidecar, version: string, revision: string)
    requires PairAccepted(codec, p, files, sc, version, revision)
    ensures |sc.inputs| == 2 && forall b | b in sc.blobs :: codec.hash(b.raw) == b.digest
    ensures Opened(codec, files, version, revision).Ok? && Hashed(codec.hash, files)
    ensures Opened(codec, files, version, revision).value.files == files
    ensures Replayed(codec, Opened(codec, files, version, revision).value, sc, version, revision)
  {
    hide Replayed, Hashed, Budgeted, Opened, Distinct, InputFits, IsHash, Belongs, Listed;
    forall b | b in sc.blobs ensures codec.hash(b.raw) == b.digest {
      assert BlobFits(codec, b);
    }
    NotHashed(codec, files, version, revision);
    OpenedFiles(codec, files, version, revision);
  }

  lemma ExtraNotReplayed(codec: Codec, runtime: Runtime, sc: Sidecar, extra: Encoded, version: string, revision: string)
    requires Injective(codec.hash) && Hashed(codec.hash, runtime.files) && |sc.inputs| == 2
    requires (forall b | b in sc.blobs :: codec.hash(b.raw) == b.digest) && codec.hash(extra.raw) == extra.digest
    requires Replayed(codec, runtime, sc, version, revision)
    requires forall i | 0 <= i < 2 :: !Reads(codec, runtime, sc, i, BLOB_PREFIX + extra.digest, version, revision)
    ensures !Replayed(codec, runtime, sc.(blobs := sc.blobs + [extra]), version, revision)
  {
    hide Replay, Injective, Hashed, Decoded;
    var blobs := sc.blobs + [extra];
    assert extra in blobs;
    assert !Reads(codec, runtime, sc, 0, BLOB_PREFIX + extra.digest, version, revision);
    assert !Reads(codec, runtime, sc, 1, BLOB_PREFIX + extra.digest, version, revision);
    ReplayIgnores(codec, runtime, sc, extra, 0, version, revision);
    ReplayIgnores(codec, runtime, sc, extra, 1, version, revision);
    DecodedNames(codec, blobs);
  }

  const SLSA_TYPES := {"https://slsa.dev/provenance/v0.2", "https://slsa.dev/provenance/v1"}

  /** Some document among the files is an SLSA statement about the content with this SHA-256. */
  ghost predicate HasSlsa(a: Archive, hex: string) {
    exists name, kind :: kind in SLSA_TYPES && OciGraph.AttestedBy(a, name, kind, hex)
  }

  lemma ReplayIsAttested(codec: Codec, runtime: Runtime, metadata: map<string, Bytes>, sc: Sidecar, i: nat,
                         version: string, revision: string)
    requires i < |sc.inputs| && Replay(codec, runtime, metadata, sc, i, version, revision).Ok?
    ensures i in runtime.descriptors && |DigestOf(runtime.descriptors[i])| >= 7
    ensures HasSlsa(Overlay(codec, runtime, metadata, sc.inputs[i], WantFor(i, version, revision)),
                    DigestOf(runtime.descriptors[i])[7..])
  {
    hide Inspect, OciGraph.AttestedBy, Overlaid;
    var a := Overlay(codec, runtime, metadata, sc.inputs[i], WantFor(i, version, revision));
    var s := Inspect(a).value;
    OciGraph.EvidenceIsAboutImage(a);
    var e :| e in s.attestations && e.predicateTypes * PROVENANCE_TYPES != {};
    var kind :| kind in e.predicateTypes * PROVENANCE_TYPES;
    var name :| name in s.attestationNames && OciGraph.AttestedBy(a, name, kind, e.subject.digest[7..]);
  }

  /** Every platform of an accepted pair has an SLSA statement, in the runnable archive or the sidecar, that names
      the digest of the runnable archive's own image for that platform. */
  lemma PairIsAttested(codec: Codec, p: Pair, files: map<string, Bytes>, sc: Sidecar, version: string, revision: string)
    requires PairAccepted(codec, p, files, sc, version, revision)
    ensures var runtime := Opened(codec, files, version, revision).value;
      |sc.inputs| == 2
      && forall i | 0 <= i < 2 ::
           && i in runtime.descriptors && |DigestOf(runtime.descriptors[i])| >= 7
           && HasSlsa(Overlay(codec, runtime, Decoded(sc.blobs), sc.inputs[i], WantFor(i, version, revision)),
                      DigestOf(runtime.descriptors[i])[7..])
  {
    hide Replay, HasSlsa, Opened, Decoded, Budgeted, Distinct, Belongs, Listed;
    var runtime := Opened(codec, files, version, revision).value;
    forall i | 0 <= i < 2
      ensures i in runtime.descriptors && |DigestOf(runtime.descriptors[i])| >= 7
      ensures HasSlsa(Overlay(codec, runtime, Decoded(sc.blobs), sc.inputs[i], WantFor(i, version, revision)),
                      DigestOf(runtime.descriptors[i])[7..]) {
      assert i == 0 || i == 1;
      ReplayIsAttested(codec, runtime, Decoded(sc.blobs), sc, i, version, revision);
    }
  }

  /** The length of all blobs. */
  function RawBytes(blobs: seq<Encoded>): nat {
    if blobs == [] then 0 else |blobs[0].raw| + RawBytes(blobs[1..])
  }

  lemma {:induction false} TotalIsRaw(blobs: seq<Encoded>)
    ensures TotalBytes(blobs) == RawBytes(blobs)
    decreases |blobs|
  {
    if |blobs| == 1 {
      assert blobs[..0] == [] && blobs[1..] == [];
    } else if |blobs| > 1 {
      var init, last := blobs[..|blobs| - 1], |blobs| - 1;
      TotalIsRaw(init);
      TotalIsRaw(blobs[1..]);
      TotalIsRaw(init[1..]);
      assert blobs[1..][..last - 1] == init[1..];
    }
  }

  lemma TwoInputBytes(inputs: seq<Input>)
    requires |inputs| == 2
    ensures InputBytes(inputs) == |inputs[0].index| + |inputs[0].layout| + |inputs[1].index| + |inputs[1].layout|
  {
    assert InputBytes(inputs) == InputBytes(inputs[..1]) + |inputs[1].index| + |inputs[1].layout|;
    assert InputBytes(inputs[..1]) == InputBytes(inputs[..1][..0]) + |inputs[0].index| + |inputs[0].layout|;
  }

  /** What else an accepted pair is: written for this source, plan, image and index, and listed as such where there
      is an inventory; every blob is what its digest says, none stands twice, and each is read by the replay of one
      of the two platforms' inputs, whose image is the runnable archive's own; all within 32 MB. */
  lemma AcceptedPair(codec: Codec, p: Pair, files: map<string, Bytes>, sc: Sidecar, version: string, revision: string)
    requires PairAccepted(codec, p, files, sc, version, revision)
    ensures var runtime, h := Opened(codec, files, version, revision).value, sc.header;
      && h.source == revision && h.planDigest == p.planDigest && h.image == p.image && h.imageId == p.imageId
      && 0 in runtime.descriptors && 1 in runtime.descriptors
      && h.index == codec.hash(codec.encode(Inner(runtime.descriptors[0], runtime.descriptors[1])))
      && (p.inventory.Some? ==>
            && p.image in p.inventory.value && p.inventory.value[p.image] == p.imageId
            && p.sidecar in p.inventory.value && p.inventory.value[p.sidecar] == p.sidecarId)
    ensures |sc.inputs| == 2 && sc.inputs[0].platform == "linux/amd64" && sc.inputs[1].platform == "linux/arm64"
    ensures |sc.blobs| <= 4096
    ensures RawBytes(sc.blobs) + |sc.inputs[0].index| + |sc.inputs[0].layout|
            + |sc.inputs[1].index| + |sc.inputs[1].layout| <= 32_000_000
    ensures forall i, j | 0 <= i < j < |sc.blobs| :: sc.blobs[i].digest != sc.blobs[j].digest
    ensures forall b | b in sc.blobs :: codec.hash(b.raw) == b.digest && 0 < |b.raw| <= 16 * 1024 * 1024
    ensures forall i | i in sc.inputs :: 0 < |i.index| <= 2_000_000 && 0 < |i.layout| <= 2_000_000
    ensures forall i | 0 <= i < 2 :: ReplaysImage(codec, files, sc, i, version, revision)
    ensures forall b | b in sc.blobs ::
              exists i | 0 <= i < 2 :: Reads(codec, Opened(codec, files, version, revision).value, sc, i,
                                             BLOB_PREFIX + b.digest, version, revision)
  {
    hide Inspect, Replay, InspectRunnable, Decoded, TotalBytes, InputBytes, Generated, IsHash;
    AcceptedParts(codec, p, files, sc, version, revision);
    OpenedHasBoth(codec, files, version, revision);
    var runtime := Opened(codec, files, version, revision).value;
    DecodedNames(codec, sc.blobs);
    TotalIsRaw(sc.blobs);
    TwoInputBytes(sc.inputs);
    forall b | b in sc.blobs
      ensures exists i | 0 <= i < 2 :: Reads(codec, runtime, sc, i, BLOB_PREFIX + b.digest, version, revision) {
      assert BLOB_PREFIX + b.digest in Decoded(sc.blobs);
      assert Reads(codec, runtime, sc, 0, BLOB_PREFIX + b.digest, version, revision)
          || Reads(codec, runtime, sc, 1, BLOB_PREFIX + b.digest, version, revision);
    }
    forall b | b in sc.blobs ensures codec.hash(b.raw) == b.digest && 0 < |b.raw| <= 16 * 1024 * 1024 {
      assert BlobFits(codec, b);
    }
    forall i | i in sc.inputs ensures 0 < |i.index| <= 2_000_000 && 0 < |i.layout| <= 2_000_000 {
      assert InputFits(i);
    }
    forall i | 0 <= i < 2 ensures ReplaysImage(codec, files, sc, i, version, revision) {
      assert i == 0 || i == 1;
      ReplayShows(codec, files, sc, i, version, revision);
    }
  }

  /** The original archive of a platform passes its check again over the runnable archive and the sidecar, and its
      image is the runnable archive's. */
  predicate ReplaysImage(codec: Codec, files: map<string, Bytes>, sc: Sidecar, i: nat, version: string,
                         revision: string) {
    && Opened(codec, files, version, revision).Ok? && i < |sc.inputs|
    && var runtime := Opened(codec, files, version, revision).value;
       var want := Want("linux", if i == 0 then "amd64" else "arm64", version, revision);
       var overlay := Overlaid(files, Decoded(sc.blobs), sc.inputs[i].index, sc.inputs[i].layout);
       var state := Inspect(Archive(codec, overlay, want, false));
       && state.Ok? && |state.value.images| == 1 && i in runtime.descriptors
       && state.value.images[0].descriptor == KeyOf(runtime.descriptors[i])
  }

  lemma ReplayShows(codec: Codec, files: map<string, Bytes>, sc: Sidecar, i: nat, version: string, revision: string)
    requires Opened(codec, files, version, revision).Ok? && i < |sc.inputs|
    requires Opened(codec, files, version, revision).value.files == files
    requires Replay(codec, Opened(codec, files, version, revision).value, Decoded(sc.blobs), sc, i, version,
                    revision).Ok?
    ensures ReplaysImage(codec, files, sc, i, version, revision)
  {
    hide Inspect, Opened, HasProvenance, Overlaid, Decoded;
  }

  lemma OpenedHasBoth(codec: Codec, files: map<string, Bytes>, version: string, revision: string)
    requires Opened(codec, files, version, revision).Ok?
    ensures 0 in Opened(codec, files, version, revision).value.descriptors
    ensures 1 in Opened(codec, files, version, revision).value.descriptors
  {
    hide Inspect, Generated, Hashed;
  }

  /** Unread evidence is rejected: no blob can be slipped into an accepted sidecar, whatever inventory the
      changed sidecar is listed in. */
  lemma ExtraBlobRejected(codec: Codec, p: Pair, next: Pair, files: map<string, Bytes>, runtime: Runtime, sc: Sidecar,
                          extra: Encoded, version: string, revision: string)
    requires Injective(codec.hash) && PairAccepted(codec, p, files, sc, version, revision)
    requires Opened(codec, files, version, revision) == Ok(runtime)
    requires forall i | 0 <= i < 2 :: !Reads(codec, runtime, sc, i, BLOB_PREFIX + extra.digest, version, revision)
    ensures !PairAccepted(codec, next, files, sc.(blobs := sc.blobs + [extra]), version, revision)
  {
    hide Reads, Injective, Hashed, PairAccepted, Opened, Replayed;
    var more := sc.(blobs := sc.blobs + [extra]);
    AcceptedParts(codec, p, files, sc, version, revision);
    if PairAccepted(codec, next, files, more, version, revision) {
      AcceptedParts(codec, next, files, more, version, revision);
      assert extra in more.blobs;
      ExtraNotReplayed(codec, runtime, sc, extra, version, revision);
    }
  }

  lemma OpenedFiles(codec: Codec, files: map<string, Bytes>, version: string, revision: string)
    requires Opened(codec, files, version, revision).Ok?
    ensures Opened(codec, files, version, revision).value.files == files
  {
    hide InspectRunnable;
  }
}
