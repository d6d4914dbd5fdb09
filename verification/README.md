# Verification of the Venus OS vehicle bridge and its release tools

This project models the parts of the repository whose correctness spans many functions and states, and
proves what they promise. It covers two families of code.

The **release tools** (`scripts/`) number, rewrite and check releases:

- `JsonScalars`, `JsonTokens`, `JsonGrammar`, `JsonSpans`, `JsonDocument` and `JsonEdit` are the minimal edit of JSON
  version files: a recursive parser records the place of every scalar, and owned scalars are spliced in from the end. The
  grammar is that of RFC 8259, sections 2 to 7, as far as Python's decoder follows it (numbers with fraction or
  exponent and the words NaN and Infinity are read, and never written). `JsonOwnership` says in terms of the document
  alone when an edit succeeds and what every field reads as. `VersionSync` puts such edits of several files together.
- `VersionPlan`, `VersionLedger` and `LedgerProtocol` are release identities, the ledger that numbers them, and
  the compare-and-swap protocol by which concurrent workflow runs share it. `VersionForms` says how versions, stamps,
  package versions and plans are written.
- `OciArchive`, `OciReplay`, `OciRuntime` and `OciEvidence` are the checked walk over an OCI archive, its repetition
  over a smaller archive and detached metadata, and the runnable archive and sidecar that are written for it.
  `OciGraph` and `OciCanonical` say of the two kinds of archives, without the walk, which are accepted.
- `CodeSpans`, `ReleaseNotes` and `ReleaseSections` scan release notes, and `ReleaseStructure` says without the scan
  what their lines, fences, comments, headings and sections are. `ToolchainDiff` and `Receipts` compare and cover
  build receipts; `ToolchainPlaces` says what the comparison reports.

The **bridge** (`dbus_ev/`, `vehicle-engine/`) talks to vehicles without exceeding their limits:

- `EngineTraffic`, `TrafficLimits` and `EvccSchedule` are three request gates whose state is on disk before a
  request leaves, over histories of crashes, failed saves and restarts.
- `PollWorker` is the worker thread behind the main loop. `Freshness` follows sample times to `/Connected`.
- `AttributeMerge` merges timestamped updates.

`Results` and `Texts` hold what the others share. Protocols are functions from a state and an action to a state; a
run is any sequence of actions, and a theorem about a run holds for every sequence, so for every interleaving, crash
and observation. Where the program changes an object in place there is a class, and its methods are proved against
these functions.

Where the code gives less than its comments or a first reading suggest, the model follows the code and says exactly
how much it gives. A JSON edit repeated on its own result fails exactly where it renames its own selector
(`JsonEdit.SecondEdit`). Tags repeat exactly for stable plans of one base (`LedgerProtocol.Allocation`), and a ledger
that grows too large, or a crash before its first write, ends all allocation (`LedgerProtocol.StoredIsReadable`). Two
archives that keep their limits may make a pair that does not, as three layers of 6 GiB in each do
(`OciEvidence.CollectedPairVerifies`). A version sync overwrites what others write between its last comparison of a
file and the replacement, and nothing else (`VersionSync.ForeignIsLost`). Distances hold between reservations, and what
follows a reservation may really come closer to what followed the one before (`EngineTraffic.GapIsReached`,
`EvccSchedule.PollGapIsReached`, `TrafficLimits.LoginGapIsReached`). A pause survives a restart exactly if it was saved
(`EngineTraffic.PauseSurvives`). The order of updates decides exactly where a key has two values at its greatest time
(`AttributeMerge.PermutationsAgree`). A Mercedes answer is as fresh as its receipt, so the promise of the other sources
holds for it only up to its latency (`Freshness.FreshnessBound`).

`dafny verify dfyconfig.toml` checks the whole project.

## Model

| member | source | states |
|---|---|---|
| `JsonScalars.StringIsLocal` | scripts/version_plan.py:553-602 | A string token that reads in a text reads alike wherever the same characters stand, whatever follows it |
| `JsonScalars.NumberIsLocal` | scripts/version_plan.py:593-602 | A number token reads alike in any other place behind which no character extends it |
| `JsonScalars.ScalarIsLocal` | scripts/version_plan.py:593-602 | A scalar token ends where it ended before when it is moved in front of a delimiter or the end of the text |
| `JsonScalars.DumpReads` | scripts/version_plan.py:630-665 | The dumped form of a new string or integer reads back as that value and ends at its own end, in front of any delimiter |
| `JsonTokens.KeyIs` | scripts/version_plan.py:559-566 | A key is read if and only if it is a string in quotes whose units are plain characters, short escapes or escapes of four hexadecimal digits, and it means their characters, with surrogate pairs joined |
| `JsonTokens.TokenIs` | scripts/version_plan.py:593-602 | A scalar token is accepted with a value if and only if it is one of the grammar and denotes it: a name, a string, or a number by its parts, which is an integer exactly without fraction and exponent |
| `JsonTokens.DumpIsToken` | scripts/version_plan.py:657-665 | What is written for a string is a token of exactly that string, no other spelling of it is shorter, and its hexadecimal digits are small letters |
| `JsonGrammar.NodeSound` | scripts/version_plan.py:553-602 | Whatever the recursive parser accepts is the printed form of the tree it returns, and the tree is well formed (keys distinct) |
| `JsonGrammar.NodeComplete` | scripts/version_plan.py:553-602 | Every printed well-formed tree is parsed back to itself in front of any delimiter |
| `JsonGrammar.DocumentPrints` | scripts/version_plan.py:605-613 | A text is accepted with a document if and only if it is the printed form of that well-formed document |
| `JsonSpans.SpansLocate` | scripts/version_plan.py:593-602 | The recorded map has an entry for exactly the scalars of the tree, at their places |
| `JsonSpans.RewriteValue` | scripts/version_plan.py:630-665 | Replacing scalar tokens in the text tree replaces exactly these scalars in the value |
| `JsonSpans.RewriteWellFormed` | scripts/version_plan.py:630-665 | A tree with replaced scalars is well formed again, so it reads back |
| `JsonSpans.RewriteTwice` | scripts/version_plan.py:630-665 | Replacing one set of scalars after another is replacing both at once |
| `JsonSpans.RewriteCuts` | scripts/version_plan.py:630-665 | Replacing one scalar of the tree is cutting its span out of the printed text and putting the new token in; every other character stays |
| `JsonSpans.EarlierSiteStays` | scripts/version_plan.py:630-665 | A replacement leaves every earlier scalar's place and token as they were, and earlier spans end before it |
| `JsonDocument.JsonDocument.Whitespace` | scripts/version_plan.py:548-551 | Returns the first position that is no JSON white space |
| `JsonDocument.JsonDocument.Member` | scripts/version_plan.py:559-571 | Reads one member: its key, if it is a new string, the colon and the value, whose spans alone are added |
| `JsonDocument.JsonDocument.Object` | scripts/version_plan.py:553-576 | Returns the members' values and end, and adds exactly the members' scalar spans to the recorded ones, or fails where the grammar does |
| `JsonDocument.JsonDocument.Array` | scripts/version_plan.py:578-591 | Returns the items' values and end, and adds exactly the items' scalar spans, or fails where the grammar does |
| `JsonDocument.JsonDocument.Parse` | scripts/version_plan.py:593-602 | Returns the value and end of the tree that stands at the index, and adds exactly its scalar spans under its path |
| `JsonDocument.ParseDocument` | scripts/version_plan.py:605-613 | Succeeds exactly on documents, with the document's value and its exact spans |
| `JsonDocument.RecordedSpansExact` | scripts/version_plan.py:540-602 | Recorded spans are in bounds, hold exactly the token of their scalar, cover all scalars and only them, and are pairwise disjoint |
| `JsonEdit.EditJson` | scripts/version_plan.py:630-665 | Both loops compute the specified edit: all owned scalars planned first, then spliced in descending order of place |
| `JsonEdit.SpliceRewrites` | scripts/version_plan.py:657-665 | Splicing in descending order is the simultaneous replacement in the tree |
| `JsonEdit.EditRewrites` | scripts/version_plan.py:630-665 | The edited text parses to the original document with new tokens at the changed paths and nothing else changed, and its value is the old value with exactly these scalars replaced |
| `JsonEdit.ChangesAre` | scripts/version_plan.py:646-656 | The changed paths are exactly those of the planned edits, each with its planned scalar |
| `JsonEdit.EditOwns` | scripts/version_plan.py:616-665 | Changed paths are owned fields, the reported previous values are what these fields held, and afterwards every owned field reads as its new scalar |
| `JsonEdit.SecondEdit` | scripts/version_plan.py:630-665 | A second edit succeeds if and only if the declaration does not rename the very name it selects its document by, and then it is the identity |
| `JsonEdit.SecondEditMayFail` | scripts/version_plan.py:630-665 | A concrete document whose second edit fails: its owned field is its own name and the name changes |
| `JsonOwnership.EditSucceeds` | scripts/version_plan.py:616-665 | An edit of a text that could be decoded succeeds if and only if the text is a document, the name is the declared one (with an npm lock also that of a root package that has one), every owned field holds a string, or an integer that a number replaces, and the new strings can be encoded |
| `JsonOwnership.EditReads` | scripts/version_plan.py:630-665 | Every field of the document before and after: exactly the declared field of a manifest, and of an npm lock the version and, if there are packages, that of the root package, read as the new value; every other field reads as before, and exactly the owned fields that held something else are changed |
| `JsonOwnership.PreviousAre` | scripts/version_plan.py:637-665 | The reported previous values are those the owned fields held, the root package's last |
| `VersionPlan.ValidPlanIsCreated` | scripts/version_plan.py:322-429 | A plan is valid for a policy and source if and only if creating it again from its own decisions yields it |
| `VersionPlan.VersionDeterminesIdentity` | scripts/version_plan.py:291-319 | Allowed identities with equal versions agree on base, channel and sequence |
| `VersionPlan.TagDeterminesIdentity` | scripts/version_plan.py:363-429 | Valid plans have equal tags if and only if they agree on base, channel and sequence |
| `VersionPlan.StampParts` | scripts/release_state.py:203-204 | An accepted nightly stamp splits into a calendar time, the run and the attempt it was built from |
| `VersionPlan.StampsDiffer` | scripts/release_state.py:203-204 | Equal nightly stamps come from one time, run and attempt |
| `VersionPlan.AppleOrder` | scripts/version_plan.py:483-487 | For builds up to 99990000 the triple stays within 1..9999, 0..99, 0..99 and its lexicographic order is the order of the builds |
| `VersionPlan.PepOrder` | scripts/version_plan.py:473-482 | The PEP 440 nightly number orders and separates (run, attempt) pairs whose attempt is below 1000000 |
| `VersionPlan.NightlyNumberOrder` | scripts/version_plan.py:473-482 | Projected nightlies stay at most 2^64 - 2 and compare exactly as their runs and attempts do |
| `VersionForms.TimeIs` | scripts/version_plan.py:299-312 | The accepted times are exactly the moments of the Gregorian calendar of the years 1 to 9999, written with fourteen digits |
| `VersionForms.BaseIs` | scripts/version_plan.py:44-46 | A base version is exactly three numbers without leading zeros, dotted |
| `VersionForms.StampIs` | scripts/version_plan.py:44-46 | A nightly stamp is exactly a moment, a positive run and a positive attempt, dotted |
| `VersionForms.VersionIs` | scripts/version_plan.py:291-319 | A text is the version of base, channel and sequence if and only if it is written as such: the base alone for stable, behind it the channel and a number from 1 on for beta and RC, or a stamp for nightly |
| `VersionForms.ProjectedIs` | scripts/version_plan.py:454-508 | The value of every declaration, and that there is one, exactly: base, version, package version, build number and Apple build by the numbers written in them, behind the declared prefix |
| `VersionForms.PlanIs` | scripts/version_plan.py:363-429 | A plan is valid by itself if and only if version, tag, digests and build have their forms, and for a policy and a source if and only if its build is also above the floor and every declaration has a value |
| `VersionForms.PackagesCoincide` | scripts/version_plan.py:454-494 | Package versions of two valid plans coincide if and only if the bases do and either both keep the base as it is (stable plans, and RCs whose bytes are promoted) or both are one release; where PEP 440 tells nightlies of one base, run and attempt not apart by their times |
| `VersionLedger.FindSequence` | scripts/release_control.py:1558-1570 | The loop returns one more than the largest numeral behind the prefix among all tags and releases |
| `VersionLedger.NextSequenceUnused` | scripts/release_control.py:1558-1570 | From the next sequence on no tag with this base and channel exists, while the sequence before it, if any, does |
| `VersionLedger.Maximum` | scripts/release_state.py:196-202 | The maximum of the reserved sequences, 0 for none |
| `VersionLedger.LargestReserved` | scripts/release_state.py:196-202 | The loop over all reservations computes the maximum sequence of one base and channel |
| `VersionLedger.ReservedTagIsFree` | scripts/release_state.py:193-209 | A newly reserved tag is among no names found taken, and a beta or RC tag among no tag or release its sequence was chosen from |
| `VersionLedger.StateFile.Write` | scripts/release_state.py:152-161 | Replaces the content exactly when the branch exists and the named content is still there |
| `VersionLedger.LedgerCopy.Reserve` | scripts/release_state.py:180-213 | Decides on the copy: the run's own reservation if its inputs match, else a new plan with the counter and the reservation written into the copy |
| `VersionLedger.LedgerCopy.Begin` | scripts/release_state.py:322-328 | Decides on the copy and moves exactly its floor |
| `VersionLedger.ReservationDecided` | scripts/release_state.py:180-213 | A plan is reserved if and only if the run has none and it is a valid plan for the request whose build is one more than the larger of counter and policy floor, whose sequence is the first above all that tags, releases and reservations of its base and channel carry, and whose tag is free; a run that has a plan gets it again if and only if the request is the same |
| `VersionLedger.ReservePlan` | scripts/release_state.py:166-215 | Undisturbed: it returns exactly the plan that may be reserved or repeated, the file gains exactly a new reservation with its build as counter, and a repetition or a failure leaves the file alone |
| `VersionLedger.PublicationDecided` | scripts/release_state.py:229-330 | A publication may begin if and only if the stated conditions hold, written out from ledger, plan and published tags: the run's own reservation, strictly above the floor and above every published reservation, or, where bytes are promoted, a published RC that promotes bytes, reserved by exactly one run, not below the floor nor any other published reservation |
| `VersionLedger.BeginPublication` | scripts/release_state.py:305-330 | Undisturbed: it succeeds if and only if there is a branch with a readable ledger on which the publication may begin, and then moves exactly the floor to the build; a failure changes nothing |
| `LedgerProtocol.FreshTag` | scripts/release_state.py:193-208 | A plan just decided shares its tag with a reserved plan if and only if both are stable plans of one base |
| `LedgerProtocol.ReservationKeeps` | scripts/release_state.py:180-213 | A decision to reserve keeps the ledger sound, adds exactly one reservation, and its build is the new counter, above the old one and the policy's floor |
| `LedgerProtocol.PublicationKeeps` | scripts/release_state.py:229-330 | A decision to publish moves only the floor, onto the build of a reserved plan, strictly unless bytes are promoted |
| `LedgerProtocol.StepKeeps` | scripts/release_state.py:98-330 | Every read, decision, branch creation, write and crash of every call keeps the invariant over file, calls and log |
| `LedgerProtocol.NothingIsTakenBack` | scripts/release_state.py:98-330 | From any reachable state on, in every interleaving: counter and floor never decrease and no reservation is changed or removed |
| `LedgerProtocol.Allocation` | scripts/release_state.py:98-215 | In every interleaving with crashes: builds of different runs differ and are at most the counter, a rerun gets its original plan or fails, and different runs share a tag if and only if both plan the stable release of one base |
| `LedgerProtocol.Consumption` | scripts/release_state.py:229-330 | Packages are consumed in strictly increasing build order, each reservation at most once, byte promotions never fall behind, and the floor lies between every published build and the counter |
| `LedgerProtocol.Foundation` | scripts/release_state.py:229-330 | In every interleaving, of the published tags each call saw: a consumed plan was granted to its run, its own tag was not among them, and its build is above that of every published reservation; a promoted plan was granted, is an RC that promotes bytes, its tag was among them, and no published reservation has a larger build |
| `LedgerProtocol.StoredIsReadable` | scripts/release_state.py:98-161 | In every reachable state the next read succeeds, with what is stored, if and only if the stored ledger does not exceed the size limit, or there is neither a ledger nor a branch |
| `LedgerProtocol.RefusedForever` | scripts/release_state.py:98-119 | Without calls in progress a branch without its file, and an oversized ledger, stay refused whatever calls follow |
| `LedgerProtocol.CrashAfterBranch` | scripts/release_state.py:210-214 | A crash between creating the branch and the first write reaches that state |
| `LedgerProtocol.OversizedIsReached` | scripts/release_state.py:98-215 | A reservation that makes the ledger exceed the size limit is still written and handed out, and from then on the stored ledger is refused whatever calls follow |
| `LedgerProtocol.AloneSucceeds` | scripts/release_state.py:166-215 | A reservation with no interference is written and handed out |
| `LedgerProtocol.StableTagsRepeat` | scripts/release_state.py:193-215 | An instance: two runs hold the same stable tag with different builds |
| `OciArchive.Walker.ReadFile` | scripts/merge_oci_archives.py:209-221 | Records the name and the bytes, and returns the document if size, total and decoding allow it |
| `OciArchive.Walker.ReadDescriptor` | scripts/merge_oci_archives.py:223-248 | Checks the descriptor against the blobs and reads it as metadata |
| `OciArchive.Walker.LayerDigest` | scripts/merge_oci_archives.py:378-422 | The digest of an expanded layer, once per digest and media type, with the layer and root filesystem limits |
| `OciArchive.Walker.TakeImage` | scripts/merge_oci_archives.py:316-376 | Accepts an image for a platform exactly if platform, labels, layers and diff IDs hold, and records its descriptor and config |
| `OciArchive.Walker.TakeRunnable` | scripts/release_provenance.py:161-170 | The image of a runnable archive: accepted exactly for a platform of its own that is not taken, and recorded with its layers |
| `OciArchive.Walker.TakeAttestation` | scripts/merge_oci_archives.py:424-528 | Accepts an attestation of either form exactly if its subject, config and every statement hold, and records subject and predicate types |
| `OciArchive.Walker.VisitIndex` | scripts/merge_oci_archives.py:254-271 | Visits all children of an index in order; terminates on every graph |
| `OciArchive.Walker.Visit` | scripts/merge_oci_archives.py:273-314 | One descriptor: limits, dispatch to index, attestation or image, and no second leaf of a digest; terminates on every graph, cyclic ones included |
| `OciArchive.Walker.Check` | scripts/merge_oci_archives.py:160-175 | Layout, index, walk and the final graph check in order, for native archives and for runnable ones |
| `OciReplay.WalkGrows` | scripts/merge_oci_archives.py:254-314 | An accepted visit only adds to what is recorded, names only blobs it read within limits, and keeps images, leaves and layers accounted for within 1024 visits |
| `OciReplay.WalkIsLocal` | scripts/merge_oci_archives.py:254-314 | A visit sees the same over any files that agree on the names it looks at |
| `OciReplay.InspectAccounts` | scripts/merge_oci_archives.py:160-175 | An accepted archive has one image with its own leaf, every expanded layer belongs to its manifest, and all metadata is blobs, index or layout within their limits |
| `OciReplay.InspectIsLocal` | scripts/release_provenance.py:191-216 | The whole check ends in the same state over any files that agree on what it looked at |
| `OciReplay.LookedAtIsKept` | scripts/release_provenance.py:305-327 | Every name the original walk looks at is in the runnable archive or the retained metadata, with its content |
| `OciReplay.ReplayIsSame` | scripts/release_provenance.py:191-216 | Replaying the original index over runnable archive and metadata ends in the very state of the original walk: same manifests, image and attestations |
| `OciRuntime.LayersChecked` | scripts/merge_oci_archives.py:364-422 | Layers are accepted if and only if each expands within its limit to its diff ID and all fit into what is left of the root filesystem limit; repeated layers count again |
| `OciRuntime.InspectSound` | scripts/merge_oci_archives.py:160-175 | The image of an accepted native archive passes every check of an image by itself, remembered layers are what they expand to, and the counted root filesystem is exactly its layers |
| `OciRuntime.DifferentImages` | scripts/merge_oci_archives.py:316-348 | Images of two platforms have different digests |
| `OciRuntime.RunnableInspected` | scripts/release_provenance.py:134-177 | Canonical metadata over two images that are fine is walked successfully if and only if generated metadata and both root filesystems keep the limits |
| `OciRuntime.OpenRunnable` | scripts/release_provenance.py:147-159 | The walk, the comparison with the generated metadata and the check for unreferenced members, in order |
| `OciRuntime.WrittenAccepted` | scripts/release_provenance.py:330-343 | The archive written from two images of native archives is accepted if and only if generated metadata and both root filesystems keep the limits, and then it yields these descriptors |
| `OciCanonical.AcceptsRunnable` | scripts/release_provenance.py:144-177 | The check of a runnable archive accepts, with two descriptors, if and only if the archive consists of nothing but two fine images, one for each platform, with their configs and layers, under the canonical metadata of these descriptors, and all of it keeps the limits |
| `OciGraph.ImageChecked` | scripts/merge_oci_archives.py:316-422 | An image is taken if and only if manifest, config and layers, read along their paths in the JSON, are those of a runnable image for the wanted platform, version and revision, and config and layers fit into what is left of the limits; what it adds to the record is exact |
| `OciGraph.EvidenceChecked` | scripts/merge_oci_archives.py:424-528 | An attestation of either form is taken if and only if platform, config and subject hold, and every statement is of a known type and has a subject with the SHA-256 of the attestation's own, and all fit into what is left of the limit; what it adds to the record is exact |
| `OciGraph.WalkChecked` | scripts/merge_oci_archives.py:254-314 | A visit succeeds if and only if every descriptor from there on, along the children of the indexes, is fine by itself and all together keep the limits, and then it has recorded exactly what these descriptors say |
| `OciGraph.InspectAccepts` | scripts/merge_oci_archives.py:160-175 | A native archive is accepted if and only if layout, index and every descriptor below are fine, the limits are kept by all together, digests of leaves differ, and there is one image that every attestation is about; the record is exactly what the graph says |
| `OciGraph.EvidenceIsAboutImage` | scripts/merge_oci_archives.py:424-528 | In an accepted native archive every recorded attestation has the image as its subject, and each of its predicate types stands in a statement among the retained files that has a subject with the image's own SHA-256 |
| `OciEvidence.ImageLeaf` | scripts/release_provenance.py:311-314 | The leaf with the image's digest exists, is the only one, and has the image's descriptor; its manifest can be read again |
| `OciEvidence.CollectMetadata` | scripts/release_provenance.py:319-323 | Adds exactly the blob metadata of an archive, failing exactly on conflicting content |
| `OciEvidence.CollectRuntimeInputs` | scripts/release_provenance.py:305-327 | Fails exactly when an archive has no provenance or leaves the metadata budget; otherwise returns every archive's descriptor, runnable blobs, metadata, index and layout |
| `OciEvidence.DecodeBlobs` | scripts/release_provenance.py:233-240 | Accepts the sidecar blobs exactly if digest, size and running budget hold, and returns them by name |
| `OciEvidence.VerifyPair` | scripts/release_provenance.py:232-260 | Accepts exactly if both files are those of the inventory, the sidecar belongs to the source, plan and archive, blobs and inputs fit the limits, the runnable archive passes its own check, both replays pass with its image of the platform, and every metadata blob is read by one of them |
| `OciEvidence.AcceptedPair` | scripts/release_provenance.py:222-260 | Everything an accepted pair is, written out: files and sidecar are those of the inventory and belong to source, plan and archive, blobs are distinct, have their digests and keep the limits, index digest and both platforms are those of the runnable archive, both inputs replay to its image, and every blob is read by one of them |
| `OciEvidence.PairIsAttested` | scripts/release_provenance.py:222-260 | For each platform of an accepted pair there is an SLSA provenance statement in the sidecar that names the digest of the runnable archive's own image |
| `OciEvidence.PairOpens` | scripts/release_provenance.py:330-398 | The runnable archive of a collected pair passes its check exactly within its limits, with the descriptors that were collected |
| `OciEvidence.CollectedPairVerifies` | scripts/release_provenance.py:222-327 | For two archives that passed their checks, the pair written from them replays to the original states, and it is accepted if and only if it is the listed one, the sidecar keeps its count and byte limits, the generated metadata the limit of structural metadata, and both root filesystems together the root filesystem limit |
| `OciEvidence.ExtraBlobRejected` | scripts/release_provenance.py:245-259 | A blob that no replay reads cannot be added to an accepted sidecar |
| `EngineTraffic.Traffic.constructor` | vehicle-engine/traffic.go:38-48 | A new gate holds what the file holds, or the zero state without one |
| `EngineTraffic.Traffic.SaveState` | vehicle-engine/traffic.go:50-68 | The file is replaced by the whole state or stays |
| `EngineTraffic.Traffic.Send` | vehicle-engine/traffic.go:79-127 | One call changes memory and file and sends exactly as specified, for every end of its saves and every answer |
| `EngineTraffic.DelayBounds` | vehicle-engine/traffic.go:112-119 | For every Retry-After the pause is at least the backoff, the whole seconds of Retry-After up to a century and, after an authorization failure, six hours, and is one of these; its nanoseconds fit a signed 64-bit Duration |
| `EngineTraffic.StepKept` | vehicle-engine/traffic.go:79-127 | Calls, failed saves, crashes and restarts keep memory and file aware of everything sent and every saved pause |
| `EngineTraffic.Pacing` | vehicle-engine/traffic.go:79-108 | Stamps of sent requests are at least 2 s apart, at most 60 are charged to a window, and windows begin at least an hour apart |
| `EngineTraffic.SpanLimit` | vehicle-engine/traffic.go:87-108 | By the times requests really leave, a span of up to n hours sees at most 60 (n + 1) |
| `EngineTraffic.Pauses` | vehicle-engine/traffic.go:83-124 | No request leaves before a pause ends that is saved or that the running process set, and such pauses never move back; a refusal pauses at least the k-th backoff if its process knows of k - 1 before it (the saved ones and all its own) and its Retry-After, but no longer than that, the backoff of all refusals so far, or six hours behind a failed login |
| `EngineTraffic.BackoffIs` | vehicle-engine/traffic.go:109-119 | The backoffs are 1800, 3600, 7200, 14400 s and from the fifth on 21600 s |
| `EngineTraffic.Admission` | vehicle-engine/traffic.go:79-108 | In every reachable state a call is refused only for a reason on record: a pause that is not over, sixty requests charged within the last hour, or, where the caller gives up waiting, a charge less than 2 s ago; any other call sends its request exactly if the state behind it was saved |
| `EngineTraffic.PauseSurvives` | vehicle-engine/traffic.go:109-124 | From every reachable state and for every refusal: the process that is started next knows the pause if and only if its save replaced the file; otherwise it knows none beyond the refused call, and sends before the end of the pause whenever the window has room |
| `EngineTraffic.ActualGap` | vehicle-engine/traffic.go:94-108 | Two requests really leave at least max(2 s - l1, 0) + l2 apart, l1 and l2 being the times their saves took |
| `EngineTraffic.GapIsReached` | vehicle-engine/traffic.go:94-108 | For all save times this bound is reached, so real sendings keep 2 s exactly when the later save takes at least min(l1, 2 s) |
| `EngineTraffic.UnsavedPauseIsLost` | vehicle-engine/traffic.go:119-124 | An instance: a pause whose save failed is forgotten by a restart, and a request leaves before its end |
| `PollWorker.Worker.Poll` | dbus_ev/worker.py:24-29 | Accepts exactly when nothing is pending and no stop was requested, and then queues the request |
| `PollWorker.Worker.DeliverNext` | dbus_ev/worker.py:31-35 | Clears the pending flag and runs the callback unless stopping |
| `PollWorker.Worker.Stop` | dbus_ev/worker.py:56-66 | Drops queued work and puts the end marker, once; reports whether the thread is gone |
| `PollWorker.Worker.Round` | dbus_ev/worker.py:37-54 | One round of the worker's loop with its dispatch, or its end with the close |
| `PollWorker.OneAtATime` | dbus_ev/worker.py:14-66 | In every interleaving of single steps at most one request is queued, running or undelivered, and put_nowait never finds the queue full |
| `PollWorker.NoneLost` | dbus_ev/worker.py:24-54 | Callbacks run for the accepted requests in order and once; before a stop or a break of the worker none is lost |
| `PollWorker.AnswersAreCalled` | dbus_ev/worker.py:31-54 | Callbacks get the client's answers in their order, each with the clock read before its own poll and its own end; before a stop or a break none is left out |
| `PollWorker.PollIsAccepted` | dbus_ev/worker.py:24-35 | In every reachable state with an idle main loop a poll is accepted, and queued at once, if and only if no request is under way and neither a stop nor a break ended the worker; otherwise it changes nothing |
| `PollWorker.DeliveryFrees` | dbus_ev/worker.py:31-35 | In every reachable state the delivery of an answer calls back, and the next poll is accepted and put |
| `PollWorker.RequestEnds` | dbus_ev/worker.py:37-54 | A request under way is dispatched after at most five steps of the worker, which before that always has a step to take outside the client |
| `PollWorker.CleanStop` | dbus_ev/worker.py:31-66 | No callback follows the stop, and at most one poll, by a worker that was past its look at the stop event; the client is closed exactly once by the time the thread is gone, and never polled after it |
| `PollWorker.StopIsPut` | dbus_ev/worker.py:56-66 | A stop drops what is queued and leaves nothing but the end marker; a second one changes nothing |
| `PollWorker.StopEnds` | dbus_ev/worker.py:37-66 | After a stop the worker always has a step to take outside the client, and is gone after at most six steps, four once the active poll has returned |
| `CodeSpans.FindRuns` | scripts/release_control.py:1673-1673 | The scan finds the runs of backticks from the left |
| `CodeSpans.RunIsFound` | scripts/release_control.py:1673-1673 | Every maximal run is found |
| `CodeSpans.SpanEndIs` | scripts/release_control.py:1671-1681 | The search from a run finds the end of the nearest later run of equal length, and nothing exactly when there is none |
| `CodeSpans.CodeSpanEnds` | scripts/release_control.py:1671-1681 | The one-pass reverse scan agrees with that search at every position of every line |
| `ReleaseNotes.MaskLine` | scripts/release_control.py:1684-1706 | The loop computes the specified masking, with a lexicographic measure, as entering a comment does not advance |
| `ReleaseNotes.MaskMasks` | scripts/release_control.py:1684-1706 | Masking keeps length and line breaks and only turns characters into spaces |
| `ReleaseNotes.CommentsAreMasked` | scripts/release_control.py:1684-1706 | A character is masked if and only if it lies in a comment, where a comment reaches from an opening that is not escaped, in no code span and in no earlier comment, or from the start of the line if one was open, to the end of its close or of the line; all others stay, and the line ends inside a comment if and only if one has no end |
| `ReleaseNotes.MaskIdempotent` | scripts/release_control.py:1684-1706 | Masking a masked line changes nothing and ends outside a comment |
| `ReleaseSections.ReleaseLines` | scripts/release_control.py:1720-1742 | The loop over the lines keeps fence and comment state and yields text, heading flag and guidance flag as specified |
| `ReleaseSections.FenceOrComment` | scripts/release_control.py:1720-1742 | A fence and a comment are never open together |
| `ReleaseSections.VisibleMasks` | scripts/release_control.py:1774-1777 | The joined visible lines have the length and line breaks of the text and differ only in spaces |
| `ReleaseStructure.LinesAre` | scripts/release_control.py:1720-1724 | The lines of a text are its pieces behind every line feed |
| `ReleaseStructure.FenceStands` | scripts/release_control.py:1659-1668 | A fence is recognized exactly where at most three spaces and a run of at least three backticks or tildes stand, and with its length, marker and tail |
| `ReleaseStructure.ReadingIsUnique` | scripts/release_control.py:1709-1742 | Every text has at most one reading: which fence or comment is open behind each line follows from the lines before it |
| `ReleaseStructure.TextIsRead` | scripts/release_control.py:1709-1742 | The scanner gives exactly that reading: text, heading flag and guidance flag of every line, fences with the marker and at least the length of their opening, and comments across lines |
| `ReleaseStructure.HeadingIs` | scripts/release_control.py:1754-1771 | A line is a heading if and only if it may be one and consists of at most three spaces, one to six hashes and white space or nothing behind them, and its level is the number of hashes |
| `ReleaseStructure.HeadingsAre` | scripts/release_control.py:1754-1771 | The headings are those of all lines that are one, in order, each at its line's offsets |
| `ReleaseStructure.TitleStands` | scripts/release_control.py:1745-1751 | A title is the trimmed content without a closing run of hashes, which counts only behind white space or alone |
| `ReleaseStructure.SectionsAre` | scripts/release_control.py:1774-1782 | The sections are those of the headings of exactly the level, in order |
| `ReleaseStructure.SectionBody` | scripts/release_control.py:1774-1782 | A section has its heading's title, and as body the trimmed stretch from behind its heading to its end |
| `ReleaseSections.ReleaseHeadings` | scripts/release_control.py:1754-1771 | The loop lists the headings with their offsets |
| `ReleaseSections.HeadingsOfText` | scripts/release_control.py:1754-1771 | Headings lie in the text in order without overlap, and each is what its visible slice reads as |
| `ReleaseSections.ReleaseSections` | scripts/release_control.py:1774-1782 | The loop returns the sections of exactly the level, from slices that are in bounds |
| `ReleaseSections.SectionIsStretch` | scripts/release_control.py:1774-1782 | A section reaches from its heading to the next heading of its level or above or to the end, no such heading begins inside, and its visible body is the masked form of the same stretch |
| `TrafficLimits.RetryDelay` | dbus_ev/mercedes/traffic.py:14-26 | The delay is exactly the longer of the minimum and what the header asks for, in seconds or until its date, and the minimum for an unusable one |
| `TrafficLimits.TokenStore.Acquire` | dbus_ev/mercedes/store.py:23-36 | Succeeds exactly when the lock is free, and then holds it and what the file holds at that moment |
| `TrafficLimits.TokenStore.Save` | dbus_ev/mercedes/store.py:38-50 | The file holds the saved data exactly if the save reached it, memory exactly if it succeeded |
| `TrafficLimits.TokenStore.Close` | dbus_ev/mercedes/store.py:52-55 | Releases the lock if it was held |
| `TrafficLimits.TrafficLimits.Open` | dbus_ev/mercedes/traffic.py:32-44 | Fails exactly on negative persisted values; otherwise the deadlines continue the persisted ones |
| `TrafficLimits.TrafficLimits.Pause` | dbus_ev/mercedes/traffic.py:49-54 | The pause is the longer of the new and the running one, in memory for every end of the save and in the file if the save reached it |
| `TrafficLimits.TrafficLimits.TooMany` | dbus_ev/mercedes/traffic.py:56-59 | A 429 pauses at least for its level and doubles the next one up to six hours, for every end of the save |
| `TrafficLimits.TrafficLimits.Reset` | dbus_ev/mercedes/traffic.py:61-65 | Resets the escalation only when no pause is running, for every end of the save |
| `TrafficLimits.TrafficLimits.ReserveLogin` | dbus_ev/mercedes/traffic.py:67-78 | Admits a login exactly without pause, recorded failure or running login interval, and only once the next interval is saved; a save that fails admits none and leaves the interval running in memory |
| `TrafficLimits.TrafficLimits.RecordFailure` | dbus_ev/mercedes/traffic.py:80-82 | The failure is in memory, and in the file if the save reached it |
| `TrafficLimits.TrafficLimits.RecordManualLogin` | dbus_ev/mercedes/traffic.py:84-88 | Clears the failure and starts a new login interval in memory, and in the file if the save reached it |
| `TrafficLimits.PerformedKeeps` | dbus_ev/mercedes/traffic.py:49-88 | Every operation, with every end of its save, keeps owner and file aware of all that completed |
| `TrafficLimits.PausesLast` | dbus_ev/mercedes/traffic.py:46-59 | Over all histories of owners, reboots and crashes: a completed pause leaves every owner a positive remaining time, and no login, until its end |
| `TrafficLimits.LevelIs` | dbus_ev/mercedes/traffic.py:56-59 | The levels are 1800, 3600, 7200, 14400 s and from the fifth on 21600 s |
| `TrafficLimits.LevelsHold` | dbus_ev/mercedes/traffic.py:56-65 | The i-th 429 since a reset pauses at least min(1800 2^(i-1), 21600) seconds and what its Retry-After asks, the level is reset only when every completed pause has ended, and no pause is longer than the level of the 429s since a reset on record, what was asked for, or a pause set before |
| `TrafficLimits.HeldForReason` | dbus_ev/mercedes/traffic.py:46-78 | In every reachable state requests are held back exactly until the end of a pause on record, and automatic logins only for a reason on record |
| `TrafficLimits.LoginsHold` | dbus_ev/mercedes/traffic.py:67-88 | Automatic logins are reserved 21600 s after every login on record and never follow a recorded failure without a manual login |
| `TrafficLimits.LoginGap` | dbus_ev/mercedes/traffic.py:67-78 | Credentials of automatic logins really leave at least max(21600 - l1, 0) + l2 s apart, l1 and l2 being the times their reservations took |
| `TrafficLimits.LoginGapIsReached` | dbus_ev/mercedes/traffic.py:67-78 | For all such times this distance is reached, so credentials keep 21600 s exactly when l2 is at least l1 or 21600 |
| `TrafficLimits.PauseOnlyGrows` | dbus_ev/mercedes/traffic.py:49-54 | A pause never shortens a running one, and memory and file agree about its end |
| `EvccSchedule.EvccClient.Fail` | dbus_ev/providers/evcc.py:143-157 | Writes the next poll, the failure count and the blocking flag of a failure, and stops the engine where it must |
| `EvccSchedule.EvccClient.Conclude` | dbus_ev/providers/evcc.py:170-188 | From the reply on: success, refusal, broken engine and failed saves leave schedule, engine and log as specified |
| `EvccSchedule.EvccClient.PollNow` | dbus_ev/providers/evcc.py:164-199 | One poll changes schedule, engine and log exactly as specified, for every end of its saves and every reply |
| `EvccSchedule.PollKeeps` | dbus_ev/providers/evcc.py:164-199 | A poll keeps the schedule aware of everything that happened since the last authorization |
| `EvccSchedule.PollsArePaced` | dbus_ev/providers/evcc.py:164-199 | Between authorizations, over all crashes and restarts: polls are reserved an effective interval apart and not before a failure's delay is over, engine starts 21600 s apart, and none follows a blocking failure |
| `EvccSchedule.ActualGaps` | dbus_ev/providers/evcc.py:164-199 | Between authorizations the engine is really polled at least max(interval - l1, 0) + l2 apart and really started at least max(max(interval, 21600) - l1, 0) + l2 apart, l1 and l2 being the times from reading the clock to the start, saves included |
| `EvccSchedule.PollGapIsReached` | dbus_ev/providers/evcc.py:164-174 | For all intervals and all such times a run with a crash reaches that distance of polls, so they keep the interval exactly when l2 is at least l1 or the interval |
| `EvccSchedule.StartGapIsReached` | dbus_ev/providers/evcc.py:164-174 | For all intervals and all such times a run with a crash reaches that distance of engine starts |
| `EvccSchedule.BackoffIs` | dbus_ev/providers/evcc.py:143-157 | The backoffs are 1800, 3600, 7200, 14400 s and from the fifth on 21600 s |
| `EvccSchedule.FailuresDelay` | dbus_ev/providers/evcc.py:143-157 | The k-th consecutive failure delays by exactly the longest of the interval, min(21600, 1800 2^(min(k,5)-1)) and its Retry-After, and blocks if and only if it is one of authorization, configuration or storage |
| `EvccSchedule.Admission` | dbus_ev/providers/evcc.py:164-174 | In every reachable state a poll without a reason against it on record is made, exactly if its reservations are saved |
| `EvccSchedule.PollEnds` | dbus_ev/providers/evcc.py:143-199 | How every poll leaves the process and its engine: the engine runs on if and only if the outcome was saved and is good, or a failure that neither blocks nor limits the rate; an outcome that cannot be saved stops it and becomes a transport failure, if that can be saved |
| `EvccSchedule.BlockedAdmitsNone` | dbus_ev/providers/evcc.py:190-199 | A blocked schedule admits no engine poll and does not change, whatever clients do, until the operator authorizes |
| `Freshness.Controller.ApplySnapshot` | dbus_ev/main.py:113-127 | Takes over the start time of a fresh good snapshot and forgets the last one otherwise, except with Home Assistant |
| `Freshness.StepKept` | dbus_ev/main.py:80-128 | Every step of main loop, worker, engine and stream keeps all start times those of acquisitions that succeeded |
| `Freshness.ConnectedIsGenuine` | dbus_ev/main.py:80-128 | In every run, at every tick and delivery that says connected an acquisition that succeeded stands behind it: with Home Assistant and evcc it began less than the timeout ago, with Mercedes less than the timeout and its own latency ago, and less than the timeout exactly if its age since receipt is below the timeout minus that latency |
| `Freshness.ConnectedIs` | dbus_ev/main.py:80-128 | In every run the service is connected if and only if, at the last check, the start time of the arrival that decides was younger than the timeout, and MQTT and the charger see a good snapshot if and only if the last arrival was good as well |
| `Freshness.ChecksAre` | dbus_ev/main.py:80-128 | With Mercedes the latest acquisition decides alone, if it had a state of charge and the client was never closed; a result of evcc is as good as its latest acquisition, and begins with it |
| `Freshness.HaConnects` | dbus_ev/main.py:113-127 | From every state a good answer of Home Assistant connects exactly while its request is younger than the timeout |
| `Freshness.EvccConnects` | dbus_ev/main.py:113-127 | So does a good result of evcc while its engine poll is |
| `Freshness.MercedesConnects` | dbus_ev/mercedes/client.py:405-424 | And a frame of Mercedes with a state of charge while its receipt is, unless the client is closed |
| `Freshness.FreshnessBound` | dbus_ev/main.py:80-128 | For every bound: all runs whose acquisitions take at most a latency are connected only with an acquisition begun less than the bound ago if and only if the bound is at least the timeout, for Mercedes the timeout plus the latency; so Mercedes keeps the timeout exactly at latency 0 |
| `Freshness.AgeIsReached` | dbus_ev/mercedes/client.py:345-353 | For every latency of a Mercedes answer and every age below the timeout a run that is connected although its only acquisition began latency + age ago; with the other two sources every age below the timeout |
| `Freshness.NothingRenews` | dbus_ev/mercedes/client.py:405-424 | Without a new acquisition, whatever is read again or delivered late: every start time kept, cached, pending or dispatched afterwards was held before and is that of an acquisition on record then, and the service is connected only while such a time is younger than the timeout |
| `Freshness.FailuresInARow` | dbus_ev/main.py:113-127 | However many failed results follow a good one, they disconnect at once, except with Home Assistant, where the good one counts on to its own timeout as if they had not come |
| `AttributeMerge.Protocol.MergeEntries` | dbus_ev/mercedes/protocol.py:77-84 | The loop over an update merges exactly the keys that win, in any order |
| `AttributeMerge.Protocol.Merge` | dbus_ev/mercedes/protocol.py:70-93 | An accepted update resets if full, merges and counts one revision; any other changes nothing and reports nothing |
| `AttributeMerge.Protocol.MergeRest` | dbus_ev/mercedes/protocol.py:95-112 | A widget answer is merged as a full update into an empty protocol, so no old value survives in it |
| `AttributeMerge.LastWriterWins` | dbus_ev/mercedes/protocol.py:70-84 | After any updates a stored attribute is the last delivered among those with the greatest timestamp since the latest full update; a key is missing exactly if all its deliveries were before time 0 |
| `AttributeMerge.RevisionCounts` | dbus_ev/mercedes/protocol.py:70-93 | The revision counts the updates that have entries, and a full update has been received exactly if one of them is full, whatever deltas follow |
| `AttributeMerge.Untimed` | dbus_ev/mercedes/protocol.py:77-84 | A value without a time counts as one of time 0: it replaces another exactly if that is not later, and alone it stays |
| `AttributeMerge.OrderDoesNotMatter` | dbus_ev/mercedes/protocol.py:77-84 | The attributes depend only on the set of deliveries per key, when deliveries with the greatest time of their key, from 0 on, are equal |
| `AttributeMerge.PermutationsAgree` | dbus_ev/mercedes/protocol.py:77-84 | For all deltas: every order and every repetition of them gives the same attributes if and only if no key has two different values at its greatest time, from 0 on; ties below that do not matter |
| `AttributeMerge.TiesFollowOrder` | dbus_ev/mercedes/protocol.py:81-84 | An instance: of two values at the greatest time of their key the later delivery stays |
| `ToolchainDiff.Queue` | scripts/release_versioned.py:61-96 | Pushing in reverse order makes the stack yield the inner places in order before the rest |
| `ToolchainDiff.FindChanges` | scripts/release_versioned.py:99-125 | The stack yields exactly the changes of the recursive comparison in its order, and ends on all trees |
| `ToolchainDiff.UnionFinds` | scripts/release_versioned.py:69-78 | The compared keys are exactly those of either object, with what both hold under them |
| `ToolchainDiff.UnionSorted` | scripts/release_versioned.py:69-78 | They come in rising order, each once |
| `ToolchainDiff.DictsEqual` | scripts/release_versioned.py:109-110 | Objects are equal if and only if every key is missing in both or has equal values |
| `ToolchainDiff.QuietIffEqual` | scripts/release_versioned.py:99-125 | There is nothing to report if and only if the values are equal in Python's sense |
| `ToolchainPlaces.EqualIs` | scripts/release_versioned.py:109-110 | Values are equal exactly if they mean the same: with one kind of number for truth values, integers and fractions, and objects without an order |
| `ToolchainPlaces.ChangesAre` | scripts/release_versioned.py:99-125 | The comparison reports exactly the places where two values part (one side has nothing, or they differ and are not both objects or both lists, with such on both sides all the way there), in the order of the documents, each with its label and with what differs |
| `ToolchainPlaces.EscapedReads` | scripts/release_versioned.py:69-78 | A key in a label holds no slash and reads back as the key |
| `ToolchainDiff.CountDifferences` | scripts/release_versioned.py:311-347 | The report is a prefix of all differences up to 100, reported and omitted ones add up to all, and there are some exactly if a platform differs |
| `Receipts.CoverArtifacts` | scripts/version_receipt.py:253-269 | Accepts exactly non-empty lists of staged payloads, each once, none covered before and none a receipt, and adds their names |
| `Receipts.VerifyReceipts` | scripts/version_receipt.py:272-300 | Succeeds if and only if the receipts' artifact lists partition the payloads that are no receipts, which is when they cover the release |
| `Receipts.CoveredOnce` | scripts/version_receipt.py:272-300 | Of a verified release every other payload stands in exactly one artifact list, once and as staged |
| `Receipts.VerifiedIsCovered` | scripts/version_receipt.py:272-300 | The lists partition the payloads if and only if, said of the payloads themselves, there are receipts by their names, each has a list, what stands in a list is a payload as it was staged last and no receipt, and every other payload stands at exactly one place |
| `VersionSync.Tree.Edit` | scripts/version_plan.py:1050-1071 | The loop reads every declared file once and applies the edits one after the other |
| `VersionSync.Tree.Verify` | scripts/version_plan.py:1074-1081 | Succeeds exactly if every declared edit leaves its edited file as it is |
| `VersionSync.Tree.Apply` | scripts/version_plan.py:1102-1130 | With other programs changing the tree before every step: compares all declared files, stages the drift, and compares and replaces its files one by one, ending at the first refused step or where the process dies, with the tree exactly as these steps and changes leave it |
| `VersionSync.Tree.Sync` | scripts/version_plan.py:1041-1099 | Changes nothing unless all edits are prepared, never in a check, which succeeds exactly without drift, and otherwise runs the plan of comparisons, stagings and replacements as specified |
| `VersionSync.ForeignIsLost` | scripts/version_plan.py:1102-1130 | For all runs and all changes by others before any step: what a replacement overwrites is what others made of the file until then, and that is the content that was read, so that nothing foreign is lost, if and only if the change between the comparison and the replacement did not alter or remove the file; files without replacement end as others leave them |
| `VersionSync.LateWriteIsLost` | scripts/version_plan.py:1121-1127 | A run whose only file is written by others between its comparison and its replacement: it succeeds and that content is lost |
| `VersionSync.UndisturbedIsFixpoint` | scripts/version_plan.py:1041-1130 | The declared files of a successful run end as prepared, and so in a common fixpoint of all declared edits without drift, if and only if others leave each alone behind the run's last step about it; changes before that, even between a comparison and its replacement, make no difference |
| `VersionSync.QuietIsReplaced` | scripts/version_plan.py:1102-1130 | Where nobody else writes, a run is nothing but its replacements, wherever it ends |
| `VersionSync.SyncIsFixpoint` | scripts/version_plan.py:1041-1099 | After a success without other writers the files are a common fixpoint of all declared edits, a check finds no drift, a repeated run changes nothing, and undeclared files are untouched |
| `VersionSync.CrashIsRepaired` | scripts/version_plan.py:1102-1130 | After a crash behind any part of the replacements the same run prepares the same result and ends with the same files |
| `VersionSync.JsonAlone` | scripts/version_plan.py:1074-1081 | A JSON declaration alone in its file is refused as conflicting if and only if it renames the name it selects its document by |

## Left out

- Transport to GitHub, `gh`, HTTP framing, arguments and file descriptors: the ledger file is a cell with compare-and-swap, tags and releases are finite sets seen at the time of a decision, and every failed request is the same failure.
- VersionLedger.StateFile.Read: takes the two requests of a read as one; a branch that appears between them only turns a success into a failure.
- VersionLedger.StateFile.Write: identifies a blob SHA with the content it names, so content that returns to an earlier value is accepted again, as Git would.
- LedgerProtocol.Allocation: says nothing about the later moment a release becomes public, nor that stable tags differ; `StableTagsRepeat` shows that they need not.
- JSON booleans where integers are expected, missing keys and other type checks of the ledger, plans and policies: the datatypes have only the accepted shapes, and the other checks of `validate_policy` are one flag of a policy.
- Limits of the interpreter: integers beyond 4300 digits, recursion depth and memory.
- JsonDocument.ParseDocument: works on code points, so the UTF-8 decoding of the file is not modelled; encoding is only checked for lone surrogates.
- TOML, Python, plist, PBX and plain-text version edits: `VersionSync` takes them as one given partial function of text and declaration.
- VersionSync.Tree.Apply: staged copies, file modes, links and path confinement are not modelled.
- VersionSync.Tree.Sync: reads the declared files at one moment, and the sorted order of their names is given.
- Version projections and declarations meet in `VersionSync` as already computed values.
- Tar, zip, gzip, zstd, base64 and SHA-256: an archive is a map from names to bytes, hashing is a given injective function, decoding, canonical encoding and layer expansion are given functions, and the size limit of the encoded sidecar is left out. The order of predicate types in a record is not kept.
- OciRuntime.OpenRunnable: begins behind the inventory, which is that every blob is named by its hash; links, member names and the number of members are not modelled.
- OciEvidence.VerifyPair: begins behind the parsing of the sidecar, whose fields have their types; SHA-256 and size of the two files are given.
- OciEvidence.CollectRuntimeInputs: takes over the runnable blobs of an archive as one map instead of one by one.
- EngineTraffic.Pacing: is about the stamps; real sendings may be closer, as `ActualGap` and `GapIsReached` state exactly.
- EngineTraffic.Traffic.Send: the failure count is only ever raised, as in the program; nothing resets it.
- The HTTPS-only transport around the gate and the error values returned to callers.
- PollWorker.Worker.Stop: the join's timeout; only whether the thread is gone is reported.
- PollWorker.Worker.Round: an uninterrupted round; interleavings are those of the single steps.
- ReleaseNotes.MaskIdempotent: is about single lines; nothing is claimed of whole texts.
- Guidance and setext checks of release notes.
- TrafficLimits.RetryDelay: takes the header as already told apart into seconds, date and unusable; and the wall and the monotonic clock are read at one moment and advance together.
- TrafficLimits.LoginsHold: counts logins on record; a manual login whose record was not written is not known to later processes. A saved reservation of the daemon counts as one sending of credentials.
- The stream, pull and cooldown loops of the Mercedes client beyond what `Freshness` uses, OAuth and credentials.
- EvccSchedule.PollsArePaced: operator authorization starts the pacing anew, as the command resets the schedule.
- Home Assistant's circuit breaker, D-Bus services, MQTT, the charger, and coordinates.
- Protobuf decoding, acknowledgements and the normalization of vehicle status updates; `received_at` of a report.
- ToolchainPlaces.ChangesAre: a JSON object lists its keys in order, which the comparison sorts itself, and numbers are no infinities and no NaN.
- ToolchainDiff.FindChanges: the hash that hides unsafe labels is a given function of the label.
- ToolchainDiff.CountDifferences: takes the receipts in name order and the toolchains as already read; the checks of inventory and digests before it are left out.
- Receipts.VerifyReceipts: visits the receipts in some order, as the order only decides which error comes first; evidence and producer checks are part of a receipt being usable, and the detached provenance that follows is `OciEvidence`.
