/** Build receipts (scripts/version_receipt.py): every payload of a release is covered exactly once. */
module Receipts {
  import opened Results
  import opened Texts

  /** An inventory entry: a name, and its size and hash. */
  datatype Asset = Asset(name: Text, size: int, sha256: Text)

  /** A receipt file: unusable when its bytes, evidence or producer are refused; `artifacts` is nothing when
      the receipt has no such list. */
  datatype Receipt = Unusable | Usable(artifacts: Option<seq<Asset>>)

  predicate IsNameCode(c: Code) {
    IsDigit(c) || 0x41 <= c <= 0x5A || 0x61 <= c <= 0x7A || c in {DOT, 0x5F, MINUS}
  }

  const PREFIX := Chars("release-inputs-")
  const SUFFIX := Chars(".json")

  /** The pattern of receipt names. */
  predicate IsReceiptName(name: Text) {
    && |name| > |PREFIX| + |SUFFIX| && name[..|PREFIX|] == PREFIX && name[|name| - |SUFFIX|..] == SUFFIX
    && forall i | |PREFIX| <= i < |name| - |SUFFIX| :: IsNameCode(name[i])
  }

  /** `{entry["name"]: entry}`: the last entry of a name counts. */
  function Inventory(payloads: seq<Asset>): map<Text, Asset> {
    if payloads == [] then map[]
    else Inventory(payloads[..|payloads| - 1])[payloads[|payloads| - 1].name := payloads[|payloads| - 1]]
  }

  function ReceiptNames(expected: map<Text, Asset>): set<Text> {
    set name | name in expected && IsReceiptName(name)
  }

  function Names(artifacts: seq<Asset>): set<Text> {
    set i | 0 <= i < |artifacts| :: artifacts[i].name
  }

  predicate NamesDiffer(artifacts: seq<Asset>) {
    forall i, j | 0 <= i < j < |artifacts| :: artifacts[i].name != artifacts[j].name
  }

  /** An artifact is the staged payload of its name and no receipt. */
  predicate Matches(a: Asset, expected: map<Text, Asset>, receipts: set<Text>) {
    a.name !in receipts && a.name in expected && expected[a.name] == a
  }

  predicate AllMatch(artifacts: seq<Asset>, expected: map<Text, Asset>, receipts: set<Text>) {
    forall i | 0 <= i < |artifacts| :: Matches(artifacts[i], expected, receipts)
  }

  /** `cover_receipt_artifacts`. */
  method CoverArtifacts(artifacts: seq<Asset>, expected: map<Text, Asset>, receipts: set<Text>, covered: set<Text>)
    returns (ok: bool, now: set<Text>)
    ensures ok <==>
            && artifacts != [] && NamesDiffer(artifacts) && Names(artifacts) !! covered
            && AllMatch(artifacts, expected, receipts)
    ensures ok ==> now == covered + Names(artifacts)
  {
    ok, now := false, covered;
    if artifacts == [] {
      return;
    }
    var i := 0;
    assert artifacts[..0] == [];
    while i < |artifacts|
      invariant i <= |artifacts| && now == covered + Names(artifacts[..i])
      invariant NamesDiffer(artifacts[..i]) && Names(artifacts[..i]) !! covered
                && AllMatch(artifacts[..i], expected, receipts)
    {
      var a := artifacts[i];
      if a.name in now || a.name in receipts {
        assert a.name in Names(artifacts);
        return;
      }
      if a.name !in expected || expected[a.name] != a {
        return;
      }
      now := now + {a.name};
      i := i + 1;
    }
    assert artifacts[..i] == artifacts;
    ok := true;
  }

  // ---- The partition ----------------------------------------------------------------------

  /** A receipt that may stand: usable, with artifacts that are payloads, each once. */
  predicate Stands(r: Receipt, expected: map<Text, Asset>, receipts: set<Text>) {
    && r.Usable? && r.artifacts.Some? && r.artifacts.value != []
    && NamesDiffer(r.artifacts.value) && AllMatch(r.artifacts.value, expected, receipts)
  }

  function CoverOf(r: Receipt): set<Text> {
    if r.Usable? && r.artifacts.Some? then Names(r.artifacts.value) else {}
  }

  function Contents(files: map<Text, Receipt>, name: Text): Receipt {
    if name in files then files[name] else Unusable
  }

  predicate Standing(names: set<Text>, files: map<Text, Receipt>, expected: map<Text, Asset>, receipts: set<Text>) {
    forall name | name in names :: Stands(Contents(files, name), expected, receipts)
  }

  predicate Apart(names: set<Text>, files: map<Text, Receipt>) {
    forall x, y | x in names && y in names && x != y :: CoverOf(Contents(files, x)) !! CoverOf(Contents(files, y))
  }

  /** The payloads covered by some receipts. */
  function Covered(names: set<Text>, files: map<Text, Receipt>): set<Text> {
    set name, asset | name in names && asset in CoverOf(Contents(files, name)) :: asset
  }

  /** The artifact lists partition the payloads that are no receipts: every list is fit and without
      repetition, no two share a name, and together they are all. */
  predicate Partitions(expected: map<Text, Asset>, files: map<Text, Receipt>) {
    var receipts := ReceiptNames(expected);
    receipts != {} && Standing(receipts, files, expected, receipts) && Apart(receipts, files)
    && Covered(receipts, files) == expected.Keys - receipts
  }

  lemma CoveredGrows(names: set<Text>, name: Text, files: map<Text, Receipt>)
    ensures Covered(names + {name}, files) == Covered(names, files) + CoverOf(Contents(files, name))
    ensures name !in names && Apart(names, files) ==>
              (Apart(names + {name}, files) <==> CoverOf(Contents(files, name)) !! Covered(names, files))
  {
    var more := Covered(names + {name}, files);
    var cover := CoverOf(Contents(files, name));
    forall asset | asset in cover ensures asset in more {
      assert name in names + {name};
    }
    forall asset | asset in Covered(names, files) ensures asset in more {
      var x :| x in names && asset in CoverOf(Contents(files, x));
      assert x in names + {name};
    }
    if name !in names && Apart(names + {name}, files) {
      forall x | x in names ensures CoverOf(Contents(files, x)) !! cover {
        assert x in names + {name} && name in names + {name};
      }
    }
    if name !in names && Apart(names, files) && cover !! Covered(names, files) {
      forall x | x in names ensures CoverOf(Contents(files, x)) !! cover {
        forall asset | asset in CoverOf(Contents(files, x)) ensures asset !in cover {
          assert asset in Covered(names, files);
        }
      }
    }
  }

  lemma ApartSome(names: set<Text>, more: set<Text>, files: map<Text, Receipt>)
    requires names <= more && Apart(more, files)
    ensures Apart(names, files)
  {
  }

  /** `verify_receipts` up to the detached provenance: it succeeds exactly when the receipts' artifact lists
      partition the other payloads, which is when the receipts cover the release. */
  method VerifyReceipts(payloads: seq<Asset>, files: map<Text, Receipt>) returns (ok: bool)
    ensures ok <==> Partitions(Inventory(payloads), files)
    ensures ok <==> IsCoverage(payloads, files)
  {
    hide Stands, Apart, Covered, NamesDiffer, AllMatch, Names, ReceiptNames, IsCoverage;
    VerifiedIsCovered(payloads, files);
    var expected := Inventory(payloads);
    var receipts := ReceiptNames(expected);
    if receipts == {} {
      return false;
    }
    var covered: set<Text> := {};
    var pending := receipts;
    ghost var done: set<Text> := {};
    NothingCovered(files);
    while pending != {}
      invariant pending + done == receipts && pending !! done
      invariant covered == Covered(done, files) && Apart(done, files) && Standing(done, files, expected, receipts)
      decreases |pending|
    {
      var name :| name in pending;
      pending := pending - {name};
      CoveredGrows(done, name, files);
      StandsIs(Contents(files, name), expected, receipts);
      var receipt := Contents(files, name);
      if receipt.Unusable? || receipt.artifacts.None? {
        return false;
      }
      var fits, now := CoverArtifacts(receipt.artifacts.value, expected, receipts, covered);
      if !fits {
        if Partitions(expected, files) {
          ApartSome(done + {name}, receipts, files);
        }
        return false;
      }
      covered := now;
      done := done + {name};
    }
    assert done == receipts;
    ok := covered == expected.Keys - receipts;
  }

  lemma NothingCovered(files: map<Text, Receipt>)
    ensures Covered({}, files) == {} && Apart({}, files)
  {
  }

  lemma StandsIs(r: Receipt, expected: map<Text, Asset>, receipts: set<Text>)
    ensures Stands(r, expected, receipts) <==>
            r.Usable? && r.artifacts.Some? && r.artifacts.value != [] && NamesDiffer(r.artifacts.value)
            && AllMatch(r.artifacts.value, expected, receipts)
  {
  }

  /** Of a verified release, every payload that is no receipt stands in exactly one artifact list, once,
      and as it was staged. */
  lemma CoveredOnce(expected: map<Text, Asset>, files: map<Text, Receipt>, payload: Text)
    requires Partitions(expected, files) && payload in expected && !IsReceiptName(payload)
    ensures exists name, i ::
              && name in ReceiptNames(expected) && 0 <= i < |Contents(files, name).artifacts.value|
              && Contents(files, name).artifacts.value[i] == expected[payload]
              && forall x, j | x in ReceiptNames(expected) && 0 <= j < |Contents(files, x).artifacts.value|
                               && Contents(files, x).artifacts.value[j].name == payload :: x == name && j == i
  {
    var receipts := ReceiptNames(expected);
    assert payload in Covered(receipts, files);
    var name :| name in receipts && payload in CoverOf(Contents(files, name));
    assert Stands(Contents(files, name), expected, receipts);
    var artifacts := Contents(files, name).artifacts.value;
    var i :| 0 <= i < |artifacts| && artifacts[i].name == payload;
    assert Matches(artifacts[i], expected, receipts);
    forall x, j
      | x in receipts && Stands(Contents(files, x), expected, receipts) && 0 <= j < |Contents(files, x).artifacts.value|
                  && Contents(files, x).artifacts.value[j].name == payload
      ensures x == name && j == i {
      assert payload in CoverOf(Contents(files, x));
    }
  }

  // ---- The whole release ------------------------------------------------------------------

  const DIGITS: set<Code> := {0x30, 0x31, 0x32, 0x33, 0x34, 0x35, 0x36, 0x37, 0x38, 0x39}
  const CAPITALS: set<Code> :=
    {0x41, 0x42, 0x43, 0x44, 0x45, 0x46, 0x47, 0x48, 0x49, 0x4A, 0x4B, 0x4C, 0x4D, 0x4E, 0x4F, 0x50, 0x51,
     0x52, 0x53, 0x54, 0x55, 0x56, 0x57, 0x58, 0x59, 0x5A}
  const LETTERS: set<Code> :=
    {0x61, 0x62, 0x63, 0x64, 0x65, 0x66, 0x67, 0x68, 0x69, 0x6A, 0x6B, 0x6C, 0x6D, 0x6E, 0x6F, 0x70, 0x71,
     0x72, 0x73, 0x74, 0x75, 0x76, 0x77, 0x78, 0x79, 0x7A}
  const MARKS: set<Code> := {0x2E, 0x5F, 0x2D}

  predicate MayStand(c: Code) {
    c in DIGITS + CAPITALS + LETTERS + MARKS
  }

  /** The payload is a receipt: its name holds letters, digits, dots, underscores and dashes in the middle. */
  ghost predicate IsReceipt(name: Text) {
    exists middle :: InMiddle(name, middle)
  }

  predicate InMiddle(name: Text, middle: Text) {
    && middle != [] && (forall c | c in middle :: MayStand(c))
    && name == Chars("release-inputs-") + middle + Chars(".json")
  }

  /** The last payload of its name. */
  predicate IsStaged(payloads: seq<Asset>, a: Asset) {
    exists i | 0 <= i < |payloads| :: payloads[i] == a && forall j | i < j < |payloads| :: payloads[j].name != a.name
  }

  predicate IsNamed(payloads: seq<Asset>, name: Text) {
    exists i | 0 <= i < |payloads| :: payloads[i].name == name
  }

  function ListOf(files: map<Text, Receipt>, name: Text): seq<Asset> {
    if name in files && files[name].Usable? && files[name].artifacts.Some? then files[name].artifacts.value else []
  }

  /** The artifact stands at this place of the list of a receipt among the payloads. */
  ghost predicate StandsAt(payloads: seq<Asset>, files: map<Text, Receipt>, name: Text, k: int, a: Asset) {
    IsNamed(payloads, name) && IsReceipt(name) && 0 <= k < |ListOf(files, name)| && ListOf(files, name)[k] == a
  }

  /** There are receipts, each has a list, what stands in them is staged and no receipt, and every payload that is no
      receipt stands at exactly one place. */
  ghost predicate IsCoverage(payloads: seq<Asset>, files: map<Text, Receipt>) {
    && (exists name :: IsNamed(payloads, name) && IsReceipt(name))
    && (forall name | IsNamed(payloads, name) && IsReceipt(name) :: ListOf(files, name) != [])
    && (forall name, k, a | StandsAt(payloads, files, name, k, a) :: IsStaged(payloads, a) && !IsReceipt(a.name))
    && (forall name, k, a, other, j, b |
          StandsAt(payloads, files, name, k, a) && StandsAt(payloads, files, other, j, b) && a.name == b.name ::
          name == other && k == j)
    && forall payload | IsNamed(payloads, payload) && !IsReceipt(payload) ::
         exists name, k, a :: StandsAt(payloads, files, name, k, a) && a.name == payload
  }

  lemma NameCodeIs(c: Code)
    ensures IsNameCode(c) <==> MayStand(c)
  {
    assert IsDigit(c) <==> c in DIGITS;
    assert 0x41 <= c <= 0x5A <==> c in CAPITALS;
    assert 0x61 <= c <= 0x7A <==> c in LETTERS;
  }

  lemma ReceiptNameIs(name: Text)
    ensures IsReceiptName(name) <==> IsReceipt(name)
  {
    hide IsNameCode, MayStand;
    forall c ensures IsNameCode(c) <==> MayStand(c) {
      NameCodeIs(c);
    }
    if IsReceiptName(name) {
      var middle := name[|PREFIX|..|name| - |SUFFIX|];
      assert name == name[..|PREFIX|] + middle + name[|name| - |SUFFIX|..];
      assert InMiddle(name, middle);
    }
    if middle :| InMiddle(name, middle) {
      forall i | |PREFIX| <= i < |name| - |SUFFIX| ensures IsNameCode(name[i]) {
        assert name[i] == middle[i - |PREFIX|];
      }
    }
  }

  /** The inventory has the last payload of every name. */
  lemma {:induction false} InventoryIs(payloads: seq<Asset>, name: Text)
    ensures name in Inventory(payloads) <==> IsNamed(payloads, name)
    ensures forall a: Asset | a.name == name ::
              name in Inventory(payloads) && Inventory(payloads)[name] == a <==> IsStaged(payloads, a)
  {
    if payloads != [] {
      var init, last := payloads[..|payloads| - 1], payloads[|payloads| - 1];
      InventoryIs(init, name);
      assert payloads == init + [last];
      if last.name != name {
        assert forall i | 0 <= i < |init| :: payloads[i] == init[i];
      } else {
        assert payloads[|init|] == last;
      }
    }
  }

  /** The receipts among the payloads, and their lists. */
  lemma ReceiptsAre(payloads: seq<Asset>, files: map<Text, Receipt>, name: Text)
    ensures name in ReceiptNames(Inventory(payloads)) <==> IsNamed(payloads, name) && IsReceipt(name)
    ensures ListOf(files, name) == if Contents(files, name).Usable? && Contents(files, name).artifacts.Some?
                                   then Contents(files, name).artifacts.value else []
    ensures forall payload :: payload in CoverOf(Contents(files, name)) <==>
              exists k | 0 <= k < |ListOf(files, name)| :: ListOf(files, name)[k].name == payload
  {
    hide IsReceiptName, IsReceipt, IsNamed;
    InventoryIs(payloads, name);
    ReceiptNameIs(name);
  }

  lemma ReceiptStands(payloads: seq<Asset>, files: map<Text, Receipt>, name: Text)
    requires IsCoverage(payloads, files) && IsNamed(payloads, name) && IsReceipt(name)
    ensures Stands(Contents(files, name), Inventory(payloads), ReceiptNames(Inventory(payloads)))
  {
    hide IsReceipt, IsNamed, IsStaged, IsReceiptName, Inventory, ReceiptNames, Contents, ListOf;
    var expected := Inventory(payloads);
    var artifacts := ListOf(files, name);
    ReceiptsAre(payloads, files, name);
    forall k | 0 <= k < |artifacts| ensures Matches(artifacts[k], expected, ReceiptNames(expected)) {
      assert StandsAt(payloads, files, name, k, artifacts[k]);
      ReceiptsAre(payloads, files, artifacts[k].name);
      InventoryIs(payloads, artifacts[k].name);
    }
    forall i, j | 0 <= i < j < |artifacts| ensures artifacts[i].name != artifacts[j].name {
      assert StandsAt(payloads, files, name, i, artifacts[i]) && StandsAt(payloads, files, name, j, artifacts[j]);
    }
  }

  /** Where a payload is covered. */
  lemma CoveredAt(payloads: seq<Asset>, files: map<Text, Receipt>, payload: Text)
    ensures payload in Covered(ReceiptNames(Inventory(payloads)), files) <==>
            exists name, k, a :: StandsAt(payloads, files, name, k, a) && a.name == payload
  {
    hide IsReceipt, IsNamed, IsReceiptName, Inventory, ReceiptNames, Contents, ListOf, CoverOf;
    var receipts := ReceiptNames(Inventory(payloads));
    if payload in Covered(receipts, files) {
      var name :| name in receipts && payload in CoverOf(Contents(files, name));
      ReceiptsAre(payloads, files, name);
      var k :| 0 <= k < |ListOf(files, name)| && ListOf(files, name)[k].name == payload;
      assert StandsAt(payloads, files, name, k, ListOf(files, name)[k]);
    }
    if name, k, a :| StandsAt(payloads, files, name, k, a) && a.name == payload {
      ReceiptsAre(payloads, files, name);
      assert payload in CoverOf(Contents(files, name));
    }
  }

  lemma CoverageIsPartition(payloads: seq<Asset>, files: map<Text, Receipt>)
    requires IsCoverage(payloads, files)
    ensures Partitions(Inventory(payloads), files)
  {
    hide IsReceipt, IsNamed, IsStaged, IsReceiptName, CoverOf, Contents, ListOf, Inventory, ReceiptNames, Covered,
         Stands;
    var expected := Inventory(payloads);
    var receipts := ReceiptNames(expected);
    var some :| IsNamed(payloads, some) && IsReceipt(some);
    ReceiptsAre(payloads, files, some);
    forall name | name in receipts ensures Stands(Contents(files, name), expected, receipts) {
      ReceiptsAre(payloads, files, name);
      ReceiptStands(payloads, files, name);
    }
    forall x, y | x in receipts && y in receipts && x != y
      ensures CoverOf(Contents(files, x)) !! CoverOf(Contents(files, y)) {
      ReceiptsAre(payloads, files, x);
      ReceiptsAre(payloads, files, y);
      ListsApart(payloads, files, x, y);
    }
    forall payload ensures payload in Covered(receipts, files) <==> payload in expected.Keys - receipts {
      ReceiptsAre(payloads, files, payload);
      InventoryIs(payloads, payload);
      CoveredAt(payloads, files, payload);
      if name, k, a :| StandsAt(payloads, files, name, k, a) && a.name == payload {
        StagedIsNamed(payloads, a);
      }
    }
  }

  lemma StagedIsNamed(payloads: seq<Asset>, a: Asset)
    ensures IsStaged(payloads, a) ==> IsNamed(payloads, a.name)
  {
  }

  lemma ListsApart(payloads: seq<Asset>, files: map<Text, Receipt>, x: Text, y: Text)
    requires IsCoverage(payloads, files) && x != y
    requires IsNamed(payloads, x) && IsReceipt(x) && IsNamed(payloads, y) && IsReceipt(y)
    ensures forall i, j | 0 <= i < |ListOf(files, x)| && 0 <= j < |ListOf(files, y)| ::
              ListOf(files, x)[i].name != ListOf(files, y)[j].name
  {
    hide IsReceipt, IsNamed, IsStaged, ListOf;
    forall i, j | 0 <= i < |ListOf(files, x)| && 0 <= j < |ListOf(files, y)|
      ensures ListOf(files, x)[i].name != ListOf(files, y)[j].name {
      assert StandsAt(payloads, files, x, i, ListOf(files, x)[i]);
      assert StandsAt(payloads, files, y, j, ListOf(files, y)[j]);
    }
  }

  lemma PartitionIsCoverage(payloads: seq<Asset>, files: map<Text, Receipt>)
    requires Partitions(Inventory(payloads), files)
    ensures IsCoverage(payloads, files)
  {
    hide IsReceipt, IsNamed, IsStaged, IsReceiptName, CoverOf, Contents, ListOf, Inventory, ReceiptNames, Covered;
    var expected := Inventory(payloads);
    var receipts := ReceiptNames(expected);
    var some :| some in receipts;
    ReceiptsAre(payloads, files, some);
    forall name | IsNamed(payloads, name) && IsReceipt(name) ensures ListOf(files, name) != [] {
      ReceiptsAre(payloads, files, name);
      assert Stands(Contents(files, name), expected, receipts);
    }
    forall name, k, a | StandsAt(payloads, files, name, k, a) ensures IsStaged(payloads, a) && !IsReceipt(a.name) {
      ReceiptsAre(payloads, files, name);
      assert Stands(Contents(files, name), expected, receipts);
      assert Matches(a, expected, receipts);
      ReceiptsAre(payloads, files, a.name);
      InventoryIs(payloads, a.name);
    }
    forall name, k, a, other, j, b |
      StandsAt(payloads, files, name, k, a) && StandsAt(payloads, files, other, j, b) && a.name == b.name
      ensures name == other && k == j {
      ReceiptsAre(payloads, files, name);
      ReceiptsAre(payloads, files, other);
      assert Stands(Contents(files, name), expected, receipts);
      assert a.name in CoverOf(Contents(files, name)) && b.name in CoverOf(Contents(files, other));
    }
    forall payload | IsNamed(payloads, payload) && !IsReceipt(payload)
      ensures exists name, k, a :: StandsAt(payloads, files, name, k, a) && a.name == payload {
      ReceiptsAre(payloads, files, payload);
      InventoryIs(payloads, payload);
      CoveredAt(payloads, files, payload);
    }
  }

  /** A release is verified exactly if its receipts cover it: every payload but the receipts stands, as the last of its
      name was staged, at exactly one place of one list. */
  lemma VerifiedIsCovered(payloads: seq<Asset>, files: map<Text, Receipt>)
    ensures Partitions(Inventory(payloads), files) <==> IsCoverage(payloads, files)
  {
    hide Partitions, IsCoverage;
    if Partitions(Inventory(payloads), files) {
      PartitionIsCoverage(payloads, files);
    }
    if IsCoverage(payloads, files) {
      CoverageIsPartition(payloads, files);
    }
  }
}
