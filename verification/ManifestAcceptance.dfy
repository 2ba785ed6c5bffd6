/** Exactly which texts the manifest verifier accepts: for every manifest that meets the contract
    the one text its canonical form prints to, and nothing else. */
module ManifestAcceptance {
  import opened Options
  import opened Text
  import opened Json
  import opened JsonPretty
  import opened JsonLayout
  import opened Manifest

  // ----- What the contract asks of a manifest -----

  predicate ValidArtifact(c: Contract, a: Artifact) {
    && 1 <= a.bytes <= c.maxArtifactBytes && IsIdentifier(a.id) && a.mediaType in c.mediaExtensions
    && IsFilename(a.path) && !IsForbiddenName(a.path) && Extension(a.path) == c.mediaExtensions[a.mediaType]
    && IsSha256(a.sha256)
  }

  predicate ValidArtifacts(c: Contract, artifacts: seq<Artifact>) {
    && 1 <= |artifacts| <= c.maxArtifacts
    && (forall i | 0 <= i < |artifacts| :: ValidArtifact(c, artifacts[i]))
    && StrictlyAscending(Ids(artifacts)) && DistinctPaths(artifacts) && TotalBytes(artifacts) <= c.maxTotalBytes
  }

  predicate ValidIds(c: Contract, ids: seq<string>, known: seq<string>) {
    && 1 <= |ids| <= c.maxArtifacts
    && (forall i | 0 <= i < |ids| :: IsIdentifier(ids[i]) && ids[i] in known)
    && DistinctStrings(ids) && Ascending(ids)
  }

  /** An accepted exception names its reference; a satisfied item has none. */
  predicate ValidItem(c: Contract, item: Item, required: string, known: seq<string>) {
    && item.id == required && ValidIds(c, item.artifactIds, known)
    && match item.outcome
       case Satisfied => item.exceptionReference == None
       case AcceptedException => item.exceptionReference.Some? && IsReference(item.exceptionReference.value)
  }

  predicate ValidChecklist(c: Contract, items: seq<Item>, required: seq<string>, known: seq<string>) {
    |items| == |required| && forall i | 0 <= i < |items| :: ValidItem(c, items[i], required[i], known)
  }

  /** The checklist answers its gate's list item by item, and names every artifact. */
  predicate ValidManifest(p: Platform, m: Normalized) {
    && ValidArtifacts(p.contract, m.artifacts)
    && m.gateId in p.contract.checklists
    && ValidChecklist(p.contract, m.checklist, p.contract.checklists[m.gateId], Ids(m.artifacts))
    && |Named(m.checklist)| == |m.artifacts|
    && IsReference(m.evidenceReference) && IsReference(m.reviewerReference) && IsReference(m.scopeReference)
    && p.isTimestamp(m.reviewedAt)
  }

  predicate IsNamed(checklist: seq<Item>, id: string) {
    exists i, j | 0 <= i < |checklist| && 0 <= j < |checklist[i].artifactIds| :: checklist[i].artifactIds[j] == id
  }

  /** Counting the names tells whether some item names every artifact: the names are of artifacts,
      and those have different ids. */
  lemma CountIffAllNamed(checklist: seq<Item>, ids: seq<string>)
    requires StrictlyAscending(ids)
    requires forall i, j | 0 <= i < |checklist| && 0 <= j < |checklist[i].artifactIds| :: checklist[i].artifactIds[j] in ids
    ensures |Named(checklist)| == |ids| <==> forall id | id in ids :: IsNamed(checklist, id)
  {
    var all := set id | id in ids;
    DistinctCount(ids);
    assert Named(checklist) <= all;
    if |Named(checklist)| == |ids| {
      SubsetOfSameSize(Named(checklist), all);
      forall id | id in ids ensures IsNamed(checklist, id) { assert id in Named(checklist); }
    }
    if forall id | id in ids :: IsNamed(checklist, id) {
      assert Named(checklist) == all;
    }
  }

  lemma {:induction false} DistinctCount(ids: seq<string>)
    requires StrictlyAscending(ids)
    ensures |set id | id in ids| == |ids|
  {
    if ids != [] {
      var front, last := ids[..|ids| - 1], ids[|ids| - 1];
      DistinctCount(front);
      forall i | 0 <= i < |front| ensures front[i] != last { LessIsTotal(front[i], last); }
      assert (set id | id in ids) == (set id | id in front) + {last};
    }
  }

  lemma SubsetOfSameSize(a: set<string>, b: set<string>)
    requires a <= b && |a| == |b|
    ensures a == b
  {
    assert b == a + (b - a) && |b| == |a| + |b - a|;
  }

  predicate Fits(c: Contract, text: string) {
    text != "" && Utf8Length(text) <= c.maxManifestBytes && '\0' !in text
  }

  function Document(c: Contract, m: Normalized, digest: string): (ms: seq<Member>)
    ensures |ms| == 10
  {
    Members(c, m) + [Member("packageDigest", Str(digest))]
  }

  // ----- Looking up fields -----

  lemma {:induction false} FieldAt(ms: seq<Member>, i: nat)
    requires i < |ms| && DistinctKeys(ms)
    ensures Field(ms, ms[i].key) == Some(ms[i].value)
  {
    if i > 0 {
      assert ms[0].key != ms[i].key;
      TailMembers(ms);
      FieldAt(ms[1..], i - 1);
    }
  }

  /** Sorting does not change what a field holds. */
  lemma FieldOfSorted(ms: seq<Member>, i: nat)
    requires i < |ms| && DistinctKeys(ms)
    ensures Field(SortMembers(ms), ms[i].key) == Some(ms[i].value)
  {
    SortSorts(ms);
    SortKeepsDistinct(ms);
    var sorted := SortMembers(ms);
    assert ms[i] in multiset(ms);
    var k :| 0 <= k < |sorted| && sorted[k] == ms[i];
    FieldAt(sorted, k);
  }

  // ----- Sorted keys -----

  lemma SortedByFirstCharacter(ms: seq<Member>)
    requires forall i | 0 <= i < |ms| :: ms[i].key != ""
    requires forall i, j | 0 <= i < j < |ms| :: ms[i].key[0] < ms[j].key[0]
    ensures Sorted(ms) && DistinctKeys(ms)
  {}

  function Bare(ms: seq<Member>): seq<Member> { AsMembers(Keys(ms)) }

  lemma {:induction false} InsertBare(m: Member, ms: seq<Member>)
    ensures Bare(InsertMember(m, ms)) == InsertMember(Member(m.key, Null), Bare(ms))
  {
    if ms == [] || !Less(ms[0].key, m.key) {
    } else {
      InsertBare(m, ms[1..]);
      assert Bare(ms)[1..] == Bare(ms[1..]);
      assert Bare([ms[0]] + InsertMember(m, ms[1..])) == [Member(ms[0].key, Null)] + Bare(InsertMember(m, ms[1..]));
    }
  }

  lemma {:induction false} SortBare(ms: seq<Member>)
    ensures Bare(SortMembers(ms)) == SortMembers(Bare(ms))
  {
    if ms != [] {
      SortBare(ms[1..]);
      InsertBare(ms[0], SortMembers(ms[1..]));
      assert Bare(ms)[1..] == Bare(ms[1..]);
    }
  }

  /** An object whose members are sorted has the same sorted keys as before. */
  lemma SortedKeys(ms: seq<Member>)
    ensures SortStrings(Keys(SortMembers(ms))) == SortStrings(Keys(ms))
  {
    SortBare(ms);
    SortSorts(Bare(ms));
    SortOfSorted(SortMembers(Bare(ms)));
  }

  // ----- Documents are in canonical form up to the order of their members -----

  lemma {:induction false} FixedItems(items: seq<Json>)
    requires forall i | 0 <= i < |items| :: Canonical(items[i]) == items[i]
    ensures Canonical(Arr(items)) == Arr(items)
  {
    if items != [] {
      FixedItems(items[1..]);
      assert items == [items[0]] + items[1..];
    }
  }

  lemma {:induction false} FixedMembers(ms: seq<Member>)
    requires forall i | 0 <= i < |ms| :: Canonical(ms[i].value) == ms[i].value
    ensures CanonicalMembers(ms) == ms
  {
    if ms != [] {
      FixedMembers(ms[1..]);
      assert ms == [ms[0]] + ms[1..];
    }
  }

  lemma FixedObject(ms: seq<Member>)
    requires Sorted(ms) && forall i | 0 <= i < |ms| :: Canonical(ms[i].value) == ms[i].value
    ensures Canonical(Obj(ms)) == Obj(ms)
  {
    FixedMembers(ms);
    SortOfSorted(ms);
  }

  lemma StringsAreFixed(ss: seq<string>)
    ensures Canonical(StringArray(ss)) == StringArray(ss)
  {
    FixedItems(StringArray(ss).items);
  }

  lemma ArtifactKeysSorted(a: Artifact)
    ensures Sorted(ArtifactJson(a).members) && DistinctKeys(ArtifactJson(a).members)
  {
    var ms := ArtifactJson(a).members;
    assert ms[0].key[0] == 'b' && ms[1].key[0] == 'i' && ms[2].key[0] == 'm' && ms[3].key[0] == 'p' && ms[4].key[0] == 's';
    SortedByFirstCharacter(ms);
  }

  lemma ArtifactIsFixed(a: Artifact)
    ensures Canonical(ArtifactJson(a)) == ArtifactJson(a)
  {
    ArtifactKeysSorted(a);
    FixedObject(ArtifactJson(a).members);
  }

  lemma ItemKeysSorted(item: Item)
    ensures Sorted(ItemJson(item).members) && DistinctKeys(ItemJson(item).members)
  {
    var ms := ItemJson(item).members;
    assert ms[0].key[0] == 'a' && ms[1].key[0] == 'e' && ms[2].key[0] == 'i' && ms[3].key[0] == 'o';
    SortedByFirstCharacter(ms);
  }

  lemma ItemIsFixed(item: Item)
    ensures Canonical(ItemJson(item)) == ItemJson(item)
  {
    ItemKeysSorted(item);
    StringsAreFixed(item.artifactIds);
    FixedObject(ItemJson(item).members);
  }

  lemma ArraysAreFixed(artifacts: seq<Artifact>, items: seq<Item>)
    ensures Canonical(ArtifactArray(artifacts)) == ArtifactArray(artifacts)
    ensures Canonical(ItemArray(items)) == ItemArray(items)
  {
    forall i | 0 <= i < |artifacts| ensures Canonical(ArtifactJson(artifacts[i])) == ArtifactJson(artifacts[i]) {
      ArtifactIsFixed(artifacts[i]);
    }
    forall i | 0 <= i < |items| ensures Canonical(ItemJson(items[i])) == ItemJson(items[i]) { ItemIsFixed(items[i]); }
    FixedItems(ArtifactArray(artifacts).items);
    FixedItems(ItemArray(items).items);
  }

  /** The members of the document, one by one. */
  lemma DocumentFields(c: Contract, m: Normalized, digest: string)
    ensures var ms := Document(c, m, digest);
            && ms[0] == Member("artifacts", ArtifactArray(m.artifacts)) && ms[1] == Member("checklist", ItemArray(m.checklist))
            && ms[2] == Member("evidenceReference", Str(m.evidenceReference)) && ms[3] == Member("gateId", Str(m.gateId))
            && ms[4] == Member("limitations", StringArray(c.limitations)) && ms[5] == Member("reviewedAt", Str(m.reviewedAt))
            && ms[6] == Member("reviewerReference", Str(m.reviewerReference)) && ms[7] == Member("schema", Str(c.schema))
            && ms[8] == Member("scopeReference", Str(m.scopeReference)) && ms[9] == Member("packageDigest", Str(digest))
  {}

  lemma DocumentIsFixed(c: Contract, m: Normalized, digest: string)
    ensures Canonical(Obj(Document(c, m, digest))) == Obj(SortMembers(Document(c, m, digest)))
  {
    var ms := Document(c, m, digest);
    DocumentFields(c, m, digest);
    ArraysAreFixed(m.artifacts, m.checklist);
    StringsAreFixed(c.limitations);
    FixedMembers(ms);
  }

  /** The keys of the document are the manifest's keys in another order. */
  lemma DocumentIsExact(c: Contract, m: Normalized, digest: string)
    ensures IsExactObject(Obj(SortMembers(Document(c, m, digest))), MANIFEST_KEYS)
  {
    var ms := Document(c, m, digest);
    MemberKeysAreDistinct(c, m, digest);
    SortedKeys(ms);
    DocumentKeysMoved(c, m, digest);
    LastMoved(Bare(ms), AsMembers(MANIFEST_KEYS), 5);
    SortForgetsOrder(Bare(ms), AsMembers(MANIFEST_KEYS));
  }

  lemma DocumentKeysMoved(c: Contract, m: Normalized, digest: string)
    ensures var ks := Keys(Document(c, m, digest));
            && |MANIFEST_KEYS| == 10 && MANIFEST_KEYS[5] == ks[9]
            && (forall i | 0 <= i < 5 :: MANIFEST_KEYS[i] == ks[i]) && (forall i | 5 < i < 10 :: MANIFEST_KEYS[i] == ks[i - 1])
  {
    var ks := Keys(Document(c, m, digest));
    DocumentFields(c, m, digest);
    assert ks[0] == MANIFEST_KEYS[0] && ks[1] == MANIFEST_KEYS[1] && ks[2] == MANIFEST_KEYS[2] && ks[3] == MANIFEST_KEYS[3];
    assert ks[4] == MANIFEST_KEYS[4] && ks[5] == MANIFEST_KEYS[6] && ks[6] == MANIFEST_KEYS[7] && ks[7] == MANIFEST_KEYS[8];
    assert ks[8] == MANIFEST_KEYS[9] && ks[9] == MANIFEST_KEYS[5];
  }

  /** Moving the last member to place `k` keeps the members. */
  lemma LastMoved(a: seq<Member>, b: seq<Member>, k: nat)
    requires |a| == |b| && k < |a| && b[k] == a[|a| - 1]
    requires forall i | 0 <= i < k :: b[i] == a[i]
    requires forall i | k < i < |a| :: b[i] == a[i - 1]
    ensures multiset(a) == multiset(b)
  {
    var n := |a| - 1;
    Pieces(a, k, n);
    Pieces(b, k, k + 1);
    assert b[..k] == a[..k];
    assert b[k..k + 1] == a[n..];
    assert b[k + 1..] == a[k..n];
    Exchange(a[..k], a[k..n], a[n..]);
  }

  lemma Pieces(a: seq<Member>, i: nat, j: nat)
    requires i <= j <= |a|
    ensures a == a[..i] + a[i..j] + a[j..]
  {}

  lemma Exchange(x: seq<Member>, y: seq<Member>, z: seq<Member>)
    ensures multiset(x + y + z) == multiset(x + z + y)
  {}

  // ----- Reading back what was printed -----

  /** What is written under each key of an artifact. */
  lemma ArtifactFields(a: Artifact)
    ensures var ms := ArtifactJson(a).members;
            && |ms| == 5 && Field(ms, "bytes") == Some(Num(a.bytes)) && Field(ms, "id") == Some(Str(a.id))
            && Field(ms, "mediaType") == Some(Str(a.mediaType)) && Field(ms, "path") == Some(Str(a.path))
            && Field(ms, "sha256") == Some(Str(a.sha256))
  {
    var ms := ArtifactJson(a).members;
    ArtifactKeysSorted(a);
    FieldAt(ms, 0);
    FieldAt(ms, 1);
    FieldAt(ms, 2);
    FieldAt(ms, 3);
    FieldAt(ms, 4);
  }

  lemma ArtifactReadsBack(c: Contract, a: Artifact)
    requires ValidArtifact(c, a)
    ensures ParseArtifact(c, ArtifactJson(a)) == Some(a)
  {
    var ms := ArtifactJson(a).members;
    ArtifactKeysSorted(a);
    assert Keys(ms) == ARTIFACT_KEYS;
    FieldAt(ms, 0);
    FieldAt(ms, 1);
    FieldAt(ms, 2);
    FieldAt(ms, 3);
    FieldAt(ms, 4);
  }

  lemma ArtifactsReadBack(c: Contract, artifacts: seq<Artifact>)
    requires ValidArtifacts(c, artifacts)
    ensures NormalArtifacts(c, ParserFor(c), Some(ArtifactArray(artifacts))) == Some(artifacts)
  {
    var items := ArtifactArray(artifacts).items;
    forall i | 0 <= i < |items| ensures ParserFor(c)(items[i]) == Some(artifacts[i]) {
      ArtifactReadsBack(c, artifacts[i]);
    }
    EntriesReadBack(c, ParserFor(c), items, artifacts);
  }

  lemma EntriesReadBack(c: Contract, parse: EntryParser, items: seq<Json>, artifacts: seq<Artifact>)
    requires |items| == |artifacts| && forall i | 0 <= i < |items| :: parse(items[i]) == Some(artifacts[i])
    requires 1 <= |artifacts| <= c.maxArtifacts && StrictlyAscending(Ids(artifacts))
    requires DistinctPaths(artifacts) && TotalBytes(artifacts) <= c.maxTotalBytes
    ensures NormalArtifacts(c, parse, Some(Arr(items))) == Some(artifacts)
  {
    assert ArtifactsOf(parse, items) == artifacts;
  }

  /** For identifiers the joined test is the order. */
  lemma IdsTest(c: Contract, ids: seq<string>)
    requires ids != [] && forall i | 0 <= i < |ids| :: IsIdentifier(ids[i])
    ensures Join(ids, "\0") == Join(SortStrings(ids), "\0") <==> Ascending(ids)
  {
    forall i | 0 <= i < |ids| ensures '\0' !in ids[i] { assert IsIdentifier(ids[i]); }
    JoinedOrderTest(ids);
  }

  lemma IdsReadBack(c: Contract, ids: seq<string>, known: seq<string>)
    requires ValidIds(c, ids, known)
    ensures AreArtifactIds(c, Some(StringArray(ids)), known) && Strings(StringArray(ids).items) == ids
    ensures Join(ids, "\0") == Join(SortStrings(ids), "\0")
  {
    IdsTest(c, ids);
  }

  lemma ItemFields(item: Item)
    ensures var ms := ItemJson(item).members;
            && IsExactObject(ItemJson(item), CHECKLIST_KEYS)
            && Field(ms, "artifactIds") == Some(StringArray(item.artifactIds)) && Field(ms, "id") == Some(Str(item.id))
            && Field(ms, "outcome") == Some(Str(if item.outcome.Satisfied? then "satisfied" else "accepted_exception"))
            && Field(ms, "exceptionReference") ==
               Some(if item.exceptionReference.Some? then Str(item.exceptionReference.value) else Null)
  {
    var ms := ItemJson(item).members;
    ItemKeysSorted(item);
    assert Keys(ms) == CHECKLIST_KEYS;
    FieldAt(ms, 0);
    FieldAt(ms, 1);
    FieldAt(ms, 2);
    FieldAt(ms, 3);
  }

  lemma ItemReadsBack(c: Contract, item: Item, required: string, known: seq<string>)
    requires ValidItem(c, item, required, known)
    ensures ParseItem(c, ItemJson(item), required, known) == Some(item)
  {
    ItemFields(item);
    ItemOfReadsBack(c, item, known);
  }

  lemma ItemOfReadsBack(c: Contract, item: Item, known: seq<string>)
    requires ValidItem(c, item, item.id, known)
    ensures var reference := if item.exceptionReference.Some? then Str(item.exceptionReference.value) else Null;
            ItemOf(c, item.id, known, Some(StringArray(item.artifactIds)), Some(Str(TextOf(item.outcome))), Some(reference)) == Some(item)
  {
    IdsReadBack(c, item.artifactIds, known);
    assert |"satisfied"| != |"accepted_exception"|;
  }

  lemma ChecklistReadsBack(c: Contract, items: seq<Item>, gateId: string, known: seq<string>)
    requires gateId in c.checklists && ValidChecklist(c, items, c.checklists[gateId], known)
    ensures NormalChecklist(c, Some(ItemArray(items)), gateId, known) == Some(items)
  {
    var js := ItemArray(items).items;
    forall i | 0 <= i < |js| ensures ParseItem(c, js[i], c.checklists[gateId][i], known) == Some(items[i]) {
      ItemReadsBack(c, items[i], c.checklists[gateId][i], known);
    }
    var r := NormalChecklist(c, Some(ItemArray(items)), gateId, known).value;
    assert forall i | 0 <= i < |r| :: r[i] == items[i];
    assert r == items;
  }

  lemma DocumentReadsBack(p: Platform, m: Normalized, digest: string)
    requires ValidManifest(p, m)
    ensures var sorted := SortMembers(Document(p.contract, m, digest));
            Normalize(p, sorted, m.gateId) == Some(m) && Field(sorted, "packageDigest") == Some(Str(digest))
  {
    SortedDocumentFields(p.contract, m, digest);
    ArtifactsReadBack(p.contract, m.artifacts);
    ChecklistReadsBack(p.contract, m.checklist, m.gateId, Ids(m.artifacts));
  }

  /** What each field of the printed document holds. */
  lemma SortedDocumentFields(c: Contract, m: Normalized, digest: string)
    ensures var ms := SortMembers(Document(c, m, digest));
            && Field(ms, "artifacts") == Some(ArtifactArray(m.artifacts)) && Field(ms, "checklist") == Some(ItemArray(m.checklist))
            && Field(ms, "evidenceReference") == Some(Str(m.evidenceReference)) && Field(ms, "gateId") == Some(Str(m.gateId))
            && Field(ms, "limitations") == Some(StringArray(c.limitations)) && Field(ms, "reviewedAt") == Some(Str(m.reviewedAt))
            && Field(ms, "reviewerReference") == Some(Str(m.reviewerReference)) && Field(ms, "schema") == Some(Str(c.schema))
            && Field(ms, "scopeReference") == Some(Str(m.scopeReference)) && Field(ms, "packageDigest") == Some(Str(digest))
  {
    var ms := Document(c, m, digest);
    MemberKeysAreDistinct(c, m, digest);
    DocumentFields(c, m, digest);
    FieldOfSorted(ms, 0);
    FieldOfSorted(ms, 1);
    FieldOfSorted(ms, 2);
    FieldOfSorted(ms, 3);
    FieldOfSorted(ms, 4);
    FieldOfSorted(ms, 5);
    FieldOfSorted(ms, 6);
    FieldOfSorted(ms, 7);
    FieldOfSorted(ms, 8);
    FieldOfSorted(ms, 9);
  }

  // ----- What is accepted is valid -----

  lemma ParsedArtifactIsValid(c: Contract, entry: Json)
    requires ParseArtifact(c, entry).Some?
    ensures ValidArtifact(c, ParseArtifact(c, entry).value)
  {}

  lemma NormalArtifactsAreValid(c: Contract, value: Option<Json>)
    requires NormalArtifacts(c, ParserFor(c), value).Some?
    ensures ValidArtifacts(c, NormalArtifacts(c, ParserFor(c), value).value)
  {
    var items := value.value.items;
    var artifacts := ArtifactsOf(ParserFor(c), items);
    forall i | 0 <= i < |artifacts| ensures ValidArtifact(c, artifacts[i]) {
      assert ParserFor(c)(items[i]).Some?;
      ParsedArtifactIsValid(c, items[i]);
    }
  }

  lemma ParsedItemIsValid(c: Contract, entry: Json, required: string, known: seq<string>)
    requires ParseItem(c, entry, required, known).Some?
    ensures ValidItem(c, ParseItem(c, entry, required, known).value, required, known)
  {
    var ids := Strings(Field(entry.members, "artifactIds").value.items);
    IdsTest(c, ids);
  }

  lemma NormalChecklistIsValid(c: Contract, value: Option<Json>, gateId: string, known: seq<string>)
    requires gateId in c.checklists && NormalChecklist(c, value, gateId, known).Some?
    ensures ValidChecklist(c, NormalChecklist(c, value, gateId, known).value, c.checklists[gateId], known)
  {
    var items, required := value.value.items, c.checklists[gateId];
    forall i | 0 <= i < |items| ensures ValidItem(c, ParseItem(c, items[i], required[i], known).value, required[i], known) {
      ParsedItemIsValid(c, items[i], required[i], known);
    }
  }

  lemma NormalizedIsValid(p: Platform, ms: seq<Member>, gate: string)
    requires Normalize(p, ms, gate).Some?
    ensures ValidManifest(p, Normalize(p, ms, gate).value) && Normalize(p, ms, gate).value.gateId == gate
  {
    var artifacts := NormalArtifacts(p.contract, ParserFor(p.contract), Field(ms, "artifacts"));
    NormalArtifactsAreValid(p.contract, Field(ms, "artifacts"));
    NormalChecklistIsValid(p.contract, Field(ms, "checklist"), gate, Ids(artifacts.value));
  }

  // ----- The characterisation -----

  /** `JSON.parse` reads back what the printer wrote. */
  predicate PrintedTextParses(p: Platform, m: Normalized, digest: string) {
    p.parse(PresentedText(p.contract, m, digest)) == Some(Canonical(Obj(Document(p.contract, m, digest))))
  }

  /** A text is accepted as a manifest exactly when the manifest meets the contract, the digest is
      that of its canonical form, and the text is the one its canonical form prints to. */
  lemma AcceptedIffPresented(p: Platform, text: string, gate: string, m: Normalized, digest: string)
    requires PrintedTextParses(p, m, digest)
    ensures Verify(p, text, gate) == Some(Verified(m, digest)) <==>
            && ValidManifest(p, m) && m.gateId == gate
            && IsSha256(digest) && digest == p.sha256(DigestedText(p.contract, m))
            && text == PresentedText(p.contract, m, digest) && Fits(p.contract, text)
  {
    if Verify(p, text, gate) == Some(Verified(m, digest)) {
      NormalizedIsValid(p, p.parse(text).value.members, gate);
    }
    if ValidManifest(p, m) && m.gateId == gate && text == PresentedText(p.contract, m, digest) {
      DocumentIsFixed(p.contract, m, digest);
      DocumentIsExact(p.contract, m, digest);
      DocumentReadsBack(p, m, digest);
    }
  }

  /** The accepted text, without the printer: the compact form of the sorted document, laid out with
      two blanks per open bracket, and a line break at the end. */
  lemma PresentedIsLaidOut(c: Contract, m: Normalized, digest: string)
    ensures PresentedText(c, m, digest) == LayOut(Compact(Canonical(Obj(Document(c, m, digest)))), 0) + "\n"
  {
    PrettyIsLaidOut(Canonical(Obj(Document(c, m, digest))));
  }

  /** Exactly which text is accepted, in those terms. */
  lemma AcceptedIffLaidOut(p: Platform, text: string, gate: string, m: Normalized, digest: string)
    requires PrintedTextParses(p, m, digest)
    ensures Verify(p, text, gate) == Some(Verified(m, digest)) <==>
            && ValidManifest(p, m) && m.gateId == gate
            && IsSha256(digest) && digest == p.sha256(Compact(Canonical(Obj(Members(p.contract, m)))))
            && text == LayOut(Compact(Canonical(Obj(Document(p.contract, m, digest)))), 0) + "\n" && Fits(p.contract, text)
  {
    AcceptedIffPresented(p, text, gate, m, digest);
    PresentedIsLaidOut(p.contract, m, digest);
  }

  // ----- One manifest per text -----

  lemma ArtifactsFromArray(a: seq<Artifact>, b: seq<Artifact>)
    requires ArtifactArray(a) == ArtifactArray(b)
    ensures a == b
  {
    var x, y := ArtifactArray(a).items, ArtifactArray(b).items;
    assert |x| == |a| && |y| == |b|;
    forall i | 0 <= i < |a| ensures a[i] == b[i] {
      assert x[i] == ArtifactJson(a[i]) && y[i] == ArtifactJson(b[i]);
      ArtifactFromJson(a[i], b[i]);
    }
  }

  lemma ArtifactFromJson(a: Artifact, b: Artifact)
    requires ArtifactJson(a) == ArtifactJson(b)
    ensures a == b
  {
    var x, y := ArtifactJson(a).members, ArtifactJson(b).members;
    assert x[0] == y[0] && x[1] == y[1] && x[2] == y[2] && x[3] == y[3] && x[4] == y[4];
  }

  lemma StringsFromArray(a: seq<string>, b: seq<string>)
    requires StringArray(a) == StringArray(b)
    ensures a == b
  {
    var x, y := StringArray(a).items, StringArray(b).items;
    assert |x| == |a| && |y| == |b|;
    assert forall i | 0 <= i < |x| :: x[i] == Str(a[i]) && y[i] == Str(b[i]);
  }

  lemma ItemFromJson(a: Item, b: Item)
    requires ItemJson(a) == ItemJson(b)
    ensures a == b
  {
    var x, y := ItemJson(a).members, ItemJson(b).members;
    assert x[0] == y[0] && x[1] == y[1] && x[2] == y[2] && x[3] == y[3];
    StringsFromArray(a.artifactIds, b.artifactIds);
    assert |"satisfied"| != |"accepted_exception"|;
  }

  lemma ItemsFromArray(a: seq<Item>, b: seq<Item>)
    requires ItemArray(a) == ItemArray(b)
    ensures a == b
  {
    var x, y := ItemArray(a).items, ItemArray(b).items;
    assert |x| == |a| && |y| == |b|;
    forall i | 0 <= i < |a| ensures a[i] == b[i] {
      assert x[i] == ItemJson(a[i]) && y[i] == ItemJson(b[i]);
      ItemFromJson(a[i], b[i]);
    }
  }

  /** No text is printed from two manifests, or from one with two digests. */
  lemma TextDeterminesManifest(c: Contract, m: Normalized, d: string, n: Normalized, e: string)
    requires PresentedText(c, m, d) == PresentedText(c, n, e)
    ensures m == n && d == e
  {
    PrettyReads(Canonical(Obj(Document(c, m, d))), Canonical(Obj(Document(c, n, e))), 0, "\n", "\n");
    DocumentIsFixed(c, m, d);
    DocumentIsFixed(c, n, e);
    SortedDocumentFields(c, m, d);
    SortedDocumentFields(c, n, e);
    ArtifactsFromArray(m.artifacts, n.artifacts);
    ItemsFromArray(m.checklist, n.checklist);
  }

  /** So one parser can read back every printed manifest at once. */
  lemma SomeParserReadsAll(p: Platform) returns (q: Platform)
    ensures q.contract == p.contract && q.sha256 == p.sha256 && q.isTimestamp == p.isTimestamp
    ensures forall m, digest :: PrintedTextParses(q, m, digest)
  {
    q := p.(parse := s => ReadPretty(s));
    forall m, digest ensures PrintedTextParses(q, m, digest) {
      ReadsWhatWasPrinted(Canonical(Obj(Document(p.contract, m, digest))));
    }
  }
}
