/** The offline verifier of pilot-gate manifests (src/lib/pilot-gate-manifest-import.ts). The
    contract file, `JSON.parse`, SHA-256 in hexadecimal and the ISO timestamp test are
    parameters, so everything here holds for every contract. */
module Manifest {
  import opened Options
  import opened Text
  import opened Json

  datatype Contract = Contract(
    schema: string, limitations: seq<string>, checklists: map<string, seq<string>>, mediaExtensions: map<string, string>,
    maxManifestBytes: nat, maxArtifacts: nat, maxArtifactBytes: nat, maxTotalBytes: nat)

  datatype Platform = Platform(
    contract: Contract, parse: string -> Option<Json>, sha256: string -> string, isTimestamp: string -> bool)

  datatype Artifact = Artifact(bytes: nat, id: string, mediaType: string, path: string, sha256: string)

  datatype Outcome = Satisfied | AcceptedException

  datatype Item = Item(artifactIds: seq<string>, exceptionReference: Option<string>, id: string, outcome: Outcome)

  /** What the verifier rebuilds from a text, apart from the package digest. */
  datatype Normalized = Normalized(
    artifacts: seq<Artifact>, checklist: seq<Item>, evidenceReference: string, gateId: string,
    reviewedAt: string, reviewerReference: string, scopeReference: string)

  // ----- Patterns -----

  predicate IsLowerLetter(c: char) { 'a' <= c <= 'z' }
  predicate IsDecimal(c: char) { '0' <= c <= '9' }
  predicate IsAlphanumeric(c: char) { IsLowerLetter(c) || 'A' <= c <= 'Z' || IsDecimal(c) }

  predicate IsIdentifier(s: string) {
    && 1 <= |s| <= 64 && IsLowerLetter(s[0])
    && forall i | 0 <= i < |s| :: IsLowerLetter(s[i]) || IsDecimal(s[i]) || s[i] == '_' || s[i] == '-'
  }

  predicate IsFilename(s: string) {
    && 1 <= |s| <= 128 && IsAlphanumeric(s[0])
    && forall i | 0 <= i < |s| :: IsAlphanumeric(s[i]) || s[i] in "._-"
  }

  predicate IsReference(s: string) {
    && 1 <= |s| <= 160 && IsAlphanumeric(s[0])
    && forall i | 0 <= i < |s| :: IsAlphanumeric(s[i]) || s[i] in "._:-"
  }

  predicate IsSha256(s: string) { |s| == 64 && forall i | 0 <= i < |s| :: IsDecimal(s[i]) || 'a' <= s[i] <= 'f' }

  const FORBIDDEN_WORDS := ["credential", "credentials", "env", "private", "secret", "settings", "token"]

  predicate WordAt(s: string, w: string, i: nat) {
    && i + |w| <= |s| && s[i..i + |w|] == w
    && (i == 0 || s[i - 1] in "._-") && (i + |w| == |s| || s[i + |w|] in "._-")
  }

  predicate IsForbiddenName(s: string) {
    var lower := Lower(s);
    || (exists w, i :: w in FORBIDDEN_WORDS && 0 <= i < |lower| && WordAt(lower, w, i))
    || (exists i :: 0 <= i < |lower| && SettingsFileAt(lower, i))
  }

  predicate SettingsFileAt(s: string, i: nat) { i + 13 <= |s| && s[i..i + 13] == "vasi.settings" }

  function LastDot(s: string): int {
    if s == "" then -1 else if s[|s| - 1] == '.' then |s| - 1 else LastDot(s[..|s| - 1])
  }

  /** `path.slice(path.lastIndexOf("."))`: from the last dot, or the last character. */
  function Extension(s: string): string
    requires s != ""
  {
    var dot := LastDot(s);
    Lower(if 0 <= dot < |s| then s[dot..] else s[|s| - 1..])
  }

  // ----- Reading objects -----

  function Keys(ms: seq<Member>): (ks: seq<string>)
    ensures |ks| == |ms|
  {
    seq(|ms|, i requires 0 <= i < |ms| => ms[i].key)
  }

  function Field(ms: seq<Member>, key: string): Option<Json> {
    if ms == [] then None else if ms[0].key == key then Some(ms[0].value) else Field(ms[1..], key)
  }

  function AsMembers(ss: seq<string>): (ms: seq<Member>)
    ensures |ms| == |ss|
  {
    seq(|ss|, i requires 0 <= i < |ss| => Member(ss[i], Null))
  }

  /** `[...ss].sort()`. */
  function SortStrings(ss: seq<string>): seq<string> { Keys(SortMembers(AsMembers(ss))) }

  predicate Ascending(ss: seq<string>) { forall i, j | 0 <= i < j < |ss| :: !Less(ss[j], ss[i]) }

  lemma SortFixesAscending(ss: seq<string>)
    ensures SortStrings(ss) == ss <==> Ascending(ss)
  {
    var ms := AsMembers(ss);
    SortSorts(ms);
    if Ascending(ss) { SortOfSorted(ms); }
  }

  predicate NulFree(ss: seq<string>) { forall i | 0 <= i < |ss| :: '\0' !in ss[i] }

  lemma SortKeepsNulFree(ss: seq<string>)
    requires NulFree(ss)
    ensures NulFree(SortStrings(ss)) && |SortStrings(ss)| == |ss|
  {
    var ms := AsMembers(ss);
    var sorted := SortMembers(ms);
    SortSorts(ms);
    assert |sorted| == |multiset(sorted)| == |ms|;
    forall i | 0 <= i < |sorted| ensures '\0' !in sorted[i].key {
      assert sorted[i] in multiset(ms);
      var k :| 0 <= k < |ms| && ms[k] == sorted[i];
      assert sorted[i].key == ss[k];
    }
  }

  /** Comparing the NUL-joined list with its NUL-joined sorted copy tests the order, as long as no
      entry holds a NUL. */
  lemma JoinedOrderTest(ss: seq<string>)
    requires ss != [] && NulFree(ss)
    ensures Join(ss, "\0") == Join(SortStrings(ss), "\0") <==> Ascending(ss)
  {
    SortKeepsNulFree(ss);
    SplitOfJoin(ss, '\0');
    SplitOfJoin(SortStrings(ss), '\0');
    SortFixesAscending(ss);
  }

  /** `exactObject`: an object whose sorted keys, joined by NUL, are those expected. */
  predicate IsExactObject(v: Json, keys: seq<string>) {
    v.Obj? && Join(SortStrings(Keys(v.members)), "\0") == Join(SortStrings(keys), "\0")
  }

  predicate IsString(v: Option<Json>) { v.Some? && v.value.Str? }

  // ----- Artifacts -----

  const ARTIFACT_KEYS := ["bytes", "id", "mediaType", "path", "sha256"]

  /** Everything `normalizeArtifacts` asks of one entry on its own. */
  function ParseArtifact(c: Contract, entry: Json): Option<Artifact> {
    if !IsExactObject(entry, ARTIFACT_KEYS) then None else
    var bytes, id, mediaType := Field(entry.members, "bytes"), Field(entry.members, "id"), Field(entry.members, "mediaType");
    var path, sha := Field(entry.members, "path"), Field(entry.members, "sha256");
    if !(bytes.Some? && bytes.value.Num? && 1 <= bytes.value.n <= c.maxArtifactBytes) then None
    else if !(IsString(id) && IsIdentifier(id.value.s)) then None
    else if !(IsString(mediaType) && mediaType.value.s in c.mediaExtensions) then None
    else if !(IsString(path) && IsFilename(path.value.s) && !IsForbiddenName(path.value.s)) then None
    else if Extension(path.value.s) != c.mediaExtensions[mediaType.value.s] then None
    else if !(IsString(sha) && IsSha256(sha.value.s)) then None
    else Some(Artifact(bytes.value.n, id.value.s, mediaType.value.s, path.value.s, sha.value.s))
  }

  function Ids(artifacts: seq<Artifact>): (ids: seq<string>)
    ensures |ids| == |artifacts|
  {
    seq(|artifacts|, i requires 0 <= i < |artifacts| => artifacts[i].id)
  }

  function TotalBytes(artifacts: seq<Artifact>): nat {
    if artifacts == [] then 0 else TotalBytes(artifacts[..|artifacts| - 1]) + artifacts[|artifacts| - 1].bytes
  }

  predicate StrictlyAscending(ss: seq<string>) {
    forall i, j | 0 <= i < j < |ss| :: Less(ss[i], ss[j])
  }

  predicate DistinctPaths(artifacts: seq<Artifact>) {
    forall i, j | 0 <= i < j < |artifacts| :: artifacts[i].path != artifacts[j].path
  }

  /** The check of one entry, kept apart from the pass over all of them. */
  type EntryParser = Json -> Option<Artifact>

  ghost predicate NamesIdentifiers(parse: EntryParser) {
    forall e :: parse(e).Some? ==> IsIdentifier(parse(e).value.id)
  }

  function ParserFor(c: Contract): EntryParser { e => ParseArtifact(c, e) }

  lemma ParserNamesIdentifiers(c: Contract)
    ensures NamesIdentifiers(ParserFor(c))
  {}

  predicate AllArtifacts(parse: EntryParser, items: seq<Json>) {
    forall i | 0 <= i < |items| :: parse(items[i]).Some?
  }

  function ArtifactsOf(parse: EntryParser, items: seq<Json>): (artifacts: seq<Artifact>)
    requires AllArtifacts(parse, items)
    ensures |artifacts| == |items|
  {
    seq(|items|, i requires 0 <= i < |items| => parse(items[i]).value)
  }

  /** The artifact list a manifest may carry: bounded in number and size, every entry valid, ids
      strictly ascending, and no path twice. */
  function NormalArtifacts(c: Contract, parse: EntryParser, value: Option<Json>): Option<seq<Artifact>> {
    if !(value.Some? && value.value.Arr? && 1 <= |value.value.items| <= c.maxArtifacts) then None
    else if !AllArtifacts(parse, value.value.items) then None
    else
      var artifacts := ArtifactsOf(parse, value.value.items);
      if StrictlyAscending(Ids(artifacts)) && DistinctPaths(artifacts) && TotalBytes(artifacts) <= c.maxTotalBytes
      then Some(artifacts) else None
  }

  lemma IdsOfPrefix(artifacts: seq<Artifact>, a: Artifact)
    ensures Ids(artifacts + [a]) == Ids(artifacts) + [a.id]
    ensures TotalBytes(artifacts + [a]) == TotalBytes(artifacts) + a.bytes
  {
    assert (artifacts + [a])[..|artifacts|] == artifacts;
  }

  function IdSet(artifacts: seq<Artifact>): set<string> { set a | a in artifacts :: a.id }
  function PathSet(artifacts: seq<Artifact>): set<string> { set a | a in artifacts :: a.path }

  /** Every entry is valid, and no id or path occurs twice. */
  ghost predicate Scannable(parse: EntryParser, items: seq<Json>) {
    && AllArtifacts(parse, items)
    && DistinctPaths(ArtifactsOf(parse, items)) && DistinctStrings(Ids(ArtifactsOf(parse, items)))
  }

  /** What the pass has established about the entries it has seen. */
  ghost predicate Scanned(parse: EntryParser, items: seq<Json>, artifacts: seq<Artifact>) {
    Scannable(parse, items) && artifacts == ArtifactsOf(parse, items)
  }

  lemma SetsGrow(artifacts: seq<Artifact>, a: Artifact)
    ensures IdSet(artifacts + [a]) == IdSet(artifacts) + {a.id}
    ensures PathSet(artifacts + [a]) == PathSet(artifacts) + {a.path}
  {
    var grown := artifacts + [a];
    assert forall b :: b in grown <==> b in artifacts || b == a;
  }

  lemma DistinctGrow(artifacts: seq<Artifact>, a: Artifact)
    requires DistinctPaths(artifacts) && DistinctStrings(Ids(artifacts))
    requires a.id !in IdSet(artifacts) && a.path !in PathSet(artifacts)
    ensures DistinctPaths(artifacts + [a]) && DistinctStrings(Ids(artifacts + [a]))
  {
    forall i | 0 <= i < |artifacts| ensures artifacts[i].id != a.id && artifacts[i].path != a.path {
      assert artifacts[i] in artifacts;
    }
    IdsOfPrefix(artifacts, a);
  }

  lemma ScanOneMore(parse: EntryParser, items: seq<Json>, item: Json, artifacts: seq<Artifact>, a: Artifact)
    requires Scanned(parse, items, artifacts) && parse(item) == Some(a)
    requires a.id !in IdSet(artifacts) && a.path !in PathSet(artifacts)
    ensures Scanned(parse, items + [item], artifacts + [a])
  {
    DistinctGrow(artifacts, a);
    assert ArtifactsOf(parse, items + [item]) == artifacts + [a];
  }

  /** An entry that repeats an id or a path rules the list out. */
  lemma ClashRefused(parse: EntryParser, items: seq<Json>, index: nat, front: seq<Artifact>, a: Artifact)
    requires index < |items| && Scanned(parse, items[..index], front) && parse(items[index]) == Some(a)
    requires a.id in IdSet(front) || a.path in PathSet(front)
    ensures !Scannable(parse, items)
  {
    if AllArtifacts(parse, items) {
      var all := ArtifactsOf(parse, items);
      var i :| 0 <= i < |front| && (front[i].id == a.id || front[i].path == a.path);
      assert all[i] == front[i] by { assert items[..index][i] == items[i]; }
      assert all[index] == a;
      assert Ids(all)[i] == front[i].id && Ids(all)[index] == a.id;
    }
  }

  /** The pass that grows the sets of ids and paths and the running total. */
  method ScanArtifacts(parse: EntryParser, items: seq<Json>) returns (scanned: Option<seq<Artifact>>, totalBytes: nat)
    ensures scanned.Some? ==> Scanned(parse, items, scanned.value) && totalBytes == TotalBytes(scanned.value)
    ensures scanned.None? ==> !Scannable(parse, items)
  {
    var ids: set<string>, paths: set<string> := {}, {};
    var artifacts: seq<Artifact> := [];
    totalBytes := 0;
    for index := 0 to |items|
      invariant Scanned(parse, items[..index], artifacts)
      invariant ids == IdSet(artifacts) && paths == PathSet(artifacts) && totalBytes == TotalBytes(artifacts)
    {
      var parsed := parse(items[index]);
      if parsed.None? { return None, totalBytes; }
      var artifact := parsed.value;
      if artifact.id in ids || artifact.path in paths {
        ClashRefused(parse, items, index, artifacts, artifact);
        return None, totalBytes;
      }
      assert items[..index + 1] == items[..index] + [items[index]];
      ScanOneMore(parse, items[..index], items[index], artifacts, artifact);
      SetsGrow(artifacts, artifact);
      IdsOfPrefix(artifacts, artifact);
      ids, paths := ids + {artifact.id}, paths + {artifact.path};
      totalBytes := totalBytes + artifact.bytes;
      artifacts := artifacts + [artifact];
    }
    assert items[..|items|] == items;
    scanned := Some(artifacts);
  }

  lemma NormalAreScannable(c: Contract, parse: EntryParser, items: seq<Json>)
    requires NormalArtifacts(c, parse, Some(Arr(items))).Some?
    ensures Scannable(parse, items)
  {
    var ids := Ids(ArtifactsOf(parse, items));
    forall i, j | 0 <= i < j < |ids| ensures ids[i] != ids[j] { LessIsTotal(ids[i], ids[j]); }
  }

  /** `normalizeArtifacts`: the pass, the bound on the total, and the order test on the joined ids. */
  method NormalizeArtifacts(c: Contract, parse: EntryParser, value: Option<Json>) returns (r: Option<seq<Artifact>>)
    requires NamesIdentifiers(parse)
    ensures r == NormalArtifacts(c, parse, value)
  {
    if !(value.Some? && value.value.Arr? && 1 <= |value.value.items| <= c.maxArtifacts) { return None; }
    var items := value.value.items;
    if NormalArtifacts(c, parse, value).Some? { NormalAreScannable(c, parse, items); }
    var scanned, totalBytes := ScanArtifacts(parse, items);
    if scanned.None? { return None; }
    var artifacts := scanned.value;
    if totalBytes > c.maxTotalBytes { return None; }
    JoinedIdsTest(artifacts);
    if Join(Ids(artifacts), "\0") != Join(SortStrings(Ids(artifacts)), "\0") { return None; }
    r := Some(artifacts);
  }

  predicate DistinctStrings(ss: seq<string>) { forall i, j | 0 <= i < j < |ss| :: ss[i] != ss[j] }

  /** For distinct identifiers the joined test means strictly ascending. */
  lemma JoinedIdsTest(artifacts: seq<Artifact>)
    requires artifacts != [] && DistinctStrings(Ids(artifacts))
    requires forall i | 0 <= i < |artifacts| :: IsIdentifier(artifacts[i].id)
    ensures Join(Ids(artifacts), "\0") == Join(SortStrings(Ids(artifacts)), "\0") <==> StrictlyAscending(Ids(artifacts))
  {
    var ids := Ids(artifacts);
    forall i | 0 <= i < |ids| ensures '\0' !in ids[i] { assert IsIdentifier(artifacts[i].id); }
    JoinedOrderTest(ids);
    forall i, j | 0 <= i < j < |ids| ensures Less(ids[i], ids[j]) <==> !Less(ids[j], ids[i]) {
      LessIsTotal(ids[i], ids[j]);
    }
  }

  // ----- The checklist -----

  const CHECKLIST_KEYS := ["artifactIds", "exceptionReference", "id", "outcome"]

  predicate AreArtifactIds(c: Contract, v: Option<Json>, known: seq<string>) {
    && v.Some? && v.value.Arr? && 1 <= |v.value.items| <= c.maxArtifacts
    && forall i | 0 <= i < |v.value.items| ::
         v.value.items[i].Str? && IsIdentifier(v.value.items[i].s) && v.value.items[i].s in known
  }

  function Strings(items: seq<Json>): (ss: seq<string>)
    requires forall i | 0 <= i < |items| :: items[i].Str?
    ensures |ss| == |items|
  {
    seq(|items|, i requires 0 <= i < |items| => items[i].s)
  }

  function ParseItem(c: Contract, entry: Json, required: string, known: seq<string>): Option<Item> {
    if !IsExactObject(entry, CHECKLIST_KEYS) || Field(entry.members, "id") != Some(Str(required)) then None else
    ItemOf(c, required, known, Field(entry.members, "artifactIds"), Field(entry.members, "outcome"),
           Field(entry.members, "exceptionReference"))
  }

  function ItemOf(
    c: Contract, required: string, known: seq<string>, ids: Option<Json>, outcome: Option<Json>, reference: Option<Json>): Option<Item>
  {
    if !AreArtifactIds(c, ids, known) then None else
    var artifactIds := Strings(ids.value.items);
    if !DistinctStrings(artifactIds) || Join(artifactIds, "\0") != Join(SortStrings(artifactIds), "\0") then None
    else if outcome == Some(Str("accepted_exception")) then
      if IsString(reference) && IsReference(reference.value.s)
      then Some(Item(artifactIds, Some(reference.value.s), required, AcceptedException)) else None
    else if outcome == Some(Str("satisfied")) && reference == Some(Null)
    then Some(Item(artifactIds, None, required, Satisfied))
    else None
  }

  predicate AllItems(c: Contract, items: seq<Json>, required: seq<string>, known: seq<string>) {
    |items| == |required| && forall i | 0 <= i < |items| :: ParseItem(c, items[i], required[i], known).Some?
  }

  function NormalChecklist(c: Contract, value: Option<Json>, gateId: string, known: seq<string>): Option<seq<Item>>
    requires gateId in c.checklists
  {
    var required := c.checklists[gateId];
    if !(value.Some? && value.value.Arr? && AllItems(c, value.value.items, required, known)) then None
    else
      var items := value.value.items;
      Some(seq(|items|, i requires 0 <= i < |items| => ParseItem(c, items[i], required[i], known).value))
  }

  // ----- The documents that are digested and printed -----

  function TextOf(outcome: Outcome): string {
    if outcome.Satisfied? then "satisfied" else "accepted_exception"
  }

  function StringArray(ss: seq<string>): Json { Arr(seq(|ss|, i requires 0 <= i < |ss| => Str(ss[i]))) }

  function ArtifactJson(a: Artifact): Json {
    Obj([Member("bytes", Num(a.bytes)), Member("id", Str(a.id)), Member("mediaType", Str(a.mediaType)),
         Member("path", Str(a.path)), Member("sha256", Str(a.sha256))])
  }

  function ItemJson(item: Item): Json {
    Obj([Member("artifactIds", StringArray(item.artifactIds)),
         Member("exceptionReference", if item.exceptionReference.Some? then Str(item.exceptionReference.value) else Null),
         Member("id", Str(item.id)), Member("outcome", Str(TextOf(item.outcome)))])
  }

  function ArtifactArray(artifacts: seq<Artifact>): Json {
    Arr(seq(|artifacts|, i requires 0 <= i < |artifacts| => ArtifactJson(artifacts[i])))
  }

  function ItemArray(items: seq<Item>): Json {
    Arr(seq(|items|, i requires 0 <= i < |items| => ItemJson(items[i])))
  }

  function Members(c: Contract, m: Normalized): seq<Member> {
    [Member("artifacts", ArtifactArray(m.artifacts)),
     Member("checklist", ItemArray(m.checklist)),
     Member("evidenceReference", Str(m.evidenceReference)),
     Member("gateId", Str(m.gateId)),
     Member("limitations", StringArray(c.limitations)),
     Member("reviewedAt", Str(m.reviewedAt)),
     Member("reviewerReference", Str(m.reviewerReference)),
     Member("schema", Str(c.schema)),
     Member("scopeReference", Str(m.scopeReference))]
  }

  /** `digestCanonical(normalized)` hashes this text. */
  function DigestedText(c: Contract, m: Normalized): string { Compact(Canonical(Obj(Members(c, m)))) }

  /** `prettyCanonicalJSON({ ...normalized, packageDigest })`. */
  function PresentedText(c: Contract, m: Normalized, packageDigest: string): string {
    Pretty(Canonical(Obj(Members(c, m) + [Member("packageDigest", Str(packageDigest))])), 0) + "\n"
  }

  // ----- The verifier -----

  datatype Verified = Verified(manifest: Normalized, packageDigest: string)

  const MANIFEST_KEYS := ["artifacts", "checklist", "evidenceReference", "gateId", "limitations", "packageDigest",
                          "reviewedAt", "reviewerReference", "schema", "scopeReference"]

  predicate IsReferenceField(v: Option<Json>) { IsString(v) && IsReference(v.value.s) }

  /** The artifacts that some checklist item names. */
  function Named(checklist: seq<Item>): set<string> {
    set i, j | 0 <= i < |checklist| && 0 <= j < |checklist[i].artifactIds| :: checklist[i].artifactIds[j]
  }

  /** What the parsed document says, if it is a manifest of the expected gate. */
  function Normalize(p: Platform, ms: seq<Member>, expectedGate: string): Option<Normalized> {
    var c := p.contract;
    var gate, reviewedAt := Field(ms, "gateId"), Field(ms, "reviewedAt");
    var evidence, reviewer, scope :=
      Field(ms, "evidenceReference"), Field(ms, "reviewerReference"), Field(ms, "scopeReference");
    if Field(ms, "schema") != Some(Str(c.schema)) || Field(ms, "limitations") != Some(StringArray(c.limitations)) then None
    else if !(IsString(gate) && gate.value.s in c.checklists && gate.value.s == expectedGate) then None
    else
      var artifacts := NormalArtifacts(c, ParserFor(c), Field(ms, "artifacts"));
      if artifacts.None? then None else
      var checklist := NormalChecklist(c, Field(ms, "checklist"), expectedGate, Ids(artifacts.value));
      if checklist.None? || |Named(checklist.value)| != |artifacts.value| then None
      else if !(IsReferenceField(evidence) && IsReferenceField(reviewer) && IsReferenceField(scope)) then None
      else if !(IsString(reviewedAt) && p.isTimestamp(reviewedAt.value.s)) then None
      else Some(Normalized(artifacts.value, checklist.value, evidence.value.s, expectedGate,
                           reviewedAt.value.s, reviewer.value.s, scope.value.s))
  }

  /** `verifyPilotGateManifestText`. */
  function Verify(p: Platform, text: string, expectedGate: string): Option<Verified> {
    var c := p.contract;
    if text == "" || Utf8Length(text) > c.maxManifestBytes || '\0' in text then None else
    var parsed := p.parse(text);
    if parsed.None? || !IsExactObject(parsed.value, MANIFEST_KEYS) then None else
    var ms := parsed.value.members;
    var normalized, digest := Normalize(p, ms, expectedGate), Field(ms, "packageDigest");
    if normalized.None? || !(IsString(digest) && IsSha256(digest.value.s)) then None
    else if p.sha256(DigestedText(c, normalized.value)) != digest.value.s then None
    else if PresentedText(c, normalized.value, digest.value.s) != text then None
    else Some(Verified(normalized.value, digest.value.s))
  }

  /** The verifier as it runs, with the artifact list checked in one pass. */
  method VerifyText(p: Platform, text: string, expectedGate: string) returns (r: Option<Verified>)
    ensures r == Verify(p, text, expectedGate)
  {
    if text == "" || Utf8Length(text) > p.contract.maxManifestBytes || '\0' in text { return None; }
    var parsed := p.parse(text);
    if parsed.None? || !IsExactObject(parsed.value, MANIFEST_KEYS) { return None; }
    var ms := parsed.value.members;
    var normalized := NormalizeManifest(p, ms, expectedGate);
    if normalized.None? { return None; }
    var digest := Field(ms, "packageDigest");
    if !(IsString(digest) && IsSha256(digest.value.s)) { return None; }
    if p.sha256(DigestedText(p.contract, normalized.value)) != digest.value.s { return None; }
    if PresentedText(p.contract, normalized.value, digest.value.s) != text { return None; }
    r := Some(Verified(normalized.value, digest.value.s));
  }

  method NormalizeManifest(p: Platform, ms: seq<Member>, expectedGate: string) returns (r: Option<Normalized>)
    ensures r == Normalize(p, ms, expectedGate)
  {
    var c := p.contract;
    if Field(ms, "schema") != Some(Str(c.schema)) || Field(ms, "limitations") != Some(StringArray(c.limitations)) { return None; }
    var gate := Field(ms, "gateId");
    if !(IsString(gate) && gate.value.s in c.checklists && gate.value.s == expectedGate) { return None; }
    ParserNamesIdentifiers(c);
    var artifacts := NormalizeArtifacts(c, ParserFor(c), Field(ms, "artifacts"));
    if artifacts.None? { return None; }
    var checklist := NormalChecklist(c, Field(ms, "checklist"), expectedGate, Ids(artifacts.value));
    if checklist.None? || |Named(checklist.value)| != |artifacts.value| { return None; }
    var evidence, reviewedAt := Field(ms, "evidenceReference"), Field(ms, "reviewedAt");
    var reviewer, scope := Field(ms, "reviewerReference"), Field(ms, "scopeReference");
    if !(IsReferenceField(evidence) && IsReferenceField(reviewer) && IsReferenceField(scope)) { return None; }
    if !(IsString(reviewedAt) && p.isTimestamp(reviewedAt.value.s)) { return None; }
    r := Some(Normalized(artifacts.value, checklist.value, evidence.value.s, expectedGate,
                         reviewedAt.value.s, reviewer.value.s, scope.value.s));
  }

  // ----- One text per digest -----

  lemma MemberKeysAreDistinct(c: Contract, m: Normalized, digest: string)
    ensures DistinctKeys(Members(c, m) + [Member("packageDigest", Str(digest))])
  {
    var ms := Members(c, m) + [Member("packageDigest", Str(digest))];
    assert |"artifacts"| == 9 && |"checklist"| == 9 && |"evidenceReference"| == 17 && |"gateId"| == 6;
    assert |"limitations"| == 11 && |"reviewedAt"| == 10 && |"reviewerReference"| == 17 && |"schema"| == 6;
    assert |"scopeReference"| == 14 && |"packageDigest"| == 13;
    assert "artifacts"[0] == 'a' && "checklist"[0] == 'c' && "evidenceReference"[0] == 'e' && "reviewerReference"[0] == 'r';
    assert "gateId"[0] == 'g' && "schema"[0] == 's';
    assert ms[9].key == "packageDigest";
  }

  /** The canonical form of the digested document, and the digest, determine the printed text. */
  lemma CanonicalDeterminesPresentation(c: Contract, m: Normalized, n: Normalized, digest: string)
    requires Canonical(Obj(Members(c, m))) == Canonical(Obj(Members(c, n)))
    ensures PresentedText(c, m, digest) == PresentedText(c, n, digest)
  {
    MemberKeysAreDistinct(c, m, digest);
    CanonicalExtends(Members(c, m), Members(c, n), Member("packageDigest", Str(digest)));
  }

  /** Two accepted texts with the same package digest are the same text; otherwise they exhibit a
      collision of SHA-256. */
  lemma SameDigestSameText(p: Platform, s: string, t: string, gateS: string, gateT: string) returns (x: string, y: string)
    ensures var a, b := Verify(p, s, gateS), Verify(p, t, gateT);
            a.Some? && b.Some? && a.value.packageDigest == b.value.packageDigest ==>
              s == t || (x != y && p.sha256(x) == p.sha256(y))
  {
    x, y := "", "";
    var c, a, b := p.contract, Verify(p, s, gateS), Verify(p, t, gateT);
    if a.Some? && b.Some? && a.value.packageDigest == b.value.packageDigest {
      var m, n := a.value.manifest, b.value.manifest;
      x, y := DigestedText(c, m), DigestedText(c, n);
      if x == y {
        CompactIsInjective(Canonical(Obj(Members(c, m))), Canonical(Obj(Members(c, n))));
        CanonicalDeterminesPresentation(c, m, n, a.value.packageDigest);
      }
    }
  }
}
