/** Release manifests: what identifies one, through the checksum of a JSON text. The hash is a
    parameter that the lemmas assume to be collision-free. */
module ReleaseManifest {
  import opened CodeUnits
  import opened Environments
  import opened JsonText
  import opened Sorting
  import opened MigrationHistory

  datatype Tag = NoTag | Tag(name: JsString)

  datatype BuildInputs = BuildInputs(
    commitSha: JsString, branch: JsString, tag: Tag, backendPackageVersion: JsString,
    frontendWebVersion: JsString, adminWebVersion: JsString, imageName: JsString,
    imageDigest: JsString, imageTag: JsString, prismaVersion: JsString, migrationId: Id,
    migrationHistory: seq<Id>, schemaHash: JsString, backendBuildId: JsString,
    frontendWebBuildId: JsString, adminBuildId: JsString, nodeVersion: JsString,
    npmVersion: JsString, builtBy: JsString, environment: Environment, correlationId: JsString,
    buildDurationMs: int)

  datatype Manifest = Manifest(
    releaseId: JsString, version: JsString, commitSha: JsString, commitShort: JsString,
    builtAt: JsString, imageDigest: JsString, migrationId: Id, migrationHistory: seq<Id>,
    schemaHash: JsString, artifactChecksum: JsString,
    carried: BuildInputs)

  /** Hexadecimal SHA-256. */
  type Hash = JsString -> JsString

  ghost predicate CollisionFree(hash: Hash) {
    forall a, b :: hash(a) == hash(b) ==> a == b
  }

  function Prefix(s: JsString, n: nat): JsString {
    if |s| <= n then s else s[..n]
  }

  function ReleaseId(inputs: BuildInputs, hash: Hash): JsString {
    var environment := EnvironmentText(inputs.environment);
    Units("rel_") + environment + Units("_")
      + Prefix(hash(inputs.commitSha + Units("-") + environment + Units("-") + inputs.migrationId), 16)
  }

  function Version(inputs: BuildInputs): JsString {
    var short := Prefix(inputs.commitSha, 8);
    if inputs.environment == Production then inputs.backendPackageVersion + Units("+") + short
    else inputs.backendPackageVersion + Units("-") + EnvironmentText(inputs.environment) + Units("+") + short
  }

  /** The ten checksummed fields, in the order they are written. */
  function Payload(inputs: BuildInputs): seq<Property> {
    [ Property(Units("commitSha"), Text(inputs.commitSha)),
      Property(Units("backendPackageVersion"), Text(inputs.backendPackageVersion)),
      Property(Units("frontendWebVersion"), Text(inputs.frontendWebVersion)),
      Property(Units("adminWebVersion"), Text(inputs.adminWebVersion)),
      Property(Units("imageDigest"), Text(inputs.imageDigest)),
      Property(Units("migrationId"), Text(inputs.migrationId)),
      Property(Units("schemaHash"), Text(inputs.schemaHash)),
      Property(Units("backendBuildId"), Text(inputs.backendBuildId)),
      Property(Units("frontendWebBuildId"), Text(inputs.frontendWebBuildId)),
      Property(Units("adminBuildId"), Text(inputs.adminBuildId)) ]
  }

  function ArtifactChecksum(inputs: BuildInputs, hash: Hash): JsString {
    hash(Stringify(Record(Payload(inputs))))
  }

  /** `carried` holds the inputs that the manifest copies without change, the history aside. */
  function BuildManifest(inputs: BuildInputs, builtAt: JsString, hash: Hash): Manifest {
    SortManifest(Manifest(
      ReleaseId(inputs, hash), Version(inputs), inputs.commitSha, Prefix(inputs.commitSha, 8),
      builtAt, inputs.imageDigest, inputs.migrationId, Sort(inputs.migrationHistory, Leq),
      inputs.schemaHash, ArtifactChecksum(inputs, hash), inputs.(migrationHistory := [])))
  }

  function SortManifest(manifest: Manifest): Manifest {
    manifest.(migrationHistory := Sort(manifest.migrationHistory, Leq))
  }

  predicate IsDeterministic(a: Manifest, b: Manifest) {
    && a.commitSha == b.commitSha
    && a.migrationId == b.migrationId
    && a.imageDigest == b.imageDigest
    && a.schemaHash == b.schemaHash
    && a.artifactChecksum == b.artifactChecksum
  }

  ghost predicate AgreeOnChecksummedFields(a: BuildInputs, b: BuildInputs) {
    && a.commitSha == b.commitSha
    && a.backendPackageVersion == b.backendPackageVersion
    && a.frontendWebVersion == b.frontendWebVersion
    && a.adminWebVersion == b.adminWebVersion
    && a.imageDigest == b.imageDigest
    && a.migrationId == b.migrationId
    && a.schemaHash == b.schemaHash
    && a.backendBuildId == b.backendBuildId
    && a.frontendWebBuildId == b.frontendWebBuildId
    && a.adminBuildId == b.adminBuildId
  }

  lemma PayloadIdentifies(a: BuildInputs, b: BuildInputs)
    ensures Payload(a) == Payload(b) <==> AgreeOnChecksummedFields(a, b)
  {
    var p, q := Payload(a), Payload(b);
    if p == q {
      assert forall i | 0 <= i < 10 :: p[i].value == q[i].value;
      assert p[0].value == q[0].value && p[1].value == q[1].value && p[2].value == q[2].value;
      assert p[3].value == q[3].value && p[4].value == q[4].value && p[5].value == q[5].value;
      assert p[6].value == q[6].value && p[7].value == q[7].value && p[8].value == q[8].value;
      assert p[9].value == q[9].value;
    }
  }

  /** The checksummed text is one object with these ten members. */
  lemma ChecksummedText(inputs: BuildInputs, hash: Hash)
    ensures ArtifactChecksum(inputs, hash) == hash([123] + (CommaJoined(MemberTexts(Payload(inputs))) + [125]))
    ensures var p := Payload(inputs);
      && |p| == 10 && p[0].key == Units("commitSha") && p[1].key == Units("backendPackageVersion")
      && p[2].key == Units("frontendWebVersion") && p[3].key == Units("adminWebVersion")
      && p[4].key == Units("imageDigest") && p[5].key == Units("migrationId") && p[6].key == Units("schemaHash")
      && p[7].key == Units("backendBuildId") && p[8].key == Units("frontendWebBuildId")
      && p[9].key == Units("adminBuildId")
  {
    TextIsJson(Record(Payload(inputs)));
  }

  /** Two built manifests are judged the same release exactly when their inputs agree on the ten
      checksummed fields, whatever else differs. */
  lemma ManifestIdentity(a: BuildInputs, b: BuildInputs, builtA: JsString, builtB: JsString, hash: Hash)
    requires CollisionFree(hash)
    ensures IsDeterministic(BuildManifest(a, builtA, hash), BuildManifest(b, builtB, hash))
       <==> AgreeOnChecksummedFields(a, b)
  {
    PayloadIdentifies(a, b);
    if ArtifactChecksum(a, hash) == ArtifactChecksum(b, hash) {
      TextDeterminesValue(Record(Payload(a)), Record(Payload(b)));
    }
  }

  /** A permuted migration history gives the same manifest apart from the build time, and the
      manifest's history is the sorted one. */
  lemma HistoryOrderDoesNotMatter(a: BuildInputs, b: BuildInputs, builtA: JsString, builtB: JsString, hash: Hash)
    requires b == a.(migrationHistory := b.migrationHistory)
    requires multiset(a.migrationHistory) == multiset(b.migrationHistory)
    ensures BuildManifest(a, builtA, hash) == BuildManifest(b, builtB, hash).(builtAt := builtA)
    ensures BuildManifest(a, builtA, hash).migrationHistory == Sort(a.migrationHistory, Leq)
  {
    OrderIsTotal();
    SortIgnoresOrder(a.migrationHistory, b.migrationHistory, Leq);
    SortIsSorted(a.migrationHistory, Leq);
    SortOfAscending(Sort(a.migrationHistory, Leq), Leq);
  }

  /** What a manifest carries: the inputs, the history sorted, the commit abbreviated to eight units, and a
      version that names the environment outside production. */
  lemma ManifestCarries(inputs: BuildInputs, builtAt: JsString, hash: Hash)
    ensures var m := BuildManifest(inputs, builtAt, hash);
      && m.commitSha == inputs.commitSha && m.imageDigest == inputs.imageDigest && m.migrationId == inputs.migrationId
      && m.schemaHash == inputs.schemaHash && m.builtAt == builtAt
      && m.carried == inputs.(migrationHistory := [])
      && Ascending(m.migrationHistory, Leq) && multiset(m.migrationHistory) == multiset(inputs.migrationHistory)
      && m.commitShort <= inputs.commitSha
      && |m.commitShort| == (if |inputs.commitSha| < 8 then |inputs.commitSha| else 8)
      && m.version == inputs.backendPackageVersion
                      + (if inputs.environment == Production then []
                         else Units("-") + EnvironmentText(inputs.environment))
                      + Units("+") + m.commitShort
  {
    OrderIsTotal();
    SortIsSorted(inputs.migrationHistory, Leq);
    SortIsSorted(Sort(inputs.migrationHistory, Leq), Leq);
    var v, dash, short := inputs.backendPackageVersion, Units("-"), Prefix(inputs.commitSha, 8);
    assert v + [] == v;
    assert v + (dash + EnvironmentText(inputs.environment)) == v + dash + EnvironmentText(inputs.environment);
  }

  // ----- Without trust in the hash

  /** Whatever the hash does, two manifests judged the same are of one commit, migration, image and schema,
      and inputs that agree on the ten fields are judged the same. */
  lemma SameForAnyHash(a: BuildInputs, b: BuildInputs, builtA: JsString, builtB: JsString, hash: Hash)
    ensures IsDeterministic(BuildManifest(a, builtA, hash), BuildManifest(b, builtB, hash)) ==>
      a.commitSha == b.commitSha && a.migrationId == b.migrationId
      && a.imageDigest == b.imageDigest && a.schemaHash == b.schemaHash
    ensures AgreeOnChecksummedFields(a, b) ==>
      IsDeterministic(BuildManifest(a, builtA, hash), BuildManifest(b, builtB, hash))
  {
    PayloadIdentifies(a, b);
  }

  // ----- Release identifiers

  /** The text that a release identifier abbreviates by its hash. */
  function Identified(inputs: BuildInputs): JsString {
    inputs.commitSha + Units("-") + EnvironmentText(inputs.environment) + Units("-") + inputs.migrationId
  }

  /** The first sixteen digits of the hash tell texts apart. */
  ghost predicate Distinguishes(hash: Hash) {
    && (forall text :: |hash(text)| >= 16)
    && (forall a, b :: hash(a)[..16] == hash(b)[..16] ==> a == b)
  }

  lemma IdentifierParts(inputs: BuildInputs, hash: Hash)
    requires |hash(Identified(inputs))| >= 16
    ensures ReleaseId(inputs, hash)
         == Units("rel_") + EnvironmentText(inputs.environment) + Units("_") + hash(Identified(inputs))[..16]
  {
    assert hash(Identified(inputs))[..|hash(Identified(inputs))|] == hash(Identified(inputs));
  }

  lemma UnitsAround(a: JsString, rest: JsString, k: nat)
    ensures (a + ([45] + rest))[|a|] == 45
    ensures k < |a| ==> (a + ([45] + rest))[k] in a
  {
  }

  lemma HyphenSplits(a: JsString, restA: JsString, b: JsString, restB: JsString)
    requires a + ([45] + restA) == b + ([45] + restB) && 45 !in a && 45 !in b
    ensures a == b && restA == restB
  {
    var left, right := a + ([45] + restA), b + ([45] + restB);
    UnitsAround(a, restA, |b|);
    UnitsAround(b, restB, |a|);
    assert |a| == |b|;
    assert left[..|a|] == a && right[..|b|] == b;
    assert left[|a| + 1..] == restA && right[|b| + 1..] == restB;
  }

  lemma IdentifiedSplits(inputs: BuildInputs)
    ensures Identified(inputs)
         == inputs.commitSha + ([45] + (EnvironmentText(inputs.environment) + ([45] + inputs.migrationId)))
  {
    assert Units("-") == [45];
  }

  /** As long as commits are named without hyphens, two builds have the same release identifier exactly
      when they are of the same commit, environment and migration. */
  lemma ReleaseIdsAgreeIff(a: BuildInputs, b: BuildInputs, hash: Hash)
    requires Distinguishes(hash) && 45 !in a.commitSha && 45 !in b.commitSha
    ensures ReleaseId(a, hash) == ReleaseId(b, hash)
       <==> a.commitSha == b.commitSha && a.environment == b.environment && a.migrationId == b.migrationId
  {
    IdentifierParts(a, hash);
    IdentifierParts(b, hash);
    if ReleaseId(a, hash) == ReleaseId(b, hash) {
      var ea, eb := EnvironmentText(a.environment), EnvironmentText(b.environment);
      var left, right := ReleaseId(a, hash), ReleaseId(b, hash);
      assert left[|left| - 16..] == hash(Identified(a))[..16] && right[|right| - 16..] == hash(Identified(b))[..16];
      IdentifiedSplits(a);
      IdentifiedSplits(b);
      HyphenSplits(a.commitSha, ea + ([45] + a.migrationId), b.commitSha, eb + ([45] + b.migrationId));
      EnvironmentHasNoHyphen(a.environment);
      EnvironmentHasNoHyphen(b.environment);
      HyphenSplits(ea, a.migrationId, eb, b.migrationId);
      TextsDiffer(a.environment, b.environment, Recreate, Recreate);
    }
  }

  lemma EnvironmentHasNoHyphen(environment: Environment)
    ensures 45 !in EnvironmentText(environment)
  {
  }
}
