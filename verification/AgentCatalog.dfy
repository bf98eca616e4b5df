/**
 The agent catalog, the canonical bytes its digest is computed over, and its validator.
 The digest function is a parameter: every fact holds for any function from bytes to text.
 */
module AgentCatalog {
  import opened Results
  import opened Numbers
  import opened TextRules
  import Decimal
  import opened JsonText
  import opened JsonPrinter
  import opened JsonMap
  import opened StringOrder

  const MAX_CATALOG_AGENTS: nat := 32
  const MAX_CAPABILITIES: nat := 32
  const MAX_STRING_BYTES: nat := 128

  datatype UnavailableReason =
    | IncompatibleTarget | IncompleteProvenance | UnverifiedArtifact
    | MissingCapability | StaleCatalog | PolicyDenied

  datatype Availability = Available | Unavailable(reason: UnavailableReason)

  datatype Target = Target(operatingSystem: string, architecture: string, libc: string, libcVersion: string)

  datatype Signer = Signer(keyId: string, principal: string)

  datatype Package = Package(packageId: string, version: string, sha256: string, signatureSha256: string,
                             signer: Signer)

  datatype Provenance = Provenance(sourceRevision: string, manifestSha256: string, sbomSha256: string,
                                   licenseRef: string)

  datatype Entry = Entry(agentId: string, target: Target, package: Option<Package>, provenance: Option<Provenance>,
                         capabilities: seq<string>, availability: Availability)

  datatype Catalog = Catalog(runnerInstanceId: string, generation: u64, catalogSha256: string, target: Target,
                             agents: seq<Entry>, refreshed: bool)

  // ----- serialization

  const TARGET_FIELDS: seq<string> := ["operating_system", "architecture", "libc", "libc_version"]
  const SIGNER_FIELDS: seq<string> := ["key_id", "principal"]
  const PACKAGE_FIELDS: seq<string> := ["package_id", "version", "sha256", "signature_sha256", "signer"]
  const PROVENANCE_FIELDS: seq<string> := ["source_revision", "manifest_sha256", "sbom_sha256", "license_ref"]
  const AVAILABILITY_FIELDS: seq<string> := ["status", "reason"]
  const ENTRY_FIELDS: seq<string> :=
    ["agent_id", "target", "package", "provenance", "capabilities", "availability"]
  const CATALOG_FIELDS: seq<string> :=
    ["runner_instance_id", "generation", "catalog_sha256", "target", "agents", "refreshed"]

  function TargetJson(t: Target): Json {
    Record(TARGET_FIELDS, [Str(t.operatingSystem), Str(t.architecture), Str(t.libc), Str(t.libcVersion)])
  }

  function SignerJson(s: Signer): Json {
    Record(SIGNER_FIELDS, [Str(s.keyId), Str(s.principal)])
  }

  function PackageJson(p: Package): Json {
    Record(PACKAGE_FIELDS,
           [Str(p.packageId), Str(p.version), Str(p.sha256), Str(p.signatureSha256), SignerJson(p.signer)])
  }

  function ProvenanceJson(p: Provenance): Json {
    Record(PROVENANCE_FIELDS, [Str(p.sourceRevision), Str(p.manifestSha256), Str(p.sbomSha256), Str(p.licenseRef)])
  }

  function ReasonText(r: UnavailableReason): string {
    match r
    case IncompatibleTarget => "incompatible_target"
    case IncompleteProvenance => "incomplete_provenance"
    case UnverifiedArtifact => "unverified_artifact"
    case MissingCapability => "missing_capability"
    case StaleCatalog => "stale_catalog"
    case PolicyDenied => "policy_denied"
  }

  function AvailabilityJson(a: Availability): Json {
    match a
    case Available => Record(["status"], [Str("available")])
    case Unavailable(r) => Record(AVAILABILITY_FIELDS, [Str("unavailable"), Str(ReasonText(r))])
  }

  function EntryJson(e: Entry): Json {
    Record(ENTRY_FIELDS,
           [Str(e.agentId), TargetJson(e.target),
            if e.package.None? then Null else PackageJson(e.package.value),
            if e.provenance.None? then Null else ProvenanceJson(e.provenance.value),
            OfStrings(e.capabilities), AvailabilityJson(e.availability)])
  }

  function EntriesJson(es: seq<Entry>): Json {
    Array(seq(|es|, i requires 0 <= i < |es| => EntryJson(es[i])))
  }

  function CatalogJson(c: Catalog): Json {
    Record(CATALOG_FIELDS,
           [Str(c.runnerInstanceId), OfNat(c.generation), Str(c.catalogSha256), TargetJson(c.target),
            EntriesJson(c.agents), Bool(c.refreshed)])
  }

  /** `canonical_bytes`: to a value, minus the digest and the response flag, re-sorted, printed compactly. */
  function CanonicalBytes(c: Catalog): string {
    Print(Canonical(Object(Kept(c))), Compact)
  }

  function Kept(c: Catalog): seq<Member> {
    Without(Without(Canonical(CatalogJson(c)).members, "catalog_sha256"), "refreshed")
  }

  // ----- the mapping loses nothing

  lemma RecordFieldsAgree(names: seq<string>, v: seq<Json>, w: seq<Json>)
    requires |names| == |v| == |w| && Distinct(names)
    requires Canonical(Record(names, v)) == Canonical(Record(names, w))
    ensures forall i :: 0 <= i < |names| ==> Canonical(v[i]) == Canonical(w[i])
  {
    forall i | 0 <= i < |names|
      ensures Canonical(v[i]) == Canonical(w[i])
    {
      CanonicalRecordFields(names, v, w, i);
    }
  }

  lemma TargetIsDetermined(a: Target, b: Target)
    requires Canonical(TargetJson(a)) == Canonical(TargetJson(b))
    ensures a == b
  {
    var v := [Str(a.operatingSystem), Str(a.architecture), Str(a.libc), Str(a.libcVersion)];
    var w := [Str(b.operatingSystem), Str(b.architecture), Str(b.libc), Str(b.libcVersion)];
    RecordFieldsAgree(TARGET_FIELDS, v, w);
    assert Canonical(v[0]) == Canonical(w[0]) && Canonical(v[1]) == Canonical(w[1]);
    assert Canonical(v[2]) == Canonical(w[2]) && Canonical(v[3]) == Canonical(w[3]);
  }

  lemma SignerIsDetermined(a: Signer, b: Signer)
    requires Canonical(SignerJson(a)) == Canonical(SignerJson(b))
    ensures a == b
  {
    var v, w := [Str(a.keyId), Str(a.principal)], [Str(b.keyId), Str(b.principal)];
    RecordFieldsAgree(SIGNER_FIELDS, v, w);
    assert Canonical(v[0]) == Canonical(w[0]) && Canonical(v[1]) == Canonical(w[1]);
  }

  lemma PackageIsDetermined(a: Package, b: Package)
    requires Canonical(PackageJson(a)) == Canonical(PackageJson(b))
    ensures a == b
  {
    var v := [Str(a.packageId), Str(a.version), Str(a.sha256), Str(a.signatureSha256), SignerJson(a.signer)];
    var w := [Str(b.packageId), Str(b.version), Str(b.sha256), Str(b.signatureSha256), SignerJson(b.signer)];
    RecordFieldsAgree(PACKAGE_FIELDS, v, w);
    assert Canonical(v[0]) == Canonical(w[0]) && Canonical(v[1]) == Canonical(w[1]);
    assert Canonical(v[2]) == Canonical(w[2]) && Canonical(v[3]) == Canonical(w[3]);
    assert Canonical(v[4]) == Canonical(w[4]);
    SignerIsDetermined(a.signer, b.signer);
  }

  lemma ProvenanceIsDetermined(a: Provenance, b: Provenance)
    requires Canonical(ProvenanceJson(a)) == Canonical(ProvenanceJson(b))
    ensures a == b
  {
    var v := [Str(a.sourceRevision), Str(a.manifestSha256), Str(a.sbomSha256), Str(a.licenseRef)];
    var w := [Str(b.sourceRevision), Str(b.manifestSha256), Str(b.sbomSha256), Str(b.licenseRef)];
    RecordFieldsAgree(PROVENANCE_FIELDS, v, w);
    assert Canonical(v[0]) == Canonical(w[0]) && Canonical(v[1]) == Canonical(w[1]);
    assert Canonical(v[2]) == Canonical(w[2]) && Canonical(v[3]) == Canonical(w[3]);
  }

  /** The status text of an availability, found again in its canonical form. */
  lemma StatusOf(a: Availability)
    ensures Lookup(Canonical(AvailabilityJson(a)).members, "status")
         == Some(Str(if a.Available? then "available" else "unavailable"))
  {
    var names := if a.Available? then ["status"] else AVAILABILITY_FIELDS;
    var values := if a.Available? then [Str("available")] else [Str("unavailable"), Str(ReasonText(a.reason))];
    assert AvailabilityJson(a) == Record(names, values);
    CanonicalLookup(Zip(names, values), "status");
    assert Zip(names, values)[0].key == "status";
    LastLookupAt(Zip(names, values), 0);
  }

  lemma AvailabilityIsDetermined(a: Availability, b: Availability)
    requires Canonical(AvailabilityJson(a)) == Canonical(AvailabilityJson(b))
    ensures a == b
  {
    StatusOf(a);
    StatusOf(b);
    assert |"available"| != |"unavailable"|;
    if a.Unavailable? {
      var v, w := [Str("unavailable"), Str(ReasonText(a.reason))], [Str("unavailable"), Str(ReasonText(b.reason))];
      RecordFieldsAgree(AVAILABILITY_FIELDS, v, w);
      assert Canonical(v[1]) == Canonical(w[1]);
      ReasonTextIsInjective(a.reason, b.reason);
    }
  }

  lemma ReasonTextIsInjective(a: UnavailableReason, b: UnavailableReason)
    requires ReasonText(a) == ReasonText(b)
    ensures a == b
  {
    var texts := ["incompatible_target", "incomplete_provenance", "unverified_artifact",
                  "missing_capability", "stale_catalog", "policy_denied"];
    assert Distinct(texts);
  }

  lemma OptionalPackageIsDetermined(a: Option<Package>, b: Option<Package>)
    requires Canonical(if a.None? then Null else PackageJson(a.value))
             == Canonical(if b.None? then Null else PackageJson(b.value))
    ensures a == b
  {
    if a.Some? && b.Some? {
      PackageIsDetermined(a.value, b.value);
    }
  }

  lemma OptionalProvenanceIsDetermined(a: Option<Provenance>, b: Option<Provenance>)
    requires Canonical(if a.None? then Null else ProvenanceJson(a.value))
             == Canonical(if b.None? then Null else ProvenanceJson(b.value))
    ensures a == b
  {
    if a.Some? && b.Some? {
      ProvenanceIsDetermined(a.value, b.value);
    }
  }

  lemma {:induction false} EntryFieldsAgree(a: Entry, b: Entry)
    requires Canonical(EntryJson(a)) == Canonical(EntryJson(b))
    ensures Canonical(Str(a.agentId)) == Canonical(Str(b.agentId))
    ensures Canonical(TargetJson(a.target)) == Canonical(TargetJson(b.target))
    ensures Canonical(if a.package.None? then Null else PackageJson(a.package.value))
         == Canonical(if b.package.None? then Null else PackageJson(b.package.value))
    ensures Canonical(if a.provenance.None? then Null else ProvenanceJson(a.provenance.value))
         == Canonical(if b.provenance.None? then Null else ProvenanceJson(b.provenance.value))
    ensures Canonical(OfStrings(a.capabilities)) == Canonical(OfStrings(b.capabilities))
    ensures Canonical(AvailabilityJson(a.availability)) == Canonical(AvailabilityJson(b.availability))
  {
    var v := [Str(a.agentId), TargetJson(a.target),
              if a.package.None? then Null else PackageJson(a.package.value),
              if a.provenance.None? then Null else ProvenanceJson(a.provenance.value),
              OfStrings(a.capabilities), AvailabilityJson(a.availability)];
    var w := [Str(b.agentId), TargetJson(b.target),
              if b.package.None? then Null else PackageJson(b.package.value),
              if b.provenance.None? then Null else ProvenanceJson(b.provenance.value),
              OfStrings(b.capabilities), AvailabilityJson(b.availability)];
    SixFieldsAgree(ENTRY_FIELDS, v, w);
  }

  lemma SixFieldsAgree(names: seq<string>, v: seq<Json>, w: seq<Json>)
    requires |names| == |v| == |w| == 6 && Distinct(names)
    requires Canonical(Record(names, v)) == Canonical(Record(names, w))
    ensures Canonical(v[0]) == Canonical(w[0]) && Canonical(v[1]) == Canonical(w[1])
    ensures Canonical(v[2]) == Canonical(w[2]) && Canonical(v[3]) == Canonical(w[3])
    ensures Canonical(v[4]) == Canonical(w[4]) && Canonical(v[5]) == Canonical(w[5])
  {
    RecordFieldsAgree(names, v, w);
  }

  lemma EntryIsDetermined(a: Entry, b: Entry)
    requires Canonical(EntryJson(a)) == Canonical(EntryJson(b))
    ensures a == b
  {
    EntryFieldsAgree(a, b);
    TargetIsDetermined(a.target, b.target);
    OptionalPackageIsDetermined(a.package, b.package);
    OptionalProvenanceIsDetermined(a.provenance, b.provenance);
    StringsField(a.capabilities);
    StringsField(b.capabilities);
    AvailabilityIsDetermined(a.availability, b.availability);
  }

  lemma EntriesAreDetermined(a: seq<Entry>, b: seq<Entry>)
    requires Canonical(EntriesJson(a)) == Canonical(EntriesJson(b))
    ensures a == b
  {
    var v, w := EntriesJson(a).items, EntriesJson(b).items;
    assert CanonicalItems(v) == CanonicalItems(w);
    assert |a| == |v| == |w| == |b|;
    forall i | 0 <= i < |a|
      ensures a[i] == b[i]
    {
      CanonicalItemAt(v, i);
      CanonicalItemAt(w, i);
      EntryIsDetermined(a[i], b[i]);
    }
  }

  /** The removed keys are unbound; every other key keeps its canonical binding. */
  lemma KeptLookup(c: Catalog, key: string)
    ensures Lookup(Kept(c), key)
         == if key == "catalog_sha256" || key == "refreshed" then None
            else CanonicalOption(LastLookup(CatalogJson(c).members, key))
  {
    var members := Canonical(CatalogJson(c)).members;
    LookupWithout(members, "catalog_sha256", key);
    LookupWithout(Without(members, "catalog_sha256"), "refreshed", key);
    CanonicalLookup(CatalogJson(c).members, key);
  }

  lemma KeptIsSorted(c: Catalog)
    ensures Sorted(Kept(c))
    ensures forall i :: 0 <= i < |Kept(c)| ==> Kept(c)[i] in Canonical(CatalogJson(c)).members
  {
    var members := Canonical(CatalogJson(c)).members;
    FromPairsIsSorted(CanonicalMembers(CatalogJson(c).members));
    var fewer := Without(members, "catalog_sha256");
    WithoutIsSorted(members, "catalog_sha256");
    WithoutIsSorted(fewer, "refreshed");
    forall i | 0 <= i < |Kept(c)|
      ensures Kept(c)[i] in members
    {
      WithoutComesFrom(fewer, "refreshed", i);
      var j :| 0 <= j < |fewer| && fewer[j] == Kept(c)[i];
      WithoutComesFrom(members, "catalog_sha256", j);
    }
  }

  /** Removing members from a canonical object leaves a canonical object, so the second pass is the identity. */
  lemma KeptIsCanonical(v: Json, kept: seq<Member>)
    requires v.Object? && Sorted(kept)
    requires forall i :: 0 <= i < |kept| ==> kept[i] in Canonical(v).members
    ensures Canonical(Object(kept)) == Object(kept)
  {
    forall i | 0 <= i < |kept|
      ensures CanonicalMembers(kept)[i] == kept[i]
    {
      CanonicalMemberAt(kept, i);
      var ms := CanonicalMembers(v.members);
      var j :| 0 <= j < |FromPairs(ms)| && FromPairs(ms)[j] == kept[i];
      PairsComeFrom(ms, j);
      var k :| 0 <= k < |ms| && ms[k] == kept[i];
      CanonicalMemberAt(v.members, k);
      CanonicalIsIdempotent(v.members[k].value);
    }
    assert CanonicalMembers(kept) == kept;
    SortedPairsAreKept(kept);
  }

  // ----- printability

  lemma TargetIsPrintable(t: Target)
    ensures Printable(TargetJson(t))
  {
    RecordIsPrintable(TARGET_FIELDS, [Str(t.operatingSystem), Str(t.architecture), Str(t.libc), Str(t.libcVersion)]);
  }

  lemma {:induction false} EntryIsPrintable(e: Entry)
    ensures Printable(EntryJson(e))
  {
    TargetIsPrintable(e.target);
    var package := if e.package.None? then Null else PackageJson(e.package.value);
    if e.package.Some? {
      var p := e.package.value;
      RecordIsPrintable(SIGNER_FIELDS, [Str(p.signer.keyId), Str(p.signer.principal)]);
      RecordIsPrintable(PACKAGE_FIELDS,
        [Str(p.packageId), Str(p.version), Str(p.sha256), Str(p.signatureSha256), SignerJson(p.signer)]);
    }
    var provenance := if e.provenance.None? then Null else ProvenanceJson(e.provenance.value);
    if e.provenance.Some? {
      var p := e.provenance.value;
      RecordIsPrintable(PROVENANCE_FIELDS,
        [Str(p.sourceRevision), Str(p.manifestSha256), Str(p.sbomSha256), Str(p.licenseRef)]);
    }
    StringsArePrintable(e.capabilities);
    if e.availability.Available? {
      RecordIsPrintable(["status"], [Str("available")]);
    } else {
      RecordIsPrintable(AVAILABILITY_FIELDS, [Str("unavailable"), Str(ReasonText(e.availability.reason))]);
    }
    RecordIsPrintable(ENTRY_FIELDS,
      [Str(e.agentId), TargetJson(e.target), package, provenance, OfStrings(e.capabilities),
       AvailabilityJson(e.availability)]);
  }

  lemma CatalogIsPrintable(c: Catalog)
    ensures Printable(CatalogJson(c))
  {
    TargetIsPrintable(c.target);
    OfNatIsPrintable(c.generation);
    forall i | 0 <= i < |c.agents|
      ensures Printable(EntriesJson(c.agents).items[i])
    {
      EntryIsPrintable(c.agents[i]);
    }
    ItemsArePrintable(EntriesJson(c.agents).items);
    RecordIsPrintable(CATALOG_FIELDS,
      [Str(c.runnerInstanceId), OfNat(c.generation), Str(c.catalogSha256), TargetJson(c.target),
       EntriesJson(c.agents), Bool(c.refreshed)]);
  }

  lemma KeptIsPrintable(c: Catalog)
    ensures Printable(Object(Kept(c))) && Canonical(Object(Kept(c))) == Object(Kept(c))
  {
    var members := Canonical(CatalogJson(c)).members;
    CatalogIsPrintable(c);
    CanonicalIsPrintable(CatalogJson(c));
    KeptIsSorted(c);
    KeptIsCanonical(CatalogJson(c), Kept(c));
    forall i | 0 <= i < |Kept(c)|
      ensures PrintableMember(Kept(c)[i])
    {
      var j :| 0 <= j < |members| && members[j] == Kept(c)[i];
      PrintableMemberAt(members, j);
    }
    MembersArePrintable(Kept(c));
  }

  // ----- main result

  /** The canonical bytes identify a catalog up to its digest field and the response flag, and nothing else. */
  lemma CanonicalBytesIdentify(a: Catalog, b: Catalog)
    ensures CanonicalBytes(a) == CanonicalBytes(b) <==>
      a.(catalogSha256 := b.catalogSha256, refreshed := b.refreshed) == b
  {
    if CanonicalBytes(a) == CanonicalBytes(b) {
      KeptIsPrintable(a);
      KeptIsPrintable(b);
      PrintIsInjective(Object(Kept(a)), Compact, Object(Kept(b)), Compact);
      FieldsAgree(a, b);
    }
    if a.(catalogSha256 := b.catalogSha256, refreshed := b.refreshed) == b {
      RemovedFieldsDoNotMatter(a, b);
    }
  }

  lemma KeptField(c: Catalog, i: nat)
    requires i in {0, 1, 3, 4}
    ensures Lookup(Kept(c), CATALOG_FIELDS[i]) == Some(Canonical(CatalogJson(c).members[i].value))
  {
    assert Distinct(CATALOG_FIELDS);
    KeptLookup(c, CATALOG_FIELDS[i]);
    LastLookupAt(CatalogJson(c).members, i);
  }

  lemma {:induction false} FieldsAgree(a: Catalog, b: Catalog)
    requires Kept(a) == Kept(b)
    ensures a.(catalogSha256 := b.catalogSha256, refreshed := b.refreshed) == b
  {
    var fa, fb := CatalogJson(a).members, CatalogJson(b).members;
    forall i | i in {0, 1, 3, 4}
      ensures Canonical(fa[i].value) == Canonical(fb[i].value)
    {
      KeptField(a, i);
      KeptField(b, i);
    }
    assert Canonical(fa[0].value) == Canonical(fb[0].value) && Canonical(fa[1].value) == Canonical(fb[1].value);
    assert Canonical(fa[3].value) == Canonical(fb[3].value) && Canonical(fa[4].value) == Canonical(fb[4].value);
    Decimal.PrintInjective(a.generation, b.generation);
    TargetIsDetermined(a.target, b.target);
    EntriesAreDetermined(a.agents, b.agents);
  }

  lemma RemovedFieldsDoNotMatter(a: Catalog, b: Catalog)
    requires a.(catalogSha256 := b.catalogSha256, refreshed := b.refreshed) == b
    ensures CanonicalBytes(a) == CanonicalBytes(b)
  {
    KeptIsSorted(a);
    KeptIsSorted(b);
    forall key
      ensures Lookup(Kept(a), key) == Lookup(Kept(b), key)
    {
      KeptLookup(a, key);
      KeptLookup(b, key);
      if key != "catalog_sha256" && key != "refreshed" {
        OtherBindingsAgree(a, b, key);
      }
    }
    SortedIsDetermined(Kept(a), Kept(b));
  }

  lemma OtherBindingsAgree(a: Catalog, b: Catalog, key: string)
    requires a.(catalogSha256 := b.catalogSha256, refreshed := b.refreshed) == b
    requires key != CATALOG_FIELDS[2] && key != CATALOG_FIELDS[5]
    ensures LastLookup(CatalogJson(a).members, key) == LastLookup(CatalogJson(b).members, key)
  {
    var ma, mb := CatalogJson(a).members, CatalogJson(b).members;
    assert ma[0] == mb[0] && ma[1] == mb[1] && ma[3] == mb[3] && ma[4] == mb[4];
    assert ma[2].key == CATALOG_FIELDS[2] && ma[5].key == CATALOG_FIELDS[5];
    SameBinding(ma, mb, key);
  }

  /** Lists with the same keys that agree wherever the key occurs bind it alike. */
  lemma {:induction false} SameBinding(a: seq<Member>, b: seq<Member>, key: string)
    requires |a| == |b| && forall i :: 0 <= i < |a| ==> a[i].key == b[i].key
    requires forall i :: 0 <= i < |a| && a[i].key == key ==> a[i] == b[i]
    ensures LastLookup(a, key) == LastLookup(b, key)
  {
    if a != [] {
      SameBinding(a[..|a| - 1], b[..|b| - 1], key);
    }
  }

  // ----- validation

  predicate IsTokenChar(c: char) {
    IsAlphanumeric(c) || c in "._+-"
  }

  predicate IsAgentIdChar(c: char) {
    '0' <= c <= '9' || 'a' <= c <= 'z' || c == '-'
  }

  predicate Bounded(s: string, max: nat, allowed: char -> bool) {
    0 < |s| <= max && forall i :: 0 <= i < |s| ==> allowed(s[i])
  }

  predicate ValidToken(s: string) {
    Bounded(s, MAX_STRING_BYTES, IsTokenChar)
  }

  predicate ValidTarget(t: Target) {
    ValidToken(t.operatingSystem) && ValidToken(t.architecture) && ValidToken(t.libc) && ValidToken(t.libcVersion)
  }

  predicate ValidPackage(p: Package) {
    ValidToken(p.packageId) && ValidToken(p.version) && IsLowerHex(p.sha256, 64) && IsLowerHex(p.signatureSha256, 64)
    && ValidToken(p.signer.keyId) && ValidToken(p.signer.principal)
  }

  predicate ValidProvenance(p: Provenance) {
    IsLowerHex(p.sourceRevision, 40) && IsLowerHex(p.manifestSha256, 64) && IsLowerHex(p.sbomSha256, 64)
    && ValidToken(p.licenseRef)
  }

  /** What each availability demands of the package, the provenance and the capabilities. */
  predicate ValidMetadata(e: Entry) {
    match e.availability
    case Available =>
      e.package.Some? && e.provenance.Some? && ValidPackage(e.package.value) && ValidProvenance(e.provenance.value)
      && e.capabilities != []
    case Unavailable(IncompleteProvenance) => true
    case Unavailable(_) =>
      (e.package.Some? <==> e.provenance.Some?)
      && (e.package.Some? ==> ValidPackage(e.package.value) && ValidProvenance(e.provenance.value))
  }

  predicate DistinctTokens(ss: seq<string>) {
    (forall i :: 0 <= i < |ss| ==> ValidToken(ss[i])) && Distinct(ss)
  }

  predicate ValidEntry(e: Entry, target: Target) {
    Bounded(e.agentId, MAX_STRING_BYTES, IsAgentIdChar) && e.target == target
    && |e.capabilities| <= MAX_CAPABILITIES && ValidMetadata(e) && DistinctTokens(e.capabilities)
  }

  /** Stated without the running variables of the loop: every pair of identifiers is in strict byte order. */
  predicate ValidCatalog(c: Catalog, digest: string -> string) {
    ValidToken(c.runnerInstanceId) && IsLowerHex(c.catalogSha256, 64) && ValidTarget(c.target)
    && 0 < |c.agents| <= MAX_CATALOG_AGENTS
    && (forall i :: 0 <= i < |c.agents| ==> ValidEntry(c.agents[i], c.target))
    && (forall i, j :: 0 <= i < j < |c.agents| ==> Less(c.agents[i].agentId, c.agents[j].agentId))
    && digest(CanonicalBytes(c)) == c.catalogSha256
  }

  /** `validate_catalog`: one pass with the prior identifier, and a growing set of capabilities per entry. */
  method ValidateCatalog(c: Catalog, digest: string -> string) returns (ok: bool)
    ensures ok <==> ValidCatalog(c, digest)
  {
    if !ValidToken(c.runnerInstanceId) || !IsLowerHex(c.catalogSha256, 64) || !ValidTarget(c.target)
       || c.agents == [] || |c.agents| > MAX_CATALOG_AGENTS {
      return false;
    }
    var prior: Option<string> := None;
    for i := 0 to |c.agents|
      invariant prior == if i == 0 then None else Some(c.agents[i - 1].agentId)
      invariant forall j :: 0 <= j < i ==> ValidEntry(c.agents[j], c.target)
      invariant forall j, k :: 0 <= j < k < i ==> Less(c.agents[j].agentId, c.agents[k].agentId)
    {
      var entry := c.agents[i];
      if !Bounded(entry.agentId, MAX_STRING_BYTES, IsAgentIdChar) {
        return false;
      }
      if prior.Some? && !Less(prior.value, entry.agentId) {
        return false;
      }
      if i > 0 {
        OrderExtends(c.agents, i);
      }
      prior := Some(entry.agentId);
      if entry.target != c.target || |entry.capabilities| > MAX_CAPABILITIES || !ValidMetadata(entry) {
        return false;
      }
      var distinct := CheckCapabilities(entry.capabilities);
      if !distinct {
        return false;
      }
    }
    return digest(CanonicalBytes(c)) == c.catalogSha256;
  }

  lemma OrderExtends(agents: seq<Entry>, i: nat)
    requires 0 < i < |agents| && Less(agents[i - 1].agentId, agents[i].agentId)
    requires forall j, k :: 0 <= j < k < i ==> Less(agents[j].agentId, agents[k].agentId)
    ensures forall j, k :: 0 <= j < k < i + 1 ==> Less(agents[j].agentId, agents[k].agentId)
  {
    forall j | 0 <= j < i
      ensures Less(agents[j].agentId, agents[i].agentId)
    {
      if j < i - 1 {
        LessIsTransitive(agents[j].agentId, agents[i - 1].agentId, agents[i].agentId);
      }
    }
  }

  method CheckCapabilities(capabilities: seq<string>) returns (ok: bool)
    ensures ok <==> DistinctTokens(capabilities)
  {
    var seen: set<string> := {};
    for i := 0 to |capabilities|
      invariant DistinctTokens(capabilities[..i])
      invariant seen == set s | s in capabilities[..i]
    {
      var capability := capabilities[i];
      assert capabilities[..i + 1] == capabilities[..i] + [capability];
      if !ValidToken(capability) || capability in seen {
        return false;
      }
      seen := seen + {capability};
    }
    assert capabilities[..|capabilities|] == capabilities;
    return true;
  }

  /** In a valid catalog no two entries share an identifier. */
  lemma ValidAgentsAreDistinct(c: Catalog, digest: string -> string)
    requires ValidCatalog(c, digest)
    ensures forall i, j :: 0 <= i < j < |c.agents| ==> c.agents[i].agentId != c.agents[j].agentId
  {
    forall i, j | 0 <= i < j < |c.agents|
      ensures c.agents[i].agentId != c.agents[j].agentId
    {
      LessIsTotal(c.agents[i].agentId, c.agents[j].agentId);
    }
  }

  /**
   Two valid catalogs that carry the same digest are the same catalog up to the response flag, unless
   their canonical bytes are different texts with one digest.
   */
  lemma DigestIdentifiesCatalog(a: Catalog, b: Catalog, digest: string -> string)
    requires ValidCatalog(a, digest) && ValidCatalog(b, digest) && a.catalogSha256 == b.catalogSha256
    ensures a.(refreshed := b.refreshed) == b
         || (CanonicalBytes(a) != CanonicalBytes(b) && digest(CanonicalBytes(a)) == digest(CanonicalBytes(b)))
  {
    CanonicalBytesIdentify(a, b);
  }
}
