/**
 The signed bundle manifest: its artifact and component sets, and obtaining all five artifacts.
 Signature checking is not part of this model.
 */
module BundleManifest {
  import opened Results
  import opened Numbers
  import opened TextRules
  import opened ArtifactTransfer
  import opened Decimal
  import opened Inventories
  import opened BundleDocuments

  const MAX_BUNDLE_BYTES: nat := 512 * 1024 * 1024

  datatype Kind = Executable | Source | LicenseReport | Sbom | Provenance

  datatype NamedArtifact = NamedArtifact(name: string, kind: Kind, file: Artifact)

  datatype ManifestError = InvalidArtifact | QuotaExceeded | IncompleteSet | InvalidComponent | IdentityMismatch

  const EXPECTED: set<(string, Kind)> :=
    {("asb-tui", Executable), ("source", Source), ("licenses", LicenseReport), ("sbom", Sbom),
     ("provenance", Provenance)}

  // ----- versions and addresses

  predicate IsDigits(s: string) {
    s != "" && AllDigits(s)
  }

  /** v, then exactly three dotted numbers. */
  ghost predicate IsVersion(v: string) {
    |v| <= 32
    && exists a, b, c :: IsDigits(a) && IsDigits(b) && IsDigits(c) && v == "v" + a + "." + b + "." + c
  }

  /** A file directly under the release's own address. */
  predicate ReleaseUrl(url: string, release: string) {
    var prefix := RELEASES + release + "/";
    prefix <= url && |url| > |prefix|
    && (forall j :: |prefix| <= j < |url| ==> url[j] != '/') && Plain(url)
  }

  lemma NumbersMakeAPath(a: string, b: string, c: string, file: string)
    requires IsDigits(a) && IsDigits(b) && IsDigits(c) && file != "" && forall j :: 0 <= j < |file| ==> file[j] != '/'
    ensures ReleasePath(a + "." + b + "." + c + "/" + file)
  {
    var version := a + "." + b + "." + c;
    var path, i := version + "/" + file, |version|;
    assert 0 < i < |path| - 1 && path[i] == '/';
    assert forall j :: 0 <= j < i ==> path[j] == version[j];
    assert forall j :: i < j < |path| ==> path[j] == file[j - i - 1];
  }

  /** head + "v" is the prefix, so the prefix cuts an address right after that v. */
  lemma CutAfterV(head: string, prefix: string, version: string, file: string)
    requires prefix == head + "v"
    ensures var url := head + ("v" + version) + "/" + file;
      prefix <= url && url[|prefix|..] == version + "/" + file
  {
    assert head + ("v" + version) + "/" + file == prefix + (version + "/" + file);
  }

  /** What the manifest accepts as an address of a release, the transfer accepts as immutable. */
  lemma ReleaseUrlIsImmutable(url: string, release: string)
    requires IsVersion(release) && ReleaseUrl(url, release)
    ensures ImmutableReleaseUrl(url)
  {
    var a, b, c :| IsDigits(a) && IsDigits(b) && IsDigits(c) && release == "v" + a + "." + b + "." + c;
    var version, head := a + "." + b + "." + c, RELEASES;
    assert release == "v" + version;
    var prefix := head + release + "/";
    var file := url[|prefix|..];
    assert url == prefix + file;
    CutAfterV(head, URL_PREFIX, version, file);
    NumbersMakeAPath(a, b, c, file);
  }

  // ----- the artifact set

  predicate IsName(s: string) {
    0 < |s| <= 32 && forall i :: 0 <= i < |s| ==> 'a' <= s[i] <= 'z' || s[i] == '-'
  }

  predicate WellFormed(a: NamedArtifact, release: string) {
    IsName(a.name) && 0 < a.file.size <= MAX_ARTIFACT_BYTES && IsDigest(a.file.sha256)
    && ReleaseUrl(a.file.url, release)
  }

  function NamesOf(arts: seq<NamedArtifact>): set<(string, Kind)> {
    set a | a in arts :: (a.name, a.kind)
  }

  function TotalSize(arts: seq<NamedArtifact>): nat {
    if arts == [] then 0 else TotalSize(arts[..|arts| - 1]) + arts[|arts| - 1].file.size
  }

  lemma {:induction false} NamesAreFew(arts: seq<NamedArtifact>)
    ensures |NamesOf(arts)| <= |arts|
    ensures |NamesOf(arts)| == |arts| ==> forall i, j :: 0 <= i < j < |arts| ==>
      (arts[i].name, arts[i].kind) != (arts[j].name, arts[j].kind)
  {
    if arts == [] {
      assert NamesOf(arts) == {};
    } else {
      var front, last := arts[..|arts| - 1], arts[|arts| - 1];
      NamesAreFew(front);
      assert arts == front + [last];
      assert NamesOf(arts) == NamesOf(front) + {(last.name, last.kind)};
      forall i | 0 <= i < |front|
        ensures (front[i].name, front[i].kind) in NamesOf(front)
      {
        assert front[i] in front;
      }
    }
  }

  lemma ExpectedIsFive()
    ensures |EXPECTED| == 5
  {
    var a, b, c, d, e := ("asb-tui", Executable), ("source", Source), ("licenses", LicenseReport), ("sbom", Sbom),
      ("provenance", Provenance);
    assert |{a}| == 1 && |{a, b}| == 2 && |{a, b, c}| == 3 && |{a, b, c, d}| == 4;
    assert EXPECTED == {a, b, c, d, e};
  }

  lemma OneMoreArtifact(arts: seq<NamedArtifact>, i: nat)
    requires i < |arts|
    ensures NamesOf(arts[..i + 1]) == NamesOf(arts[..i]) + {(arts[i].name, arts[i].kind)}
    ensures TotalSize(arts[..i + 1]) == TotalSize(arts[..i]) + arts[i].file.size
  {
    assert arts[..i + 1] == arts[..i] + [arts[i]];
    assert arts[..i + 1][..i] == arts[..i];
  }

  lemma RepeatedNameMissesOne(arts: seq<NamedArtifact>, i: nat)
    requires |arts| == 5 && i < 5 && (arts[i].name, arts[i].kind) in NamesOf(arts[..i])
    ensures NamesOf(arts) != EXPECTED
  {
    ExpectedIsFive();
    NamesAreFew(arts);
    var b :| b in arts[..i] && (b.name, b.kind) == (arts[i].name, arts[i].kind);
    var j :| 0 <= j < i && arts[j] == b;
  }

  /** `validate_artifacts`: exactly the five expected artifacts, each once and well formed, within the quota. */
  method ValidateArtifacts(arts: seq<NamedArtifact>, release: string) returns (error: Option<ManifestError>)
    ensures error.None? <==>
            |arts| == 5 && NamesOf(arts) == EXPECTED && TotalSize(arts) <= MAX_BUNDLE_BYTES
            && forall i :: 0 <= i < |arts| ==> WellFormed(arts[i], release)
  {
    if |arts| != 5 {
      return Some(IncompleteSet);
    }
    assert arts[..0] == [];
    var observed: set<(string, Kind)> := {};
    var total := 0;
    for i := 0 to 5
      invariant observed == NamesOf(arts[..i]) && total == TotalSize(arts[..i]) <= i * MAX_ARTIFACT_BYTES
      invariant forall j :: 0 <= j < i ==> WellFormed(arts[j], release)
    {
      var a := arts[i];
      var repeated := (a.name, a.kind) in observed;
      if !WellFormed(a, release) || repeated {
        if repeated {
          RepeatedNameMissesOne(arts, i);
        }
        return Some(ManifestError.InvalidArtifact);
      }
      OneMoreArtifact(arts, i);
      observed := observed + {(a.name, a.kind)};
      // The checked 64-bit addition cannot fail.
      assert total + a.file.size < U64_LIMIT;
      total := total + a.file.size;
    }
    assert arts[..5] == arts;
    if total > MAX_BUNDLE_BYTES {
      return Some(QuotaExceeded);
    }
    if observed != EXPECTED {
      return Some(IncompleteSet);
    }
    return None;
  }

  // ----- the component set

  datatype Pin = Pin(version: string, commit: string, tree: string, sha256: string)

  type Component = Item<string, Pin>

  predicate WellPinned(c: Component) {
    IsLowerHex(c.value.commit, 40) && IsLowerHex(c.value.tree, 40) && IsDigest(c.value.sha256)
  }

  /** `validate_components`, from the map that pins the shipped executable and its two companions. */
  method ValidateComponents(components: seq<Component>, expected: map<string, Pin>)
    returns (error: Option<ManifestError>)
    ensures error.None? <==>
            |components| == 3 && Lists(components, expected)
            && forall i :: 0 <= i < |components| ==> WellPinned(components[i])
  {
    if |components| != 3 {
      return Some(IncompleteSet);
    }
    var observed: map<string, Pin> := map[];
    for i := 0 to |components|
      invariant Lists(components[..i], observed)
      invariant forall j :: 0 <= j < i ==> WellPinned(components[j])
    {
      var c := components[i];
      OneMoreItem(components, i, observed);
      if !WellPinned(c) || c.key in observed {
        return Some(InvalidComponent);
      }
      observed := observed[c.key := c.value];
    }
    assert components[..|components|] == components;
    if observed != expected {
      if Lists(components, expected) {
        ListedMapIsDetermined(components, observed, expected);
      }
      return Some(IdentityMismatch);
    }
    return None;
  }

  // ----- obtaining every artifact

  /** The artifacts one after another, each in a world of its own, over one cache; the first error ends it. */
  function ObtainAll(arts: seq<NamedArtifact>, c: Cache, w: seq<World>, digest: string -> string)
    : (Cache, Result<map<string, string>, TransferError>)
    requires |w| == |arts|
    decreases |arts|
  {
    if arts == [] then (c, Ok(map[]))
    else
      var n := |arts| - 1;
      var (before, got) := ObtainAll(arts[..n], c, w[..n], digest);
      if got.Err? then (before, got)
      else
        var (after, bytes) := Obtain(arts[n].file, before, w[n], digest);
        (after, if bytes.Err? then Err(bytes.error) else Ok(got.value[arts[n].name := bytes.value]))
  }

  datatype BundleError = NotTransferred(why: TransferError) | NotApproved(what: DocumentError)

  method ObtainArtifacts(arts: seq<NamedArtifact>, cache: CacheDirectory, w: seq<World>, digest: string -> string)
    returns (result: Result<map<string, string>, TransferError>)
    requires |w| == |arts|
    modifies cache
    ensures (cache.Contents(), result) == ObtainAll(arts, old(cache.Contents()), w, digest)
  {
    var got: map<string, string> := map[];
    for i := 0 to |arts|
      invariant ObtainAll(arts[..i], old(cache.Contents()), w[..i], digest) == (cache.Contents(), Ok(got))
    {
      var upTo, worlds := arts[..i + 1], w[..i + 1];
      assert upTo[..i] == arts[..i] && worlds[..i] == w[..i];
      var bytes := cache.ObtainArtifact(arts[i].file, w[i], digest);
      if bytes.Err? {
        FirstErrorEnds(arts, old(cache.Contents()), w, digest, i + 1);
        return Err(bytes.error);
      }
      got := got[arts[i].name := bytes.value];
    }
    assert arts[..|arts|] == arts && w[..|arts|] == w;
    return Ok(got);
  }

  /** `obtain_verified_bundle`: every artifact, then the policy on the documents among them. */
  method ObtainVerifiedBundle(arts: seq<NamedArtifact>, cache: CacheDirectory, w: seq<World>, digest: string -> string,
                              r: Release, parse: Parser) returns (result: Result<map<string, string>, BundleError>)
    requires |w| == |arts|
    modifies cache
    ensures cache.Contents() == ObtainAll(arts, old(cache.Contents()), w, digest).0
    ensures var got := ObtainAll(arts, old(cache.Contents()), w, digest).1;
      (result.Ok? <==> got.Ok? && Approved(got.value, r, parse))
      && (result.Ok? ==> result.value == got.value)
      && (got.Err? ==> result == Err(NotTransferred(got.error)))
    ensures result.Ok? && DistinctNames(arts) ==> Holds(result.value, arts, digest)
  {
    var got := ObtainArtifacts(arts, cache, w, digest);
    if got.Err? {
      return Err(NotTransferred(got.error));
    }
    if DistinctNames(arts) {
      BundleIsAuthentic(arts, old(cache.Contents()), w, digest);
    }
    var error := ValidateDocuments(got.value, r, parse);
    if error.Some? {
      return Err(NotApproved(error.value));
    }
    return Ok(got.value);
  }

  lemma {:induction false} FirstErrorEnds(arts: seq<NamedArtifact>, c: Cache, w: seq<World>, digest: string -> string,
                                          i: nat)
    requires |w| == |arts| && i <= |arts| && ObtainAll(arts[..i], c, w[..i], digest).1.Err?
    ensures ObtainAll(arts, c, w, digest) == ObtainAll(arts[..i], c, w[..i], digest)
    decreases |arts|
  {
    if i < |arts| {
      var n := |arts| - 1;
      assert arts[..n][..i] == arts[..i] && w[..n][..i] == w[..i];
      FirstErrorEnds(arts[..n], c, w[..n], digest, i);
    } else {
      assert arts[..i] == arts && w[..i] == w;
    }
  }

  predicate Authentic(bytes: string, a: Artifact, digest: string -> string) {
    |bytes| == a.size && digest(bytes) == a.sha256
  }

  predicate DistinctNames(arts: seq<NamedArtifact>) {
    forall i, j :: 0 <= i < j < |arts| ==> arts[i].name != arts[j].name
  }

  /** The map holds exactly these artifacts, under their names, each authentic. */
  ghost predicate Holds(got: map<string, string>, arts: seq<NamedArtifact>, digest: string -> string) {
    (forall n :: n in got <==> exists i :: 0 <= i < |arts| && arts[i].name == n)
    && forall i :: 0 <= i < |arts| ==> arts[i].name in got && Authentic(got[arts[i].name], arts[i].file, digest)
  }

  lemma HoldsOneMore(got: map<string, string>, arts: seq<NamedArtifact>, a: NamedArtifact, bytes: string,
                     digest: string -> string)
    requires Holds(got, arts, digest) && Authentic(bytes, a.file, digest)
    requires forall i :: 0 <= i < |arts| ==> arts[i].name != a.name
    ensures Holds(got[a.name := bytes], arts + [a], digest)
  {
    var all := arts + [a];
    assert all[|arts|] == a && forall i :: 0 <= i < |arts| ==> all[i] == arts[i];
  }

  /**
   Against any sources and caches, the bundle obtained holds every artifact by name, with its declared size and
   digest.
   */
  lemma {:induction false} BundleIsAuthentic(arts: seq<NamedArtifact>, c: Cache, w: seq<World>,
                                             digest: string -> string)
    requires |w| == |arts| && ObtainAll(arts, c, w, digest).1.Ok? && DistinctNames(arts)
    ensures Holds(ObtainAll(arts, c, w, digest).1.value, arts, digest)
    decreases |arts|
  {
    if arts == [] {
      HoldsNothing(arts, digest);
    } else {
      var n := |arts| - 1;
      var front, last := arts[..n], arts[n];
      assert arts == front + [last];
      assert DistinctNames(front) && forall i :: 0 <= i < |front| ==> front[i].name != last.name;
      var got, bytes := LastObtained(arts, c, w, digest);
      BundleIsAuthentic(front, c, w[..n], digest);
      HoldsOneMore(got, front, last, bytes, digest);
    }
  }

  lemma HoldsNothing(arts: seq<NamedArtifact>, digest: string -> string)
    requires arts == []
    ensures Holds(map[], arts, digest)
  {
  }

  lemma LastObtained(arts: seq<NamedArtifact>, c: Cache, w: seq<World>, digest: string -> string)
    returns (got: map<string, string>, bytes: string)
    requires |w| == |arts| > 0 && ObtainAll(arts, c, w, digest).1.Ok?
    ensures ObtainAll(arts[..|arts| - 1], c, w[..|arts| - 1], digest).1 == Ok(got)
    ensures ObtainAll(arts, c, w, digest).1.value == got[arts[|arts| - 1].name := bytes]
    ensures Authentic(bytes, arts[|arts| - 1].file, digest)
  {
    var n := |arts| - 1;
    var (before, first) := ObtainAll(arts[..n], c, w[..n], digest);
    got := first.value;
    OkIsAuthentic(arts[n].file, before, w[n], digest);
    bytes := Obtain(arts[n].file, before, w[n], digest).1.value;
  }

  /** An accepted manifest never fails the transfer's own guard, and its five names are distinct. */
  lemma AcceptedArtifactsAreTransferable(arts: seq<NamedArtifact>, release: string)
    requires IsVersion(release) && |arts| == 5 && NamesOf(arts) == EXPECTED
    requires forall i :: 0 <= i < |arts| ==> WellFormed(arts[i], release)
    ensures forall i :: 0 <= i < |arts| ==> Acceptable(arts[i].file)
    ensures DistinctNames(arts)
  {
    forall i | 0 <= i < |arts|
      ensures Acceptable(arts[i].file)
    {
      ReleaseUrlIsImmutable(arts[i].file.url, release);
    }
    ExpectedNamesAreDistinct(arts);
  }

  lemma ExpectedNamesAreDistinct(arts: seq<NamedArtifact>)
    requires |arts| == 5 && NamesOf(arts) == EXPECTED
    ensures DistinctNames(arts)
  {
    ExpectedIsFive();
    NamesAreFew(arts);
    KindFollowsName();
    forall i | 0 <= i < |arts|
      ensures (arts[i].name, arts[i].kind) in EXPECTED
    {
      assert arts[i] in arts;
    }
  }

  lemma KindFollowsName()
    ensures forall p, q :: p in EXPECTED && q in EXPECTED && p.0 == q.0 ==> p == q
  {
    assert |"asb-tui"| == 7 && |"source"| == 6 && |"licenses"| == 8 && |"sbom"| == 4 && |"provenance"| == 10;
  }
}
