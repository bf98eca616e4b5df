/**
 The semantic policy on a bundle's metadata documents: the licence report and the SBOM must list the expected
 inventory, and the provenance must name the release's own source. The JSON parser is a parameter.
 */
module BundleDocuments {
  import opened Results
  import opened Numbers
  import opened JsonText
  import opened JsonMap
  import opened Inventories

  datatype Identity = Identity(name: string, version: string)

  type Package = Item<Identity, string>

  /** What the manifest and the built-in SBOM fix. */
  datatype Release = Release(name: string, sourceCommit: string, sourceTree: string, inventory: map<Identity, string>)

  datatype DocumentError =
    | LicensesMissing | LicensesInvalid | LicensePolicyRejected | LicensesIncomplete
    | SbomMissing | SbomInvalid | SbomIncomplete | ProvenanceMissing | ProvenanceInvalid

  type Parser = string -> Option<Json>

  // ----- reading a list item by item

  function ReadEach(items: seq<Json>, read: Json -> Option<Package>): Option<seq<Package>> {
    if items == [] then Some([])
    else
      var first, rest := read(items[0]), ReadEach(items[1..], read);
      if first.None? || rest.None? then None else Some([first.value] + rest.value)
  }

  lemma {:induction false} AllRead(items: seq<Json>, read: Json -> Option<Package>, ps: seq<Package>)
    requires |ps| == |items| && forall i :: 0 <= i < |items| ==> read(items[i]) == Some(ps[i])
    ensures ReadEach(items, read) == Some(ps)
  {
    if items != [] {
      AllRead(items[1..], read, ps[1..]);
      assert ps == [ps[0]] + ps[1..];
    }
  }

  lemma {:induction false} SomeUnread(items: seq<Json>, read: Json -> Option<Package>, i: nat)
    requires i < |items| && read(items[i]).None?
    ensures ReadEach(items, read).None?
  {
    if i > 0 {
      SomeUnread(items[1..], read, i - 1);
    }
  }

  lemma {:induction false} ReadEachAt(items: seq<Json>, read: Json -> Option<Package>, i: nat)
    requires ReadEach(items, read).Some? && i < |items|
    ensures |ReadEach(items, read).value| == |items| && read(items[i]) == Some(ReadEach(items, read).value[i])
    decreases items
  {
    if i > 0 {
      ReadEachAt(items[1..], read, i - 1);
    } else if |items| > 1 {
      ReadEachAt(items[1..], read, 0);
    }
  }

  // ----- the SBOM

  /** `Value::get` on a parsed value: the last binding counts. */
  function Field(v: Json, key: string): Option<Json> {
    if v.Object? then LastLookup(v.members, key) else None
  }

  function NonEmpty(o: Option<Json>): Option<string> {
    var s := AsString(o);
    if s == Some("") then None else s
  }

  function SpdxPackage(v: Json): Option<Package> {
    var name, version := NonEmpty(Field(v, "name")), NonEmpty(Field(v, "versionInfo"));
    var license := NonEmpty(Field(v, "licenseDeclared"));
    if name.Some? && version.Some? && license.Some?
    then Some(Item(Identity(name.value, version.value), license.value)) else None
  }

  function SpdxPackages(document: Json): Option<seq<Package>> {
    var packages := Field(document, "packages");
    if packages.Some? && packages.value.Array? then ReadEach(packages.value.items, SpdxPackage) else None
  }

  /** `spdx_inventory`: every package complete, none repeated. */
  method SpdxInventory(document: Json) returns (inventory: Option<map<Identity, string>>)
    ensures inventory.Some? <==> SpdxPackages(document).Some? && OncePerKey(SpdxPackages(document).value)
    ensures inventory.Some? ==> Lists(SpdxPackages(document).value, inventory.value)
  {
    var packages := Field(document, "packages");
    if packages.None? || !packages.value.Array? {
      return None;
    }
    var items := packages.value.items;
    var listed: map<Identity, string> := map[];
    ghost var done: seq<Package> := [];
    for i := 0 to |items|
      invariant |done| == i && forall j :: 0 <= j < i ==> SpdxPackage(items[j]) == Some(done[j])
      invariant Lists(done, listed)
    {
      var p := SpdxPackage(items[i]);
      if p.None? {
        SomeUnread(items, SpdxPackage, i);
        return None;
      }
      if p.value.key in listed {
        RepeatedPackage(items, done, i, listed);
        return None;
      }
      OneMoreItem(done + [p.value], i, listed);
      assert (done + [p.value])[..i] == done && (done + [p.value])[..i + 1] == done + [p.value];
      done := done + [p.value];
      listed := listed[p.value.key := p.value.value];
    }
    AllRead(items, SpdxPackage, done);
    return Some(listed);
  }

  lemma RepeatedPackage(items: seq<Json>, done: seq<Package>, i: nat, listed: map<Identity, string>)
    requires i == |done| < |items| && Lists(done, listed)
    requires forall j :: 0 <= j < i ==> SpdxPackage(items[j]) == Some(done[j])
    requires SpdxPackage(items[i]).Some? && SpdxPackage(items[i]).value.key in listed
    ensures ReadEach(items, SpdxPackage).Some? ==> !OncePerKey(ReadEach(items, SpdxPackage).value)
  {
    var ps := ReadEach(items, SpdxPackage);
    if ps.Some? {
      var j :| 0 <= j < i && done[j].key == SpdxPackage(items[i]).value.key;
      ReadEachAt(items, SpdxPackage, i);
      ReadEachAt(items, SpdxPackage, j);
    }
  }

  predicate SbomApproved(text: string, r: Release, parse: Parser) {
    parse(text).Some?
    && var v := parse(text).value;
    AsString(Field(v, "spdxVersion")) == Some("SPDX-2.3") && AsString(Field(v, "name")) == Some("asb-tui-" + r.name)
    && SpdxPackages(v).Some? && Lists(SpdxPackages(v).value, r.inventory)
  }

  method CheckSbom(text: string, r: Release, parse: Parser) returns (error: Option<DocumentError>)
    ensures error.None? <==> SbomApproved(text, r, parse)
  {
    var v := parse(text);
    if v.None? || AsString(Field(v.value, "spdxVersion")) != Some("SPDX-2.3")
       || AsString(Field(v.value, "name")) != Some("asb-tui-" + r.name) {
      return Some(SbomInvalid);
    }
    var inventory := SpdxInventory(v.value);
    if inventory.None? {
      return Some(SbomInvalid);
    }
    OnlyListedMapsMatch(SpdxPackages(v.value).value, inventory.value, r.inventory);
    if exists id :: id in r.inventory && id !in inventory.value {
      return Some(SbomIncomplete);
    }
    if inventory.value != r.inventory {
      return Some(SbomInvalid);
    }
    return None;
  }

  lemma OnlyListedMapsMatch(ps: seq<Package>, m: map<Identity, string>, n: map<Identity, string>)
    requires Lists(ps, m)
    ensures Lists(ps, n) <==> m == n
  {
    if Lists(ps, n) {
      ListedMapIsDetermined(ps, m, n);
    }
  }

  // ----- the licence report

  datatype Report = Report(schemaVersion: u64, release: string, packages: seq<Package>)

  function ReadPackage(v: Json): Option<Package> {
    var fields := Decode(["name", "version", "license"], v);
    if fields.None? then None
    else
      var name, version, license := AsString(fields.value[0]), AsString(fields.value[1]), AsString(fields.value[2]);
      if name.Some? && version.Some? && license.Some?
      then Some(Item(Identity(name.value, version.value), license.value)) else None
  }

  function ReadReport(v: Json): Option<Report> {
    var fields := Decode(["schema_version", "release", "packages"], v);
    if fields.None? then None
    else
      var schema, release, packages := AsNat(fields.value[0], U64_LIMIT), AsString(fields.value[1]), fields.value[2];
      if schema.Some? && schema.value < U64_LIMIT && release.Some? && packages.Some? && packages.value.Array?
         && ReadEach(packages.value.items, ReadPackage).Some?
      then Some(Report(schema.value, release.value, ReadEach(packages.value.items, ReadPackage).value)) else None
  }

  predicate Named(ps: seq<Package>) {
    forall i :: 0 <= i < |ps| ==> ps[i].key.name != "" && ps[i].key.version != ""
  }

  /** The report lists the expected inventory, each package once; it is incomplete when that is all that is wrong. */
  method CheckLicenses(packages: seq<Package>, expected: map<Identity, string>) returns (error: Option<DocumentError>)
    ensures error.None? <==> Named(packages) && Lists(packages, expected)
    ensures error == Some(LicensesIncomplete) <==>
            Named(packages) && OncePerKey(packages) && Agrees(packages, expected) && !Covers(packages, expected)
  {
    var inventory: map<Identity, string> := map[];
    for i := 0 to |packages|
      invariant Lists(packages[..i], inventory) && Named(packages[..i]) && Agrees(packages[..i], expected)
      invariant forall id :: id in inventory ==> id in expected && expected[id] == inventory[id]
    {
      var p := packages[i];
      assert packages[..i + 1] == packages[..i] + [p];
      OneMoreItem(packages, i, inventory);
      if p.key.name == "" || p.key.version == "" || p.key !in expected || expected[p.key] != p.value
         || p.key in inventory {
        return Some(LicensePolicyRejected);
      }
      inventory := inventory[p.key := p.value];
    }
    assert packages[..|packages|] == packages;
    if exists id :: id in expected && id !in inventory {
      assert !Covers(packages, expected) by {
        var id :| id in expected && id !in inventory;
        assert forall i :: 0 <= i < |packages| ==> packages[i].key in inventory;
      }
      return Some(LicensesIncomplete);
    }
    // The last comparison of the two maps cannot fail any more.
    assert inventory == expected;
    return None;
  }

  predicate LicensesApproved(text: string, r: Release, parse: Parser) {
    parse(text).Some? && ReadReport(parse(text).value).Some?
    && var report := ReadReport(parse(text).value).value;
    report.schemaVersion == 1 && report.release == r.name && Named(report.packages)
    && Lists(report.packages, r.inventory)
  }

  // ----- the provenance

  const PROVENANCE_FIELDS: seq<string> :=
    ["schema_version", "release", "source_commit", "source_tree", "builder", "reproducible"]

  predicate ProvenanceApproved(text: string, r: Release, parse: Parser) {
    parse(text).Some? && Decode(PROVENANCE_FIELDS, parse(text).value).Some?
    && var f := Decode(PROVENANCE_FIELDS, parse(text).value).value;
    AsNat(f[0], U64_LIMIT) == Some(1) && AsString(f[1]) == Some(r.name) && AsString(f[2]) == Some(r.sourceCommit)
    && AsString(f[3]) == Some(r.sourceTree) && AsString(f[4]) == Some("github-actions") && AsBool(f[5]) == Some(true)
  }

  // ----- all three

  predicate Approved(artifacts: map<string, string>, r: Release, parse: Parser) {
    "licenses" in artifacts && LicensesApproved(artifacts["licenses"], r, parse)
    && "sbom" in artifacts && SbomApproved(artifacts["sbom"], r, parse)
    && "provenance" in artifacts && ProvenanceApproved(artifacts["provenance"], r, parse)
  }

  /** `validate_bundle_documents`. */
  method ValidateDocuments(artifacts: map<string, string>, r: Release, parse: Parser)
    returns (error: Option<DocumentError>)
    ensures error.None? <==> Approved(artifacts, r, parse)
  {
    if "licenses" !in artifacts {
      return Some(LicensesMissing);
    }
    var licenses := parse(artifacts["licenses"]);
    if licenses.None? || ReadReport(licenses.value).None? {
      return Some(LicensesInvalid);
    }
    var report := ReadReport(licenses.value).value;
    if report.schemaVersion != 1 || report.release != r.name {
      return Some(LicensesInvalid);
    }
    error := CheckLicenses(report.packages, r.inventory);
    if error.Some? {
      return;
    }
    if "sbom" !in artifacts {
      return Some(SbomMissing);
    }
    error := CheckSbom(artifacts["sbom"], r, parse);
    if error.Some? {
      return;
    }
    if "provenance" !in artifacts {
      return Some(ProvenanceMissing);
    }
    if !ProvenanceApproved(artifacts["provenance"], r, parse) {
      return Some(ProvenanceInvalid);
    }
  }

  /** In an approved bundle the licence report and the SBOM list the same packages with the same licences. */
  lemma ReportAndSbomAgree(artifacts: map<string, string>, r: Release, parse: Parser, p: Package)
    requires Approved(artifacts, r, parse)
    ensures p in ReadReport(parse(artifacts["licenses"]).value).value.packages <==>
            p in SpdxPackages(parse(artifacts["sbom"]).value).value
  {
    ListedItems(ReadReport(parse(artifacts["licenses"]).value).value.packages, r.inventory, p);
    ListedItems(SpdxPackages(parse(artifacts["sbom"]).value).value, r.inventory, p);
  }

  lemma ListedItems(ps: seq<Package>, m: map<Identity, string>, p: Package)
    requires Lists(ps, m)
    ensures p in ps <==> p.key in m && m[p.key] == p.value
  {
    if p.key in m && m[p.key] == p.value {
      var i :| 0 <= i < |ps| && ps[i].key == p.key;
      assert ps[i] == p;
    }
  }
}
