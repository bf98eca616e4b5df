/**
 The materialized configuration document, its canonical text and digest, and the reader that
 accepts a stored text. The digest function is a parameter of every member that uses it.
 */
module MaterializedBundle {
  import opened Results
  import opened Numbers
  import opened TextRules
  import opened JsonText
  import opened JsonPrinter
  import opened JsonMap

  const MAX_TEXT_BYTES: nat := 256
  const MAX_LIST: nat := 256
  const MAX_FILE_BYTES: nat := 256 * 1024
  const SCHEMA_VERSION: nat := 1

  type Digest = string -> string

  datatype AuthMethod = CredentialReference | LocalDaemon | NoAuth

  datatype ExecutionMode = LocalMock | Live

  datatype Provider = Provider(agentIds: seq<string>, providerId: string, modelId: string, authMethod: AuthMethod,
                               credential: Option<string>, generation: u64, catalogDigest: string, mode: ExecutionMode)

  datatype Benchmark = Benchmark(generation: u64, catalogDigest: string, poolId: string, groupIds: seq<string>,
                                 benchmarkIds: seq<string>, measureIds: seq<string>)

  datatype Document = Document(schemaVersion: u32, asbProtocol: string, asbVersion: string, provider: Provider,
                               benchmark: Benchmark, digest: string)

  datatype Bundle = Bundle(document: Document, canonicalJson: string, digest: string)

  datatype Error = Invalid(what: string) | StaleProviderCatalog | StaleBenchmarkCatalog | RawSecret | Io

  // ----- canonical text

  const PROVIDER_FIELDS: seq<string> :=
    ["agent_ids", "provider_id", "model_id", "auth_method", "credential_reference_sha256",
     "catalog_generation", "catalog_digest", "execution_mode"]
  const BENCHMARK_FIELDS: seq<string> :=
    ["generation", "catalog_digest", "pool_id", "group_ids", "benchmark_ids", "measure_ids"]
  const DOCUMENT_FIELDS: seq<string> :=
    ["schema_version", "asb_protocol", "asb_version", "provider", "benchmark", "configuration_digest_sha256"]

  function AuthText(a: AuthMethod): string {
    match a case CredentialReference => "credential_reference" case LocalDaemon => "local_daemon" case NoAuth => "none"
  }

  function ModeText(m: ExecutionMode): string {
    match m case LocalMock => "local-mock" case Live => "live"
  }

  function ProviderValues(p: Provider): seq<Json> {
    [OfStrings(p.agentIds), Str(p.providerId), Str(p.modelId), Str(AuthText(p.authMethod)),
     OfOptionalString(p.credential), OfNat(p.generation), Str(p.catalogDigest), Str(ModeText(p.mode))]
  }

  function BenchmarkValues(b: Benchmark): seq<Json> {
    [OfNat(b.generation), Str(b.catalogDigest), Str(b.poolId), OfStrings(b.groupIds), OfStrings(b.benchmarkIds),
     OfStrings(b.measureIds)]
  }

  function DocumentValues(d: Document): seq<Json> {
    [OfNat(d.schemaVersion), Str(d.asbProtocol), Str(d.asbVersion), Record(PROVIDER_FIELDS, ProviderValues(d.provider)),
     Record(BENCHMARK_FIELDS, BenchmarkValues(d.benchmark)), Str(d.digest)]
  }

  function DocumentJson(d: Document): Json {
    Record(DOCUMENT_FIELDS, DocumentValues(d))
  }

  function Canonical(d: Document): string {
    Print(DocumentJson(d), Compact)
  }

  /** The digest a document must carry: over its canonical text with the digest field emptied. */
  function ExpectedDigest(d: Document, digest: Digest): string {
    digest("asb-tui.materialized.v1" + [0 as char] + Canonical(d.(digest := "")))
  }

  predicate SelfConsistent(b: Bundle, digest: Digest) {
    var expected := ExpectedDigest(b.document, digest);
    b.digest == expected && b.document.digest == expected && b.canonicalJson == Canonical(b.document)
  }

  // ----- reading

  function ReadAuth(o: Option<string>): Option<AuthMethod> {
    if o == Some("credential_reference") then Some(CredentialReference)
    else if o == Some("local_daemon") then Some(LocalDaemon)
    else if o == Some("none") then Some(NoAuth)
    else None
  }

  /** An absent mode is the default, local mock; a present one must be spelled exactly. */
  function ReadMode(o: Option<Json>): Option<ExecutionMode> {
    if o.None? then Some(LocalMock)
    else if AsString(o) == Some("local-mock") then Some(LocalMock)
    else if AsString(o) == Some("live") then Some(Live)
    else None
  }

  function ProviderOf(f: seq<Option<Json>>): Option<Provider>
    requires |f| == 8
  {
    var agents, provider, model, auth := AsStrings(f[0]), AsString(f[1]), AsString(f[2]), ReadAuth(AsString(f[3]));
    var credential, generation := AsOptionalString(f[4]), AsNat(f[5], U64_LIMIT);
    var catalog, mode := AsString(f[6]), ReadMode(f[7]);
    if agents.Some? && provider.Some? && model.Some? && auth.Some? && credential.Some? && generation.Some?
       && generation.value < U64_LIMIT && catalog.Some? && mode.Some? then
      Some(Provider(agents.value, provider.value, model.value, auth.value, credential.value, generation.value,
                    catalog.value, mode.value))
    else None
  }

  function ReadProvider(o: Option<Json>): Option<Provider> {
    if o.None? || Decode(PROVIDER_FIELDS, o.value).None? then None
    else ProviderOf(Decode(PROVIDER_FIELDS, o.value).value)
  }

  function BenchmarkOf(f: seq<Option<Json>>): Option<Benchmark>
    requires |f| == 6
  {
    var generation, catalog, pool := AsNat(f[0], U64_LIMIT), AsString(f[1]), AsString(f[2]);
    var groups, benchmarks, measures := AsStrings(f[3]), AsStrings(f[4]), AsStrings(f[5]);
    if generation.Some? && generation.value < U64_LIMIT && catalog.Some? && pool.Some? && groups.Some?
       && benchmarks.Some? && measures.Some? then
      Some(Benchmark(generation.value, catalog.value, pool.value, groups.value, benchmarks.value, measures.value))
    else None
  }

  function ReadBenchmark(o: Option<Json>): Option<Benchmark> {
    if o.None? || Decode(BENCHMARK_FIELDS, o.value).None? then None
    else BenchmarkOf(Decode(BENCHMARK_FIELDS, o.value).value)
  }

  function DocumentOf(f: seq<Option<Json>>): Option<Document>
    requires |f| == 6
  {
    var version, protocol, asb := AsNat(f[0], U32_LIMIT), AsString(f[1]), AsString(f[2]);
    var provider, benchmark, digest := ReadProvider(f[3]), ReadBenchmark(f[4]), AsString(f[5]);
    if version.Some? && version.value < U32_LIMIT && protocol.Some? && asb.Some? && provider.Some?
       && benchmark.Some? && digest.Some? then
      Some(Document(version.value, protocol.value, asb.value, provider.value, benchmark.value, digest.value))
    else None
  }

  function ReadDocument(v: Json): Option<Document> {
    if Decode(DOCUMENT_FIELDS, v).None? then None else DocumentOf(Decode(DOCUMENT_FIELDS, v).value)
  }

  /** The checks a stored text passes after it has been parsed: decode, recompute, compare. */
  function Accept(parsed: Option<Json>, digest: Digest): Result<Bundle, Error> {
    if parsed.None? || ReadDocument(parsed.value).None? then Err(Invalid("bundle json"))
    else
      var d := ReadDocument(parsed.value).value;
      if d.digest != ExpectedDigest(d, digest) then Err(Invalid("bundle digest"))
      else Ok(Bundle(d, Canonical(d), d.digest))
  }

  /** What reading a stored text gives. */
  ghost function LoadText(text: string, digest: Digest): Result<Bundle, Error> {
    if |text| > MAX_FILE_BYTES then Err(Invalid("bundle size")) else Accept(Parse(text), digest)
  }

  // ----- canonical text reads back

  lemma EnumsReadBack(a: AuthMethod, m: ExecutionMode)
    ensures ReadAuth(Some(AuthText(a))) == Some(a)
    ensures ReadMode(Some(Str(ModeText(m)))) == Some(m)
  {
  }

  lemma ProviderFieldsReadBack(p: Provider, f: seq<Option<Json>>)
    requires |f| == 8 && forall i :: 0 <= i < 8 ==> f[i] == Some(ProviderValues(p)[i])
    ensures ProviderOf(f) == Some(p)
  {
    StringsField(p.agentIds);
    NatField(p.generation, U64_LIMIT);
    EnumsReadBack(p.authMethod, p.mode);
  }

  lemma ProviderReadsBack(p: Provider)
    ensures ReadProvider(Some(Record(PROVIDER_FIELDS, ProviderValues(p)))) == Some(p)
  {
    DecodeRecord(PROVIDER_FIELDS, ProviderValues(p));
    ProviderFieldsReadBack(p, Decode(PROVIDER_FIELDS, Record(PROVIDER_FIELDS, ProviderValues(p))).value);
  }

  lemma BenchmarkFieldsReadBack(b: Benchmark, f: seq<Option<Json>>)
    requires |f| == 6 && forall i :: 0 <= i < 6 ==> f[i] == Some(BenchmarkValues(b)[i])
    ensures BenchmarkOf(f) == Some(b)
  {
    NatField(b.generation, U64_LIMIT);
    StringsField(b.groupIds);
    StringsField(b.benchmarkIds);
    StringsField(b.measureIds);
  }

  lemma BenchmarkReadsBack(b: Benchmark)
    ensures ReadBenchmark(Some(Record(BENCHMARK_FIELDS, BenchmarkValues(b)))) == Some(b)
  {
    DecodeRecord(BENCHMARK_FIELDS, BenchmarkValues(b));
    BenchmarkFieldsReadBack(b, Decode(BENCHMARK_FIELDS, Record(BENCHMARK_FIELDS, BenchmarkValues(b))).value);
  }

  lemma {:induction false} DocumentFieldsReadBack(d: Document, f: seq<Option<Json>>)
    requires |f| == 6 && forall i :: 0 <= i < 6 ==> f[i] == Some(DocumentValues(d)[i])
    ensures DocumentOf(f) == Some(d)
  {
    NatField(d.schemaVersion, U32_LIMIT);
    ProviderReadsBack(d.provider);
    BenchmarkReadsBack(d.benchmark);
  }

  lemma DocumentReadsBack(d: Document)
    ensures ReadDocument(DocumentJson(d)) == Some(d)
  {
    DecodeRecord(DOCUMENT_FIELDS, DocumentValues(d));
    DocumentFieldsReadBack(d, Decode(DOCUMENT_FIELDS, DocumentJson(d)).value);
  }

  lemma DocumentIsPrintable(d: Document)
    ensures Printable(DocumentJson(d))
  {
    StringsArePrintable(d.provider.agentIds);
    OfNatIsPrintable(d.provider.generation);
    RecordIsPrintable(PROVIDER_FIELDS, ProviderValues(d.provider));
    OfNatIsPrintable(d.benchmark.generation);
    StringsArePrintable(d.benchmark.groupIds);
    StringsArePrintable(d.benchmark.benchmarkIds);
    StringsArePrintable(d.benchmark.measureIds);
    RecordIsPrintable(BENCHMARK_FIELDS, BenchmarkValues(d.benchmark));
    OfNatIsPrintable(d.schemaVersion);
    RecordIsPrintable(DOCUMENT_FIELDS, DocumentValues(d));
  }

  /** A canonical text determines its document, digest field included. */
  lemma CanonicalIsInjective(d: Document, e: Document)
    requires Canonical(d) == Canonical(e)
    ensures d == e
  {
    DocumentIsPrintable(d);
    DocumentIsPrintable(e);
    PrintIsInjective(DocumentJson(d), Compact, DocumentJson(e), Compact);
    DocumentReadsBack(d);
    DocumentReadsBack(e);
  }

  /** The stored form of a self-consistent bundle reads back as that bundle, if it fits the file bound. */
  lemma StoredBundleLoads(b: Bundle, digest: Digest)
    requires SelfConsistent(b, digest) && |b.canonicalJson| <= MAX_FILE_BYTES
    ensures LoadText(b.canonicalJson, digest) == Ok(b)
  {
    DocumentIsPrintable(b.document);
    ParsePrint(DocumentJson(b.document), Compact);
    DocumentReadsBack(b.document);
  }

  /** Whatever loads is self-consistent, even when the stored text was not canonical. */
  lemma LoadedIsConsistent(text: string, digest: Digest)
    requires LoadText(text, digest).Ok?
    ensures SelfConsistent(LoadText(text, digest).value, digest)
  {
  }

  /** A text cut short anywhere, to nothing at all included, does not load. */
  lemma TornTextDoesNotLoad(b: Bundle, digest: Digest, torn: string)
    requires SelfConsistent(b, digest) && torn <= b.canonicalJson && torn != b.canonicalJson
    ensures LoadText(torn, digest).Err?
  {
    DocumentIsPrintable(b.document);
    TornPrintDoesNotParse(DocumentJson(b.document), Compact, torn);
  }

  /** One digest, two different self-consistent bundles: only if the digest function collides on their texts. */
  lemma DigestBindsBundle(a: Bundle, b: Bundle, digest: Digest)
    requires SelfConsistent(a, digest) && SelfConsistent(b, digest) && a.digest == b.digest
    ensures a == b
         || exists x, y :: x != y && digest(x) == digest(y)
              && x == "asb-tui.materialized.v1" + [0 as char] + Canonical(a.document.(digest := ""))
              && y == "asb-tui.materialized.v1" + [0 as char] + Canonical(b.document.(digest := ""))
  {
    var head := "asb-tui.materialized.v1" + [0 as char];
    var ua, ub := a.document.(digest := ""), b.document.(digest := "");
    var x, y := head + Canonical(ua), head + Canonical(ub);
    assert digest(x) == digest(y);
    if x == y {
      assert Canonical(ua) == x[|head|..] && Canonical(ub) == y[|head|..];
      CanonicalIsInjective(ua, ub);
      assert a.document == ua.(digest := a.digest) && b.document == ub.(digest := b.digest);
    }
  }

  // ----- building

  datatype Selection = Selection(agentIds: seq<string>, providerId: string, modelId: string, authMethod: AuthMethod,
                                 credential: Option<string>)

  datatype Input = Input(provider: Selection, providerGeneration: u64, providerDigest: string, benchmark: Benchmark,
                         asbProtocol: string, asbVersion: string, mode: ExecutionMode)

  /** The reviewed provider draft the input is compared with. */
  datatype Draft = Draft(generation: u64, selection: Selection, catalogDigest: string)

  predicate ValidText(s: string, max: nat) {
    s != "" && |s| <= max && !HasControl(s)
  }

  predicate ValidDigest(s: string) {
    |s| == 64 && forall i :: 0 <= i < |s| ==> IsHexDigit(s[i])
  }

  function SelectionError(s: Selection): Option<Error> {
    if s.agentIds == [] || |s.agentIds| > MAX_LIST then Some(Invalid("agents"))
    else if (exists i :: 0 <= i < |s.agentIds| && !ValidText(s.agentIds[i], MAX_ID_BYTES))
            || !ValidText(s.providerId, MAX_ID_BYTES) || !ValidText(s.modelId, MAX_ID_BYTES)
    then Some(Invalid("text"))
    else if s.credential.Some? && |s.credential.value| != 64 then Some(RawSecret)
    else None
  }

  /** `build`: review checks in order, then the sealed document. campaignValid is the benchmark catalog's verdict. */
  function Build(input: Input, draft: Draft, campaignValid: bool, expectedProvider: u64, expectedBenchmark: u64,
                 digest: Digest): Result<Bundle, Error> {
    if draft.generation != expectedProvider || input.providerGeneration != expectedProvider then
      Err(StaleProviderCatalog)
    else if input.benchmark.generation != expectedBenchmark || !campaignValid then Err(StaleBenchmarkCatalog)
    else if !ValidText(input.asbProtocol, MAX_TEXT_BYTES) || !ValidText(input.asbVersion, MAX_TEXT_BYTES)
    then Err(Invalid("text"))
    else if !ValidDigest(input.providerDigest) || !ValidDigest(input.benchmark.catalogDigest) then
      Err(Invalid("digest"))
    else if SelectionError(input.provider).Some? then Err(SelectionError(input.provider).value)
    else if draft.selection != input.provider then Err(Invalid("provider review changed"))
    else if draft.catalogDigest != input.providerDigest then Err(StaleProviderCatalog)
    else if input.provider.authMethod.CredentialReference? != input.provider.credential.Some? then
      Err(Invalid("credential reference"))
    else if input.provider.credential.Some? && !ValidDigest(input.provider.credential.value) then Err(Invalid("digest"))
    else if input.benchmark.measureIds == [] then Err(Invalid("empty measures"))
    else
      var p := input.provider;
      var provider := Provider(p.agentIds, p.providerId, p.modelId, p.authMethod, p.credential,
                               input.providerGeneration, input.providerDigest, input.mode);
      var unsigned := Document(SCHEMA_VERSION, input.asbProtocol, input.asbVersion, provider, input.benchmark, "");
      var sealed := unsigned.(digest := ExpectedDigest(unsigned, digest));
      Ok(Bundle(sealed, Canonical(sealed), sealed.digest))
  }

  /**
   Every built bundle passes the integrity check, is bound to the reviewed draft and both expected
   generations, and survives storage: its text loads as exactly this bundle when it fits the file bound.
   */
  lemma BuiltBundleIsSound(input: Input, draft: Draft, campaignValid: bool, expectedProvider: u64,
                           expectedBenchmark: u64, digest: Digest)
    requires Build(input, draft, campaignValid, expectedProvider, expectedBenchmark, digest).Ok?
    ensures var b := Build(input, draft, campaignValid, expectedProvider, expectedBenchmark, digest).value;
      && SelfConsistent(b, digest)
      && b.document.provider.generation == draft.generation == expectedProvider
      && b.document.provider.catalogDigest == draft.catalogDigest
      && b.document.provider.agentIds == draft.selection.agentIds
      && b.document.benchmark == input.benchmark && b.document.benchmark.generation == expectedBenchmark
      && (b.document.provider.credential.Some? <==> b.document.provider.authMethod.CredentialReference?)
      && (|b.canonicalJson| <= MAX_FILE_BYTES ==> LoadText(b.canonicalJson, digest) == Ok(b))
  {
    var b := Build(input, draft, campaignValid, expectedProvider, expectedBenchmark, digest).value;
    var d := b.document;
    assert d.(digest := "").(digest := d.digest) == d;
    assert SelfConsistent(b, digest);
    if |b.canonicalJson| <= MAX_FILE_BYTES {
      StoredBundleLoads(b, digest);
    }
  }
}
