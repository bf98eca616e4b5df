/**
 The frontend configuration: its validator, its pretty-printed text, and the guarded reader that
 bounds size, nesting and key names before it decodes.
 */
module Configuration {
  import opened Results
  import opened Numbers
  import opened JsonText
  import opened JsonPrinter
  import opened JsonMap
  import JsonScanner
  import opened TextRules

  const SCHEMA_VERSION: nat := 1
  const MAX_FILE_BYTES: nat := 256 * 1024
  const MAX_SETTINGS: nat := 256
  const MAX_STRING_SCALARS: nat := 4096
  const MAX_LIST_ITEMS: nat := 256

  datatype Theme = Dark | Light | HighContrast | NoColor

  datatype Motion = Full | Reduced | Still

  datatype Landing = Home | Runs | Measures | Reports | ConfigurationCenter

  datatype Frontend = Frontend(theme: Theme, contrast: bool, motion: Motion, refreshIntervalMs: u64,
                               showKeyHints: bool, landing: Landing)

  datatype Benchmark = Benchmark(agents: seq<string>, workloads: seq<string>, measures: seq<string>,
                                 repetitions: u32, resourcePreset: string)

  datatype Config = Config(schemaVersion: u32, frontend: Frontend, benchmark: Benchmark)

  datatype ConfigError = TooLarge | TooManySettings | UnsupportedSchema | Invalid | SecretInput

  const DEFAULT_FRONTEND := Frontend(Dark, false, Full, 1000, true, Home)
  const DEFAULT_BENCHMARK := Benchmark([], [], [], 1, "balanced")
  const DEFAULT := Config(SCHEMA_VERSION, DEFAULT_FRONTEND, DEFAULT_BENCHMARK)

  // ----- validation

  /** The number of Unicode scalars: bytes that do not continue one. */
  function Scalars(s: string): nat {
    if s == "" then 0
    else (if 0x80 <= s[0] as int < 0xC0 then 0 else 1) + Scalars(s[1..])
  }

  predicate BoundedString(s: string) {
    Scalars(s) <= MAX_STRING_SCALARS && !HasControl(s)
  }

  predicate ValidList(values: seq<string>) {
    |values| <= MAX_LIST_ITEMS && forall i :: 0 <= i < |values| ==> BoundedString(values[i])
  }

  function Validate(c: Config): Option<ConfigError> {
    if c.schemaVersion != SCHEMA_VERSION then Some(UnsupportedSchema)
    else if !(250 <= c.frontend.refreshIntervalMs <= 86_400_000) then Some(Invalid)
    else if !BoundedString(c.benchmark.resourcePreset) then Some(Invalid)
    else if !ValidList(c.benchmark.agents) || !ValidList(c.benchmark.workloads) || !ValidList(c.benchmark.measures) then
      Some(Invalid)
    else if c.benchmark.repetitions == 0 || c.benchmark.repetitions > 10_000 then Some(Invalid)
    else if |c.benchmark.agents| + |c.benchmark.workloads| + |c.benchmark.measures| + 6 > MAX_SETTINGS then
      Some(TooManySettings)
    else None
  }

  predicate IsValid(c: Config) {
    Validate(c).None?
  }

  lemma DefaultPresetIsBounded()
    ensures BoundedString("balanced")
  {
    ScalarsBound("balanced");
    assert !ControlFrom("balanced", 0);
  }

  lemma DefaultIsValid()
    ensures IsValid(DEFAULT)
  {
    DefaultPresetIsBounded();
  }

  lemma {:induction false} ScalarsBound(s: string)
    ensures Scalars(s) <= |s|
  {
    if s != "" {
      ScalarsBound(s[1..]);
    }
  }

  // ----- text

  const FRONTEND_FIELDS: seq<string> :=
    ["theme", "contrast", "motion", "refresh_interval_ms", "show_key_hints", "landing"]
  const BENCHMARK_FIELDS: seq<string> := ["agents", "workloads", "measures", "repetitions", "resource_preset"]
  const CONFIG_FIELDS: seq<string> := ["schema_version", "frontend", "benchmark"]

  function ThemeText(t: Theme): string {
    match t
    case Dark => "dark"
    case Light => "light"
    case HighContrast => "high_contrast"
    case NoColor => "no_color"
  }

  function MotionText(m: Motion): string {
    match m case Full => "full" case Reduced => "reduced" case Still => "none"
  }

  function LandingText(l: Landing): string {
    match l
    case Home => "home"
    case Runs => "runs"
    case Measures => "measures"
    case Reports => "reports"
    case ConfigurationCenter => "configuration"
  }

  function FrontendValues(f: Frontend): seq<Json> {
    [Str(ThemeText(f.theme)), Bool(f.contrast), Str(MotionText(f.motion)), OfNat(f.refreshIntervalMs),
     Bool(f.showKeyHints), Str(LandingText(f.landing))]
  }

  function BenchmarkValues(b: Benchmark): seq<Json> {
    [OfStrings(b.agents), OfStrings(b.workloads), OfStrings(b.measures), OfNat(b.repetitions), Str(b.resourcePreset)]
  }

  function ConfigValues(c: Config): seq<Json> {
    [OfNat(c.schemaVersion), Record(FRONTEND_FIELDS, FrontendValues(c.frontend)),
     Record(BENCHMARK_FIELDS, BenchmarkValues(c.benchmark))]
  }

  function ConfigJson(c: Config): Json {
    Record(CONFIG_FIELDS, ConfigValues(c))
  }

  function ToJson(c: Config): Result<string, ConfigError> {
    match Validate(c)
    case Some(error) => Err(error)
    case None =>
      var text := Print(ConfigJson(c), Pretty);
      if |text| > MAX_FILE_BYTES then Err(TooLarge) else Ok(text)
  }

  // ----- reading

  function ReadTheme(o: Option<string>): Option<Theme> {
    if o == Some("dark") then Some(Dark)
    else if o == Some("light") then Some(Light)
    else if o == Some("high_contrast") then Some(HighContrast)
    else if o == Some("no_color") then Some(NoColor)
    else None
  }

  function ReadMotion(o: Option<string>): Option<Motion> {
    if o == Some("full") then Some(Full)
    else if o == Some("reduced") then Some(Reduced)
    else if o == Some("none") then Some(Still)
    else None
  }

  function ReadLanding(o: Option<string>): Option<Landing> {
    if o == Some("home") then Some(Home)
    else if o == Some("runs") then Some(Runs)
    else if o == Some("measures") then Some(Measures)
    else if o == Some("reports") then Some(Reports)
    else if o == Some("configuration") then Some(ConfigurationCenter)
    else None
  }

  function ReadFrontend(o: Option<Json>): Option<Frontend> {
    if o.None? || Decode(FRONTEND_FIELDS, o.value).None? then None
    else
      var f := Decode(FRONTEND_FIELDS, o.value).value;
      var theme, contrast, motion := ReadTheme(AsString(f[0])), AsBool(f[1]), ReadMotion(AsString(f[2]));
      var refresh, hints, landing := AsNat(f[3], U64_LIMIT), AsBool(f[4]), ReadLanding(AsString(f[5]));
      if theme.Some? && contrast.Some? && motion.Some? && refresh.Some? && hints.Some? && landing.Some?
         && refresh.value < U64_LIMIT then
        Some(Frontend(theme.value, contrast.value, motion.value, refresh.value, hints.value, landing.value))
      else None
  }

  function ReadBenchmark(o: Option<Json>): Option<Benchmark> {
    if o.None? || Decode(BENCHMARK_FIELDS, o.value).None? then None
    else
      var f := Decode(BENCHMARK_FIELDS, o.value).value;
      var agents, workloads, measures := AsStrings(f[0]), AsStrings(f[1]), AsStrings(f[2]);
      var repetitions, preset := AsNat(f[3], U32_LIMIT), AsString(f[4]);
      if agents.Some? && workloads.Some? && measures.Some? && repetitions.Some? && preset.Some?
         && repetitions.value < U32_LIMIT then
        Some(Benchmark(agents.value, workloads.value, measures.value, repetitions.value, preset.value))
      else None
  }

  function ReadConfig(v: Json): Option<Config> {
    if Decode(CONFIG_FIELDS, v).None? then None
    else
      var f := Decode(CONFIG_FIELDS, v).value;
      var version, frontend, benchmark := AsNat(f[0], U32_LIMIT), ReadFrontend(f[1]), ReadBenchmark(f[2]);
      if version.Some? && frontend.Some? && benchmark.Some? && version.value < U32_LIMIT then
        Some(Config(version.value, frontend.value, benchmark.value))
      else None
  }

  const SECRET_PARTS: seq<string> := ["secret", "password", "token", "credential", "api_key", "private_key"]

  function LowerChar(c: char): char {
    if 'A' <= c <= 'Z' then (c as int + 32) as char else c
  }

  function Lower(s: string): (r: string)
    ensures |r| == |s| && forall i :: 0 <= i < |s| ==> r[i] == LowerChar(s[i])
  {
    seq(|s|, i requires 0 <= i < |s| => LowerChar(s[i]))
  }

  predicate OccursAt(part: string, s: string, i: int) {
    0 <= i <= |s| - |part| && s[i..i + |part|] == part
  }

  predicate Contains(s: string, part: string) {
    exists i :: 0 <= i <= |s| && OccursAt(part, s, i)
  }

  predicate SecretShaped(key: string) {
    exists k :: 0 <= k < |SECRET_PARTS| && Contains(Lower(key), SECRET_PARTS[k])
  }

  /** `reject_secret_shapes`: some object at any depth has a key with a secret-shaped part. */
  predicate HasSecretKey(v: Json)
    decreases v
  {
    match v
    case Array(items) => exists i :: 0 <= i < |items| && HasSecretKey(items[i])
    case Object(members) => exists i :: 0 <= i < |members| && MemberHasSecretKey(members[i])
    case _ => false
  }

  predicate MemberHasSecretKey(m: Member)
    decreases m
  {
    SecretShaped(m.key) || HasSecretKey(m.value)
  }

  /** The reader: size, nesting and key guards, then the value with repeated keys merged, then validation. */
  ghost function FromJson(text: string): Result<Config, ConfigError> {
    if |text| > MAX_FILE_BYTES then Err(TooLarge)
    else if JsonScanner.Peak(JsonScanner.At(0), text) > JsonScanner.MAX_NESTING_DEPTH then Err(Invalid)
    else
      match Parse(text)
      case None => Err(Invalid)
      case Some(v) =>
        if HasSecretKey(Canonical(v)) then Err(SecretInput)
        else
          match ReadConfig(Canonical(v))
          case None => Err(Invalid)
          case Some(c) => if Validate(c).Some? then Err(Validate(c).value) else Ok(c)
  }

  // ----- the guards accept every printed configuration

  lemma {:induction false} MembersNestAtMost(ms: seq<Member>, h: nat)
    requires forall i :: 0 <= i < |ms| ==> JsonScanner.Nesting(ms[i].value) <= h
    ensures JsonScanner.NestingOfMembers(ms) <= h
  {
    if ms != [] {
      MembersNestAtMost(ms[1..], h);
    }
  }

  lemma {:induction false} ItemsNestAtMost(items: seq<Json>, h: nat)
    requires forall i :: 0 <= i < |items| ==> JsonScanner.Nesting(items[i]) <= h
    ensures JsonScanner.NestingOfItems(items) <= h
  {
    if items != [] {
      ItemsNestAtMost(items[1..], h);
    }
  }

  lemma ConfigNestsThreeDeep(c: Config)
    ensures JsonScanner.Nesting(ConfigJson(c)) <= 3
  {
    var f, b := Zip(FRONTEND_FIELDS, FrontendValues(c.frontend)), Zip(BENCHMARK_FIELDS, BenchmarkValues(c.benchmark));
    MembersNestAtMost(f, 0);
    ItemsNestAtMost(OfStrings(c.benchmark.agents).items, 0);
    ItemsNestAtMost(OfStrings(c.benchmark.workloads).items, 0);
    ItemsNestAtMost(OfStrings(c.benchmark.measures).items, 0);
    MembersNestAtMost(b, 1);
    MembersNestAtMost(Zip(CONFIG_FIELDS, ConfigValues(c)), 2);
  }

  lemma ConfigIsPrintable(c: Config)
    ensures Printable(ConfigJson(c))
  {
    OfNatIsPrintable(c.frontend.refreshIntervalMs);
    OfNatIsPrintable(c.benchmark.repetitions);
    OfNatIsPrintable(c.schemaVersion);
    StringsArePrintable(c.benchmark.agents);
    StringsArePrintable(c.benchmark.workloads);
    StringsArePrintable(c.benchmark.measures);
    RecordIsPrintable(FRONTEND_FIELDS, FrontendValues(c.frontend));
    RecordIsPrintable(BENCHMARK_FIELDS, BenchmarkValues(c.benchmark));
    RecordIsPrintable(CONFIG_FIELDS, ConfigValues(c));
  }

  /** A key without upper-case letters is its own lower form. */
  lemma LowerIsIdentity(s: string)
    requires forall i :: 0 <= i < |s| ==> !('A' <= s[i] <= 'Z')
    ensures Lower(s) == s
  {
  }

  /** One adjacent pair of characters per part: ec, pa, to, cr, ap and iv. */
  predicate MarksSecret(a: char, b: char) {
    (a == 'e' && b == 'c') || (a == 'p' && b == 'a') || (a == 't' && b == 'o')
    || (a == 'c' && b == 'r') || (a == 'a' && b == 'p') || (a == 'i' && b == 'v')
  }

  predicate PlainFrom(s: string, i: nat)
    decreases |s| - i
  {
    i >= |s|
    || (!('A' <= s[i] <= 'Z') && (i + 1 < |s| ==> !MarksSecret(s[i], s[i + 1])) && PlainFrom(s, i + 1))
  }

  lemma {:induction false} PlainEverywhere(s: string, i: nat, j: nat)
    requires PlainFrom(s, i) && i <= j < |s|
    ensures !('A' <= s[j] <= 'Z') && (j + 1 < |s| ==> !MarksSecret(s[j], s[j + 1]))
    decreases |s| - i
  {
    if i < j {
      PlainEverywhere(s, i + 1, j);
    }
  }

  lemma PlainHasNoPart(s: string, part: string, k: nat)
    requires PlainFrom(s, 0) && k + 1 < |part| && MarksSecret(part[k], part[k + 1])
    ensures !Contains(s, part)
  {
    if Contains(s, part) {
      var i :| 0 <= i <= |s| && OccursAt(part, s, i);
      assert s[i + k] == part[k] && s[i + k + 1] == part[k + 1] by {
        var t := s[i..i + |part|];
        assert t[k] == s[i + k] && t[k + 1] == s[i + k + 1];
      }
      PlainEverywhere(s, 0, i + k);
    }
  }

  lemma PlainIsNotSecret(s: string)
    requires PlainFrom(s, 0)
    ensures !SecretShaped(s)
  {
    forall i | 0 <= i < |s|
      ensures !('A' <= s[i] <= 'Z')
    {
      PlainEverywhere(s, 0, i);
    }
    LowerIsIdentity(s);
    PlainHasNoPart(s, "secret", 1);
    PlainHasNoPart(s, "password", 0);
    PlainHasNoPart(s, "token", 0);
    PlainHasNoPart(s, "credential", 0);
    PlainHasNoPart(s, "api_key", 0);
    PlainHasNoPart(s, "private_key", 2);
  }

  lemma FrontendFieldsArePlain()
    ensures forall i :: 0 <= i < 6 ==> !SecretShaped(FRONTEND_FIELDS[i])
  {
    assert PlainFrom("refresh_interval_ms", 15);
    assert PlainFrom("refresh_interval_ms", 10);
    assert PlainFrom("refresh_interval_ms", 5);
    assert PlainFrom("show_key_hints", 7);
    forall i | 0 <= i < 6
      ensures !SecretShaped(FRONTEND_FIELDS[i])
    {
      PlainIsNotSecret(FRONTEND_FIELDS[i]);
    }
  }

  lemma BenchmarkFieldsArePlain()
    ensures forall i :: 0 <= i < 5 ==> !SecretShaped(BENCHMARK_FIELDS[i])
  {
    forall i | 0 <= i < 5
      ensures !SecretShaped(BENCHMARK_FIELDS[i])
    {
      PlainIsNotSecret(BENCHMARK_FIELDS[i]);
    }
  }

  lemma ConfigFieldsArePlain()
    ensures forall i :: 0 <= i < 3 ==> !SecretShaped(CONFIG_FIELDS[i])
  {
    forall i | 0 <= i < 3
      ensures !SecretShaped(CONFIG_FIELDS[i])
    {
      PlainIsNotSecret(CONFIG_FIELDS[i]);
    }
  }

  lemma CanonicalRecordHasNoSecret(names: seq<string>, values: seq<Json>)
    requires |names| == |values|
    requires forall i :: 0 <= i < |names| ==> !SecretShaped(names[i]) && !HasSecretKey(Canonical(values[i]))
    ensures !HasSecretKey(Canonical(Record(names, values)))
  {
    var zipped := Zip(names, values);
    var ms := FromPairs(CanonicalMembers(zipped));
    forall i | 0 <= i < |ms|
      ensures !MemberHasSecretKey(ms[i])
    {
      PairsComeFrom(CanonicalMembers(zipped), i);
      var j :| 0 <= j < |zipped| && CanonicalMembers(zipped)[j] == ms[i];
      CanonicalMemberAt(zipped, j);
    }
  }

  lemma ConfigHasNoSecret(c: Config)
    ensures !HasSecretKey(Canonical(ConfigJson(c)))
  {
    FrontendFieldsArePlain();
    BenchmarkFieldsArePlain();
    ConfigFieldsArePlain();
    StringsField(c.benchmark.agents);
    StringsField(c.benchmark.workloads);
    StringsField(c.benchmark.measures);
    CanonicalRecordHasNoSecret(FRONTEND_FIELDS, FrontendValues(c.frontend));
    CanonicalRecordHasNoSecret(BENCHMARK_FIELDS, BenchmarkValues(c.benchmark));
    CanonicalRecordHasNoSecret(CONFIG_FIELDS, ConfigValues(c));
  }

  lemma EnumTextsReadBack(f: Frontend)
    ensures ReadTheme(Some(ThemeText(f.theme))) == Some(f.theme)
    ensures ReadMotion(Some(MotionText(f.motion))) == Some(f.motion)
    ensures ReadLanding(Some(LandingText(f.landing))) == Some(f.landing)
  {
  }

  lemma ReadFrontendBack(f: Frontend)
    ensures ReadFrontend(Some(Canonical(Record(FRONTEND_FIELDS, FrontendValues(f))))) == Some(f)
  {
    DecodeCanonicalRecord(FRONTEND_FIELDS, FrontendValues(f));
    EnumTextsReadBack(f);
    NatField(f.refreshIntervalMs, U64_LIMIT);
  }

  lemma ReadBenchmarkBack(b: Benchmark)
    ensures ReadBenchmark(Some(Canonical(Record(BENCHMARK_FIELDS, BenchmarkValues(b))))) == Some(b)
  {
    DecodeCanonicalRecord(BENCHMARK_FIELDS, BenchmarkValues(b));
    NatField(b.repetitions, U32_LIMIT);
    StringsField(b.agents);
    StringsField(b.workloads);
    StringsField(b.measures);
  }

  lemma ReadConfigBack(c: Config)
    ensures ReadConfig(Canonical(ConfigJson(c))) == Some(c)
  {
    DecodeCanonicalRecord(CONFIG_FIELDS, ConfigValues(c));
    NatField(c.schemaVersion, U32_LIMIT);
    ReadFrontendBack(c.frontend);
    ReadBenchmarkBack(c.benchmark);
  }

  /** Whatever is written is read back unchanged: no guard of the reader ever refuses the writer's output. */
  lemma ReadBack(c: Config)
    requires ToJson(c).Ok?
    ensures FromJson(ToJson(c).value) == Ok(c)
  {
    var v := ConfigJson(c);
    ConfigIsPrintable(c);
    PrintedNesting(v, Pretty);
    ConfigNestsThreeDeep(c);
    ParsePrint(v, Pretty);
    ConfigHasNoSecret(c);
    ReadConfigBack(c);
  }

  /** Conversely, whatever is read is valid, so it can be written again unless its text outgrows the file bound. */
  lemma WriteBack(text: string)
    requires FromJson(text).Ok?
    ensures var c := FromJson(text).value;
      IsValid(c) && (ToJson(c).Ok? ==> FromJson(ToJson(c).value) == Ok(c))
      && (ToJson(c).Err? ==> ToJson(c).error == TooLarge)
  {
    var c := FromJson(text).value;
    if ToJson(c).Ok? {
      ReadBack(c);
    }
  }
}
