/**
 The configuration draft: a working copy beside the last applied one, edited transactionally.
 Next is the specification of every operation; the class updates its fields and is tied to it.
 */
module ConfigurationDraft {
  import opened Results
  import opened Configuration
  import opened TextRules
  import opened Decimal

  const MAX_QUERY_SCALARS: nat := 256

  datatype State = State(original: Config, current: Config, query: string, focused: Option<string>)

  datatype Op =
    | Edit(edit: Config -> Config)
    | SetQuery(query: string)
    | Focus(target: Option<string>)
    | SetValue(id: string, text: string)
    | Cancel
    | ResetAll(confirmed: bool)
    | ResetSection(category: string)
    | ResetFocused
    | Apply

  predicate Consistent(s: State) {
    IsValid(s.original) && IsValid(s.current)
  }

  // ----- values as text

  function DebugTheme(t: Theme): string {
    match t
    case Dark => "dark"
    case Light => "light"
    case HighContrast => "highcontrast"
    case NoColor => "nocolor"
  }

  function BoolText(b: bool): string {
    if b then "true" else "false"
  }

  /** The displayed value of a setting. */
  function ValueText(c: Config, id: string): Option<string> {
    if id == "frontend.theme" then Some(DebugTheme(c.frontend.theme))
    else if id == "frontend.contrast" then Some(BoolText(c.frontend.contrast))
    else if id == "frontend.motion" then Some(MotionText(c.frontend.motion))
    else if id == "frontend.refresh_interval_ms" then Some(Print(c.frontend.refreshIntervalMs))
    else if id == "frontend.show_key_hints" then Some(BoolText(c.frontend.showKeyHints))
    else if id == "frontend.landing" then Some(LandingText(c.frontend.landing))
    else if id == "benchmark" then Some("managed benchmark defaults")
    else None
  }

  /** The theme editor takes the displayed spelling and the stored spelling. */
  function EditedTheme(v: string): Option<Theme> {
    if v == "dark" then Some(Dark)
    else if v == "light" then Some(Light)
    else if v == "highcontrast" || v == "high_contrast" then Some(HighContrast)
    else if v == "nocolor" || v == "no_color" then Some(NoColor)
    else None
  }

  function EditedBool(v: string): Option<bool> {
    if v == "true" then Some(true) else if v == "false" then Some(false) else None
  }

  /** The configuration a lowered text asks for, before validation. */
  function Candidate(c: Config, id: string, v: string): Option<Config> {
    var f := c.frontend;
    if id == "frontend.theme" then
      match EditedTheme(v) case None => None case Some(t) => Some(c.(frontend := f.(theme := t)))
    else if id == "frontend.contrast" then
      match EditedBool(v) case None => None case Some(b) => Some(c.(frontend := f.(contrast := b)))
    else if id == "frontend.show_key_hints" then
      match EditedBool(v) case None => None case Some(b) => Some(c.(frontend := f.(showKeyHints := b)))
    else if id == "frontend.motion" then
      match ReadMotion(Some(v)) case None => None case Some(m) => Some(c.(frontend := f.(motion := m)))
    else if id == "frontend.refresh_interval_ms" then
      match U64Of(v) case None => None case Some(n) => Some(c.(frontend := f.(refreshIntervalMs := n)))
    else if id == "frontend.landing" then
      match ReadLanding(Some(v)) case None => None case Some(l) => Some(c.(frontend := f.(landing := l)))
    else None
  }

  /** An edit takes effect only if its result validates. */
  function Edited(s: State, candidate: Config): (State, Option<ConfigError>) {
    if IsValid(candidate) then (s.(current := candidate), None) else (s, Validate(candidate))
  }

  function ResetSectionOf(c: Config, category: string): Option<Config> {
    if category == "Appearance" then Some(c.(frontend := DEFAULT_FRONTEND))
    else if category == "Navigation" then Some(c.(frontend := c.frontend.(showKeyHints := true, landing := Home)))
    else if category == "Behaviour" then Some(c.(frontend := c.frontend.(refreshIntervalMs := 1000)))
    else if category == "Benchmark" then Some(c.(benchmark := DEFAULT_BENCHMARK))
    else None
  }

  function ResetSettingOf(c: Config, focused: Option<string>): Option<Config> {
    var f, d := c.frontend, DEFAULT_FRONTEND;
    if focused == Some("frontend.theme") then Some(c.(frontend := f.(theme := d.theme)))
    else if focused == Some("frontend.contrast") then Some(c.(frontend := f.(contrast := false)))
    else if focused == Some("frontend.motion") then Some(c.(frontend := f.(motion := d.motion)))
    else if focused == Some("frontend.refresh_interval_ms") then Some(c.(frontend := f.(refreshIntervalMs := 1000)))
    else if focused == Some("frontend.show_key_hints") then Some(c.(frontend := f.(showKeyHints := true)))
    else if focused == Some("frontend.landing") then Some(c.(frontend := f.(landing := Home)))
    else if focused == Some("benchmark") then Some(c.(benchmark := DEFAULT_BENCHMARK))
    else None
  }

  function Next(s: State, op: Op): (State, Option<ConfigError>) {
    match op
    case Edit(edit) => Edited(s, edit(s.current))
    case SetQuery(q) =>
      if Scalars(q) > MAX_QUERY_SCALARS || HasControl(q) then (s, Some(Invalid)) else (s.(query := q), None)
    case Focus(id) => (s.(focused := id), None)
    case SetValue(id, text) =>
      if Scalars(text) > MAX_STRING_SCALARS || HasControl(text) then (s, Some(Invalid))
      else (match Candidate(s.current, id, Lower(text))
            case None => (s, Some(Invalid))
            case Some(c) => Edited(s, c))
    case Cancel => (s.(current := s.original), None)
    case ResetAll(confirmed) => if confirmed then (s.(current := DEFAULT), None) else (s, Some(Invalid))
    case ResetSection(category) =>
      (match ResetSectionOf(s.current, category)
       case None => (s, Some(Invalid))
       case Some(c) => (s.(current := c), None))
    case ResetFocused =>
      (match ResetSettingOf(s.current, s.focused)
       case None => (s, Some(Invalid))
       case Some(c) => (s.(current := c), None))
    case Apply => if IsValid(s.current) then (s.(original := s.current), None) else (s, Validate(s.current))
  }

  // ----- the draft object

  class Draft {
    var original: Config
    var current: Config
    var query: string
    var focused: Option<string>

    ghost function Model(): State
      reads this
    {
      State(original, current, query, focused)
    }

    /** `ConfigurationDraft::new`: a draft, or what is wrong with the configuration. */
    static method New(configuration: Config) returns (draft: Result<Draft, ConfigError>)
      ensures draft.Ok? <==> IsValid(configuration)
      ensures draft.Err? ==> Some(draft.error) == Validate(configuration)
      ensures draft.Ok? ==> fresh(draft.value) && draft.value.Model() == State(configuration, configuration, "", None)
                            && Consistent(draft.value.Model())
    {
      var error := Validate(configuration);
      if error.Some? {
        return Err(error.value);
      }
      var d := new Draft(configuration);
      return Ok(d);
    }

    constructor (configuration: Config)
      requires IsValid(configuration)
      ensures Model() == State(configuration, configuration, "", None)
      ensures Consistent(Model())
    {
      original := configuration;
      current := configuration;
      query := "";
      focused := None;
    }

    method EditWith(edit: Config -> Config) returns (error: Option<ConfigError>)
      requires Consistent(Model())
      modifies this
      ensures (Model(), error) == Next(old(Model()), Edit(edit)) && Consistent(Model())
      ensures error.Some? ==> Model() == old(Model())
    {
      var candidate := edit(current);
      error := Validate(candidate);
      if error.None? {
        current := candidate;
      }
    }

    method SetQueryText(text: string) returns (error: Option<ConfigError>)
      modifies this`query
      ensures (Model(), error) == Next(old(Model()), SetQuery(text))
    {
      if Scalars(text) > MAX_QUERY_SCALARS || HasControl(text) {
        return Some(Invalid);
      }
      query := text;
      error := None;
    }

    method FocusOn(id: Option<string>)
      modifies this`focused
      ensures (Model(), None) == Next(old(Model()), Focus(id))
    {
      focused := id;
    }

    method SetTo(id: string, text: string) returns (error: Option<ConfigError>)
      requires Consistent(Model())
      modifies this
      ensures (Model(), error) == Next(old(Model()), SetValue(id, text)) && Consistent(Model())
      ensures error.Some? ==> Model() == old(Model())
    {
      if Scalars(text) > MAX_STRING_SCALARS || HasControl(text) {
        return Some(Invalid);
      }
      var parsed := Candidate(current, id, Lower(text));
      if parsed.None? {
        return Some(Invalid);
      }
      error := EditWith(_ => parsed.value);
    }

    method CancelEdits()
      requires Consistent(Model())
      modifies this`current
      ensures (Model(), None) == Next(old(Model()), Cancel) && Consistent(Model())
    {
      current := original;
    }

    method ResetEverything(confirmed: bool) returns (error: Option<ConfigError>)
      requires Consistent(Model())
      modifies this`current
      ensures (Model(), error) == Next(old(Model()), ResetAll(confirmed)) && Consistent(Model())
    {
      EveryStepIsConsistent(Model(), ResetAll(confirmed));
      error := if confirmed then None else Some(Invalid);
      if confirmed {
        current := DEFAULT;
      }
    }

    method ResetOneSection(category: string) returns (error: Option<ConfigError>)
      requires Consistent(Model())
      modifies this`current
      ensures (Model(), error) == Next(old(Model()), ResetSection(category)) && Consistent(Model())
    {
      SectionResetIsValid(current, category);
      var reset := ResetSectionOf(current, category);
      if reset.None? {
        return Some(Invalid);
      }
      current := reset.value;
      error := None;
    }

    method ResetFocusedSetting() returns (error: Option<ConfigError>)
      requires Consistent(Model())
      modifies this`current
      ensures (Model(), error) == Next(old(Model()), ResetFocused) && Consistent(Model())
    {
      SettingResetIsValid(current, focused);
      var reset := ResetSettingOf(current, focused);
      if reset.None? {
        return Some(Invalid);
      }
      current := reset.value;
      error := None;
    }

    /** Applying validates once more; on a consistent draft that never fails. */
    method ApplyEdits() returns (result: Result<Config, ConfigError>)
      modifies this`original
      ensures Model() == Next(old(Model()), Apply).0
      ensures result == if IsValid(old(current)) then Ok(old(current)) else Err(Validate(old(current)).value)
      ensures old(Consistent(Model())) ==> Consistent(Model()) && result.Ok? && original == old(current)
    {
      var error := Validate(current);
      if error.Some? {
        return Err(error.value);
      }
      original := current;
      result := Ok(current);
    }
  }

  // ----- facts about the specification

  lemma FrontendMayChange(c: Config, f: Frontend)
    requires IsValid(c) && 250 <= f.refreshIntervalMs <= 86_400_000
    ensures IsValid(c.(frontend := f))
  {
  }

  lemma BenchmarkMayReset(c: Config)
    requires IsValid(c)
    ensures IsValid(c.(benchmark := DEFAULT_BENCHMARK))
  {
    DefaultIsValid();
  }

  lemma SectionResetIsValid(c: Config, category: string)
    requires IsValid(c)
    ensures ResetSectionOf(c, category).Some? ==> IsValid(ResetSectionOf(c, category).value)
  {
    var f := c.frontend;
    BenchmarkMayReset(c);
    FrontendMayChange(c, DEFAULT_FRONTEND);
    FrontendMayChange(c, f.(showKeyHints := true, landing := Home));
    FrontendMayChange(c, f.(refreshIntervalMs := 1000));
  }

  lemma SettingResetIsValid(c: Config, focused: Option<string>)
    requires IsValid(c)
    ensures ResetSettingOf(c, focused).Some? ==> IsValid(ResetSettingOf(c, focused).value)
  {
    var f, d := c.frontend, DEFAULT_FRONTEND;
    BenchmarkMayReset(c);
    FrontendMayChange(c, f.(theme := d.theme));
    FrontendMayChange(c, f.(contrast := false));
    FrontendMayChange(c, f.(motion := d.motion));
    FrontendMayChange(c, f.(refreshIntervalMs := 1000));
    FrontendMayChange(c, f.(showKeyHints := true));
    FrontendMayChange(c, f.(landing := Home));
  }

  lemma EditedIsConsistent(s: State, c: Config)
    requires Consistent(s)
    ensures Consistent(Edited(s, c).0) && (Edited(s, c).1.Some? ==> Edited(s, c).0 == s)
  {
  }

  lemma SetValueIsConsistent(s: State, id: string, text: string)
    requires Consistent(s)
    ensures Consistent(Next(s, SetValue(id, text)).0)
    ensures Next(s, SetValue(id, text)).1.Some? ==> Next(s, SetValue(id, text)).0 == s
  {
    var c := Candidate(s.current, id, Lower(text));
    if c.Some? {
      EditedIsConsistent(s, c.value);
    }
  }

  /** Every operation keeps the draft consistent, and a failed one changes nothing at all. */
  lemma EveryStepIsConsistent(s: State, op: Op)
    requires Consistent(s)
    ensures Consistent(Next(s, op).0)
    ensures Next(s, op).1.Some? ==> Next(s, op).0 == s
    ensures op.Apply? ==> Next(s, op).1.None?
  {
    match op
    case Edit(edit) => EditedIsConsistent(s, edit(s.current));
    case SetValue(id, text) => SetValueIsConsistent(s, id, text);
    case ResetSection(category) => SectionResetIsValid(s.current, category);
    case ResetFocused => SettingResetIsValid(s.current, s.focused);
    case ResetAll(_) => DefaultIsValid();
    case _ =>
  }

  function Run(s: State, ops: seq<Op>): State
    decreases ops
  {
    if ops == [] then s else Run(Next(s, ops[0]).0, ops[1..])
  }

  /** In every state reached from a fresh draft, both copies validate and applying succeeds. */
  lemma {:induction false} EveryRunCanApply(s: State, ops: seq<Op>)
    requires Consistent(s)
    ensures Consistent(Run(s, ops)) && Next(Run(s, ops), Apply) == (Run(s, ops).(original := Run(s, ops).current), None)
    decreases ops
  {
    if ops != [] {
      EveryStepIsConsistent(s, ops[0]);
      EveryRunCanApply(Next(s, ops[0]).0, ops[1..]);
    }
  }

  // ----- setting a setting to its own displayed value

  predicate IsScalarSetting(id: string) {
    id == "frontend.theme" || id == "frontend.contrast" || id == "frontend.motion"
    || id == "frontend.refresh_interval_ms" || id == "frontend.show_key_hints" || id == "frontend.landing"
  }

  /** Short lower-case text without controls passes the editor's guards untouched. */
  predicate Clean(s: string, i: nat)
    decreases |s| - i
  {
    i >= |s| || (0x20 <= s[i] as int < 0x7F && !('A' <= s[i] <= 'Z') && Clean(s, i + 1))
  }

  lemma {:induction false} CleanPassesGuards(s: string, i: nat)
    requires Clean(s, i) && i <= |s|
    ensures !ControlFrom(s, i)
    ensures forall j :: i <= j < |s| ==> !('A' <= s[j] <= 'Z')
    decreases |s| - i
  {
    if i < |s| {
      CleanPassesGuards(s, i + 1);
    }
  }

  lemma {:induction false} DigitsAreClean(s: string, i: nat)
    requires AllDigits(s)
    ensures Clean(s, i)
    decreases |s| - i
  {
    if i < |s| {
      DigitsAreClean(s, i + 1);
    }
  }

  lemma ThemeTextIsClean(t: Theme)
    ensures Clean(DebugTheme(t), 0) && |DebugTheme(t)| <= 20
  {
    assert Clean("dark", 0) && Clean("light", 0) && Clean("highcontrast", 0) && Clean("nocolor", 0);
  }

  lemma BoolTextIsClean(b: bool)
    ensures Clean(BoolText(b), 0) && |BoolText(b)| <= 20
  {
    assert Clean("true", 0) && Clean("false", 0);
  }

  lemma MotionTextIsClean(m: Motion)
    ensures Clean(MotionText(m), 0) && |MotionText(m)| <= 20
  {
    assert Clean("full", 0) && Clean("reduced", 0) && Clean("none", 0);
  }

  lemma LandingTextIsClean(l: Landing)
    ensures Clean(LandingText(l), 0) && |LandingText(l)| <= 20
  {
    assert Clean("home", 0) && Clean("runs", 0) && Clean("measures", 0) && Clean("reports", 0);
    assert Clean("configuration", 6);
    assert Clean("configuration", 0);
  }

  lemma ShownTextIsClean(c: Config, id: string)
    requires IsScalarSetting(id)
    ensures ValueText(c, id).Some? && Clean(ValueText(c, id).value, 0) && |ValueText(c, id).value| <= 20
  {
    var f := c.frontend;
    ThemeTextIsClean(f.theme);
    BoolTextIsClean(f.contrast);
    BoolTextIsClean(f.showKeyHints);
    MotionTextIsClean(f.motion);
    LandingTextIsClean(f.landing);
    PrintIsCanonical(f.refreshIntervalMs);
    DigitsAreClean(Print(f.refreshIntervalMs), 0);
    U64FitsInTwentyDigits(Print(f.refreshIntervalMs));
  }

  lemma ShownEnumsReadBack(f: Frontend)
    ensures EditedTheme(DebugTheme(f.theme)) == Some(f.theme)
    ensures EditedBool(BoolText(f.contrast)) == Some(f.contrast)
    ensures EditedBool(BoolText(f.showKeyHints)) == Some(f.showKeyHints)
  {
  }

  lemma ShownTextIsItsCandidate(c: Config, id: string)
    requires IsScalarSetting(id)
    ensures Candidate(c, id, ValueText(c, id).value) == Some(c)
  {
    var f := c.frontend;
    ShownEnumsReadBack(f);
    EnumTextsReadBack(f);
    PrintIsCanonical(f.refreshIntervalMs);
    assert U64Of(Print(f.refreshIntervalMs)) == Some(f.refreshIntervalMs);
  }

  /** For every scalar setting of every consistent draft, typing the displayed value succeeds and changes nothing. */
  lemma SettingOwnValueIsNoOp(s: State, id: string)
    requires Consistent(s) && IsScalarSetting(id)
    ensures ValueText(s.current, id).Some?
    ensures Next(s, SetValue(id, ValueText(s.current, id).value)) == (s, None)
  {
    ShownTextIsClean(s.current, id);
    var text := ValueText(s.current, id).value;
    CleanPassesGuards(text, 0);
    LowerIsIdentity(text);
    ScalarsBound(text);
    ShownTextIsItsCandidate(s.current, id);
  }
}
