/**
 What the draft's operations do to single settings, seen through the settings table: which settings an
 operation touches, and what typing a displayed value does.
 */
module ConfigurationSettings {
  import opened Results
  import opened Configuration
  import opened ConfigurationDraft
  import opened TextRules
  import opened Decimal

  datatype Setting = ThemeSetting | ContrastSetting | MotionSetting | RefreshSetting | HintsSetting | LandingSetting
                   | BenchmarkSetting

  function Id(s: Setting): string {
    match s
    case ThemeSetting => "frontend.theme"
    case ContrastSetting => "frontend.contrast"
    case MotionSetting => "frontend.motion"
    case RefreshSetting => "frontend.refresh_interval_ms"
    case HintsSetting => "frontend.show_key_hints"
    case LandingSetting => "frontend.landing"
    case BenchmarkSetting => "benchmark"
  }

  function Category(s: Setting): string {
    match s
    case ThemeSetting => "Appearance"
    case ContrastSetting => "Appearance"
    case MotionSetting => "Appearance"
    case RefreshSetting => "Behaviour"
    case HintsSetting => "Navigation"
    case LandingSetting => "Navigation"
    case BenchmarkSetting => "Benchmark"
  }

  /** The two configurations hold the same value of one setting. */
  predicate Same(c: Config, d: Config, s: Setting) {
    match s
    case ThemeSetting => c.frontend.theme == d.frontend.theme
    case ContrastSetting => c.frontend.contrast == d.frontend.contrast
    case MotionSetting => c.frontend.motion == d.frontend.motion
    case RefreshSetting => c.frontend.refreshIntervalMs == d.frontend.refreshIntervalMs
    case HintsSetting => c.frontend.showKeyHints == d.frontend.showKeyHints
    case LandingSetting => c.frontend.landing == d.frontend.landing
    case BenchmarkSetting => c.benchmark == d.benchmark
  }

  /** c with one setting taken from d. */
  function Copied(c: Config, d: Config, s: Setting): Config {
    match s
    case ThemeSetting => c.(frontend := c.frontend.(theme := d.frontend.theme))
    case ContrastSetting => c.(frontend := c.frontend.(contrast := d.frontend.contrast))
    case MotionSetting => c.(frontend := c.frontend.(motion := d.frontend.motion))
    case RefreshSetting => c.(frontend := c.frontend.(refreshIntervalMs := d.frontend.refreshIntervalMs))
    case HintsSetting => c.(frontend := c.frontend.(showKeyHints := d.frontend.showKeyHints))
    case LandingSetting => c.(frontend := c.frontend.(landing := d.frontend.landing))
    case BenchmarkSetting => c.(benchmark := d.benchmark)
  }

  /** Of its settings, the configuration after took one from the donor and kept every other. */
  predicate TookOnly(after: Config, before: Config, donor: Config, s: Setting) {
    after.schemaVersion == before.schemaVersion && Same(after, donor, s)
    && forall t :: t != s ==> Same(after, before, t)
  }

  lemma CopiedTouchesOne(c: Config, d: Config, s: Setting)
    ensures TookOnly(Copied(c, d, s), c, d, s)
  {
  }

  // ----- resetting

  /** Resetting the focused setting gives it, and nothing else, its default. */
  lemma ResetFocusedTouchesOne(c: Config, s: Setting)
    ensures var d := ResetSettingOf(c, Some(Id(s)));
      d.Some? && TookOnly(d.value, c, DEFAULT, s)
  {
    assert ResetSettingOf(c, Some(Id(s))) == Some(Copied(c, DEFAULT, s));
    CopiedTouchesOne(c, DEFAULT, s);
  }

  /** It succeeds exactly when a listed setting is focused. */
  lemma ResetFocusedNeedsSetting(c: Config, focused: Option<string>)
    ensures ResetSettingOf(c, focused).Some? <==> exists s :: focused == Some(Id(s))
  {
    if ResetSettingOf(c, focused).Some? {
      var id := focused.value;
      assert id == Id(ThemeSetting) || id == Id(ContrastSetting) || id == Id(MotionSetting) || id == Id(RefreshSetting)
          || id == Id(HintsSetting) || id == Id(LandingSetting) || id == Id(BenchmarkSetting);
    }
    if s :| focused == Some(Id(s)) {
      ResetFocusedTouchesOne(c, s);
    }
  }

  /** A section reset gives every setting of its category the default. */
  lemma SectionResetReachesItsOwn(c: Config, s: Setting)
    ensures ResetSectionOf(c, Category(s)).Some? && Same(ResetSectionOf(c, Category(s)).value, DEFAULT, s)
  {
  }

  /** The settings a reset of Appearance changes besides its own are already at their defaults. */
  predicate OthersAreDefault(c: Config) {
    Same(c, DEFAULT, RefreshSetting) && Same(c, DEFAULT, HintsSetting) && Same(c, DEFAULT, LandingSetting)
  }

  /**
   A section reset gives every setting of its category the default. It leaves every setting of another category
   alone exactly when it is not the Appearance section, which resets the whole frontend, or the frontend's other
   settings were at their defaults before.
   */
  lemma SectionResetKeepsOthers(c: Config, category: string)
    requires ResetSectionOf(c, category).Some?
    ensures forall s :: Category(s) == category ==> Same(ResetSectionOf(c, category).value, DEFAULT, s)
    ensures (forall s :: Category(s) != category ==> Same(ResetSectionOf(c, category).value, c, s)) <==>
            category != "Appearance" || OthersAreDefault(c)
  {
    var d := ResetSectionOf(c, category).value;
    forall s | Category(s) == category
      ensures Same(d, DEFAULT, s)
    {
      SectionResetReachesItsOwn(c, s);
    }
    if category == "Appearance" {
      assert Category(RefreshSetting) != category && Category(HintsSetting) != category;
      assert Category(LandingSetting) != category && Category(BenchmarkSetting) != category;
      assert d.benchmark == c.benchmark;
    } else {
      forall s | Category(s) != category
        ensures Same(d, c, s)
      {
        OtherSectionsKeep(c, category, s);
      }
    }
  }

  lemma OtherSectionsKeep(c: Config, category: string, s: Setting)
    requires ResetSectionOf(c, category).Some? && category != "Appearance" && Category(s) != category
    ensures Same(ResetSectionOf(c, category).value, c, s)
  {
  }

  /** One reset of Appearance that changes where the interface opens. */
  lemma AppearanceResetMovesLanding()
    ensures var c := DEFAULT.(frontend := DEFAULT_FRONTEND.(landing := Reports));
      Category(LandingSetting) != "Appearance" && ResetSectionOf(c, "Appearance") == Some(DEFAULT)
      && !Same(DEFAULT, c, LandingSetting)
  {
  }

  // ----- typing

  lemma TypedCandidate(c: Config, d: Config, s: Setting)
    requires s != BenchmarkSetting
    ensures IsScalarSetting(Id(s)) && ValueText(d, Id(s)).Some?
    ensures Candidate(c, Id(s), ValueText(d, Id(s)).value) == Some(Copied(c, d, s))
  {
    var f := d.frontend;
    ShownEnumsReadBack(f);
    EnumTextsReadBack(f);
    PrintIsCanonical(f.refreshIntervalMs);
    assert U64Of(Print(f.refreshIntervalMs)) == Some(f.refreshIntervalMs);
  }

  lemma CopiedIsValid(c: Config, d: Config, s: Setting)
    requires IsValid(c) && IsValid(d) && s != BenchmarkSetting
    ensures IsValid(Copied(c, d, s))
  {
  }

  /**
   Typing the value that any valid configuration displays for a scalar setting succeeds and copies exactly
   that setting from it: the displayed text loses nothing and the edit touches nothing else.
   */
  lemma TypingCopiesTheSetting(st: State, d: Config, s: Setting)
    requires Consistent(st) && IsValid(d) && s != BenchmarkSetting
    ensures ValueText(d, Id(s)).Some?
    ensures var (t, error) := Next(st, SetValue(Id(s), ValueText(d, Id(s)).value));
      error.None? && t == st.(current := t.current)
      && TookOnly(t.current, st.current, d, s)
  {
    TypedCandidate(st.current, d, s);
    ShownTextIsPlain(d, Id(s));
    CopiedIsValid(st.current, d, s);
    PlainTextTakesEffect(st, Id(s), ValueText(d, Id(s)).value, Copied(st.current, d, s));
    CopiedTouchesOne(st.current, d, s);
  }

  predicate Plain(text: string) {
    Scalars(text) <= MAX_STRING_SCALARS && !HasControl(text) && Lower(text) == text
  }

  lemma ShownTextIsPlain(d: Config, id: string)
    requires IsScalarSetting(id)
    ensures ValueText(d, id).Some? && Plain(ValueText(d, id).value)
  {
    ShownTextIsClean(d, id);
    var text := ValueText(d, id).value;
    CleanPassesGuards(text, 0);
    LowerIsIdentity(text);
    ScalarsBound(text);
  }

  lemma PlainTextTakesEffect(st: State, id: string, text: string, c: Config)
    requires Plain(text) && Candidate(st.current, id, text) == Some(c) && IsValid(c)
    ensures Next(st, SetValue(id, text)) == (st.(current := c), None)
  {
  }

  /** Whatever is typed, an accepted edit touches only the setting it names. */
  lemma TypingTouchesOne(st: State, s: Setting, text: string)
    requires Next(st, SetValue(Id(s), text)).1.None?
    ensures var after := Next(st, SetValue(Id(s), text)).0;
      s != BenchmarkSetting && after == st.(current := after.current)
      && TookOnly(after.current, st.current, after.current, s) && IsValid(after.current)
  {
  }
}
