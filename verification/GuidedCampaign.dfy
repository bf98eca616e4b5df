/**
 The guided benchmark campaign: a one-shot state machine from selection to at most one intent, which is
 either a launch or a strict offline replay.
 */
module GuidedCampaign {
  import opened Results
  import opened StringOrder
  import opened TextRules
  import opened CassetteCatalog

  const MAX_ITEMS: nat := 64
  const MAX_TEXT: nat := 128

  datatype ReplayMode = Live | Record | OfflineReplay

  datatype Stage = Selection | Reviewed | Running | Complete | Failed

  datatype GuidedCatalog = GuidedCatalog(workloads: seq<string>, agents: seq<string>, measures: seq<string>)

  /** The result of the nested benchmark picker. */
  datatype Handoff = Handoff(generation: nat, catalogDigest: string, benchmarkIds: seq<string>, measureIds: seq<string>)

  datatype State = State(workload: string, agents: seq<string>, measures: seq<string>, replay: ReplayMode, stage: Stage,
                         catalog: Option<GuidedCatalog>, profile: Option<string>, adapter: Option<string>)

  datatype Intent =
    | Launch(workload: string, agents: seq<string>, measures: seq<string>, replay: ReplayMode,
             catalogGeneration: Option<nat>, catalogDigest: Option<string>, benchmarkIds: seq<string>,
             adapter: Option<string>)
    | Replay(workload: string, agents: seq<string>, measures: seq<string>, recordingId: string,
             cassette: Option<string>, profile: Option<string>, offlineOnly: bool, campaign: Option<string>,
             generation: Option<nat>, adapter: Option<string>)

  datatype CampaignError =
    | MissingWorkload | MissingAgent | MissingMeasure | TooManyItems | InvalidText | InvalidTransition
    | OfflineRecordingRequired | StaleCatalog | EmptyCatalogSelection | InvalidReplayCatalog | ReplayUnavailable
    | ReplayAgentMismatch | ProviderProfileNotBound | ProviderProfileMismatch

  datatype Op =
    | BindProfile(digest: string)
    | BindAdapter(id: string, known: bool)
    | AddAgent(agent: string)
    | AddMeasure(measure: string)
    | SetMode(mode: ReplayMode)
    | Review
    | Start
    | StartWithHandoff(handoff: Handoff, expected: nat)
    | StartReplay(choices: ReplayCatalog, sha: string)
    | StartAuthenticated(entries: CassetteCatalog, workload: string, sha: string)
    | Finish(success: bool)

  datatype Outcome = Done | Emitted(intent: Intent) | Refused(error: CampaignError)

  // ----- specification

  predicate Bounded(s: string) {
    |s| <= MAX_TEXT && !HasControl(s)
  }

  /** What is wrong with adding an item to a list, if anything. */
  function ItemFault(item: string, listed: Option<seq<string>>, missing: CampaignError): Option<CampaignError> {
    if !Bounded(item) then Some(InvalidText)
    else if item == "" || (listed.Some? && item !in listed.value) then Some(missing)
    else None
  }

  function PushUnique(values: seq<string>, item: string): Option<seq<string>> {
    if item in values then Some(values) else if |values| >= MAX_ITEMS then None else Some(values + [item])
  }

  function Listed(s: State, agents: bool): Option<seq<string>> {
    if s.catalog.None? then None else Some(if agents then s.catalog.value.agents else s.catalog.value.measures)
  }

  function ReviewFault(s: State): Option<CampaignError> {
    if s.stage != Selection then Some(InvalidTransition)
    else if s.agents == [] then Some(MissingAgent)
    else if s.measures == [] then Some(MissingMeasure)
    else None
  }

  /** The handoff is accepted far enough to replace the selected measures. */
  predicate HandoffTakesMeasures(s: State, h: Handoff, expected: nat) {
    s.stage == Selection && h.generation == expected && h.catalogDigest != "" && h.measureIds != []
  }

  function SelectedReplay(s: State, recording: string): (State, Outcome) {
    if s.stage != Reviewed || s.replay != OfflineReplay then (s, Refused(InvalidTransition))
    else if !Bounded(recording) then (s, Refused(InvalidText))
    else if recording == "" then (s, Refused(OfflineRecordingRequired))
    else (s.(stage := Running),
          Emitted(Replay(s.workload, s.agents, s.measures, recording, None, None, true, None, None, s.adapter)))
  }

  function Next(s: State, op: Op): (State, Outcome) {
    match op
    case BindProfile(digest) =>
      if !IsDigest(digest) then (s, Refused(InvalidReplayCatalog)) else (s.(profile := Some(digest)), Done)
    case BindAdapter(id, known) =>
      if !IsIdentifier(id) || !known then (s, Refused(InvalidText)) else (s.(adapter := Some(id)), Done)
    case AddAgent(agent) =>
      if s.stage != Selection then (s, Refused(InvalidTransition))
      else if ItemFault(agent, Listed(s, true), MissingAgent).Some? then
        (s, Refused(ItemFault(agent, Listed(s, true), MissingAgent).value))
      else
        (match PushUnique(s.agents, agent)
         case None => (s, Refused(TooManyItems))
         case Some(v) => (s.(agents := v), Done))
    case AddMeasure(measure) =>
      if s.stage != Selection then (s, Refused(InvalidTransition))
      else if ItemFault(measure, Listed(s, false), MissingMeasure).Some? then
        (s, Refused(ItemFault(measure, Listed(s, false), MissingMeasure).value))
      else
        (match PushUnique(s.measures, measure)
         case None => (s, Refused(TooManyItems))
         case Some(v) => (s.(measures := v), Done))
    case SetMode(mode) =>
      if s.stage != Selection then (s, Refused(InvalidTransition)) else (s.(replay := mode), Done)
    case Review =>
      if ReviewFault(s).Some? then (s, Refused(ReviewFault(s).value)) else (s.(stage := Reviewed), Done)
    case Start =>
      if s.stage != Reviewed then (s, Refused(InvalidTransition))
      else if s.replay == OfflineReplay then (s, Refused(OfflineRecordingRequired))
      else (s.(stage := Running),
            Emitted(Launch(s.workload, s.agents, s.measures, s.replay, None, None, [], s.adapter)))
    case StartWithHandoff(h, expected) =>
      if s.stage != Selection then (s, Refused(InvalidTransition))
      else if h.generation != expected then (s, Refused(StaleCatalog))
      else if h.catalogDigest == "" || h.measureIds == [] then (s, Refused(EmptyCatalogSelection))
      else
        var t := s.(measures := h.measureIds);
        if ReviewFault(t).Some? then (t, Refused(ReviewFault(t).value))
        else (t.(stage := Running),
              Emitted(Launch(t.workload, t.agents, t.measures, t.replay, Some(h.generation), Some(h.catalogDigest),
                             h.benchmarkIds, t.adapter)))
    case StartReplay(choices, sha) =>
      if |s.agents| != 1 || s.agents[0] != choices.agent then (s, Refused(ReplayAgentMismatch))
      else if s.profile.None? then (s, Refused(ProviderProfileNotBound))
      else if s.profile.value != choices.profile then (s, Refused(ProviderProfileMismatch))
      else
        (match FindChoice(choices.compatible, sha)
         case None => (s, Refused(ReplayUnavailable))
         case Some(choice) =>
           var (t, out) := SelectedReplay(s, choice.id);
           (t, if out.Emitted? then Emitted(out.intent.(cassette := Some(choice.sha), profile := Some(choices.profile)))
               else out))
    case StartAuthenticated(entries, workload, sha) =>
      if entries.generation == 0 || entries.campaign == "" then (s, Refused(InvalidReplayCatalog))
      else if |s.agents| != 1 then (s, Refused(ReplayAgentMismatch))
      else if s.profile.None? then (s, Refused(ProviderProfileNotBound))
      else
        (match FindEntry(entries.entries, s.agents[0], workload, sha, s.profile.value)
         case None => (s, Refused(ReplayUnavailable))
         case Some(entry) =>
           var (t, out) := SelectedReplay(s, entry.id);
           (t, if out.Emitted? then Emitted(Bound(out.intent, entries, entry)) else out))
    case Finish(success) =>
      if s.stage != Running then (s, Refused(InvalidTransition))
      else (s.(stage := if success then Complete else Failed), Done)
  }

  /** A replay intent tied to one entry of an authenticated catalog. */
  function Bound(intent: Intent, c: CassetteCatalog, e: CassetteEntry): Intent
    requires intent.Replay?
  {
    intent.(cassette := Some(e.sha), profile := Some(e.profile), campaign := Some(c.campaign),
            generation := Some(c.generation), workload := e.workload)
  }

  // ----- the object

  class Campaign {
    var workload: string
    var agents: seq<string>
    var measures: seq<string>
    var replay: ReplayMode
    var stage: Stage
    var catalog: Option<GuidedCatalog>
    var profile: Option<string>
    var adapter: Option<string>

    ghost function Value(): State
      reads this
    {
      State(workload, agents, measures, replay, stage, catalog, profile, adapter)
    }

    /** `new` and `with_catalog`, for a workload those accept. */
    constructor (workload: string, catalog: Option<GuidedCatalog>)
      requires Bounded(workload) && workload != "" && (catalog.Some? ==> workload in catalog.value.workloads)
      ensures Value() == Fresh(workload, catalog)
    {
      this.workload := workload;
      agents, measures := [], [];
      replay, stage := Live, Selection;
      this.catalog := catalog;
      profile, adapter := None, None;
    }

    method BindProfileSha256(digest: string) returns (out: Outcome)
      modifies this
      ensures (Value(), out) == Next(old(Value()), BindProfile(digest))
    {
      if !IsDigest(digest) {
        return Refused(InvalidReplayCatalog);
      }
      profile := Some(digest);
      return Done;
    }

    method BindAdapterId(id: string, known: bool) returns (out: Outcome)
      modifies this
      ensures (Value(), out) == Next(old(Value()), BindAdapter(id, known))
    {
      if !IsIdentifier(id) || !known {
        return Refused(InvalidText);
      }
      adapter := Some(id);
      return Done;
    }

    method AddOneAgent(agent: string) returns (out: Outcome)
      modifies this
      ensures (Value(), out) == Next(old(Value()), AddAgent(agent))
    {
      if stage != Selection {
        return Refused(InvalidTransition);
      }
      var fault := ItemFault(agent, if catalog.None? then None else Some(catalog.value.agents), MissingAgent);
      if fault.Some? {
        return Refused(fault.value);
      }
      if agent !in agents {
        if |agents| >= MAX_ITEMS {
          return Refused(TooManyItems);
        }
        agents := agents + [agent];
      }
      return Done;
    }

    method AddOneMeasure(measure: string) returns (out: Outcome)
      modifies this
      ensures (Value(), out) == Next(old(Value()), AddMeasure(measure))
    {
      if stage != Selection {
        return Refused(InvalidTransition);
      }
      var fault := ItemFault(measure, if catalog.None? then None else Some(catalog.value.measures), MissingMeasure);
      if fault.Some? {
        return Refused(fault.value);
      }
      if measure !in measures {
        if |measures| >= MAX_ITEMS {
          return Refused(TooManyItems);
        }
        measures := measures + [measure];
      }
      return Done;
    }

    method SetReplayMode(mode: ReplayMode) returns (out: Outcome)
      modifies this
      ensures (Value(), out) == Next(old(Value()), SetMode(mode))
    {
      if stage != Selection {
        return Refused(InvalidTransition);
      }
      replay := mode;
      return Done;
    }

    method ReviewSelection() returns (out: Outcome)
      modifies this
      ensures (Value(), out) == Next(old(Value()), Review)
    {
      if stage != Selection {
        return Refused(InvalidTransition);
      }
      if agents == [] {
        return Refused(MissingAgent);
      }
      if measures == [] {
        return Refused(MissingMeasure);
      }
      stage := Reviewed;
      return Done;
    }

    method StartCampaign() returns (out: Outcome)
      modifies this
      ensures (Value(), out) == Next(old(Value()), Start)
    {
      if stage != Reviewed {
        return Refused(InvalidTransition);
      }
      if replay == OfflineReplay {
        return Refused(OfflineRecordingRequired);
      }
      stage := Running;
      return Emitted(Launch(workload, agents, measures, replay, None, None, [], adapter));
    }

    method StartFromHandoff(h: Handoff, expected: nat) returns (out: Outcome)
      modifies this
      ensures (Value(), out) == Next(old(Value()), StartWithHandoff(h, expected))
    {
      if stage != Selection {
        return Refused(InvalidTransition);
      }
      if h.generation != expected {
        return Refused(StaleCatalog);
      }
      if h.catalogDigest == "" || h.measureIds == [] {
        return Refused(EmptyCatalogSelection);
      }
      measures := h.measureIds;
      out := ReviewSelection();
      if out.Refused? {
        return;
      }
      stage := Running;
      return Emitted(Launch(workload, agents, measures, replay, Some(h.generation), Some(h.catalogDigest),
                            h.benchmarkIds, adapter));
    }

    method StartSelectedReplay(recording: string) returns (out: Outcome)
      modifies this
      ensures (Value(), out) == SelectedReplay(old(Value()), recording)
    {
      if stage != Reviewed || replay != OfflineReplay {
        return Refused(InvalidTransition);
      }
      if !Bounded(recording) {
        return Refused(InvalidText);
      }
      if recording == "" {
        return Refused(OfflineRecordingRequired);
      }
      stage := Running;
      return Emitted(Replay(workload, agents, measures, recording, None, None, true, None, None, adapter));
    }

    method StartReplayFromCatalog(choices: ReplayCatalog, sha: string) returns (out: Outcome)
      modifies this
      ensures (Value(), out) == Next(old(Value()), StartReplay(choices, sha))
    {
      if |agents| != 1 || agents[0] != choices.agent {
        return Refused(ReplayAgentMismatch);
      }
      if profile.None? {
        return Refused(ProviderProfileNotBound);
      }
      if profile.value != choices.profile {
        return Refused(ProviderProfileMismatch);
      }
      var choice := FindChoice(choices.compatible, sha);
      if choice.None? {
        return Refused(ReplayUnavailable);
      }
      out := StartSelectedReplay(choice.value.id);
      if out.Emitted? {
        out := Emitted(out.intent.(cassette := Some(choice.value.sha), profile := Some(choices.profile)));
      }
    }

    method StartReplayFromAuthenticatedCatalog(c: CassetteCatalog, workloadId: string, sha: string)
      returns (out: Outcome)
      modifies this
      ensures (Value(), out) == Next(old(Value()), StartAuthenticated(c, workloadId, sha))
    {
      if c.generation == 0 || c.campaign == "" {
        return Refused(InvalidReplayCatalog);
      }
      if |agents| != 1 {
        return Refused(ReplayAgentMismatch);
      }
      if profile.None? {
        return Refused(ProviderProfileNotBound);
      }
      var entry := FindEntry(c.entries, agents[0], workloadId, sha, profile.value);
      if entry.None? {
        return Refused(ReplayUnavailable);
      }
      FoundEntryMatches(c.entries, agents[0], workloadId, sha, profile.value);
      out := StartSelectedReplay(entry.value.id);
      if out.Emitted? {
        out := Emitted(out.intent.(cassette := Some(entry.value.sha), profile := Some(entry.value.profile),
                                   campaign := Some(c.campaign), generation := Some(c.generation),
                                   workload := workloadId));
      }
    }

    method FinishRun(success: bool) returns (out: Outcome)
      modifies this
      ensures (Value(), out) == Next(old(Value()), Finish(success))
    {
      if stage != Running {
        return Refused(InvalidTransition);
      }
      stage := if success then Complete else Failed;
      return Done;
    }
  }

  function Fresh(workload: string, catalog: Option<GuidedCatalog>): State {
    State(workload, [], [], Live, Selection, catalog, None, None)
  }

  // ----- one intent per campaign

  /** What the caller has asked for and been granted, tracked from the outside. */
  datatype Asked = Asked(mode: ReplayMode, agents: seq<string>)

  /** An intent together with what had been granted when it was emitted. */
  datatype Emission = Emission(asked: Asked, intent: Intent)

  function AskedAfter(a: Asked, op: Op, out: Outcome): Asked {
    if !out.Done? then a
    else
      match op
      case SetMode(mode) => a.(mode := mode)
      case AddAgent(agent) => if agent in a.agents then a else a.(agents := a.agents + [agent])
      case _ => a
  }

  function Emissions(s: State, a: Asked, ops: seq<Op>): seq<Emission>
    decreases ops
  {
    if ops == [] then []
    else
      var (t, out) := Next(s, ops[0]);
      var rest := Emissions(t, AskedAfter(a, ops[0], out), ops[1..]);
      if out.Emitted? then [Emission(a, out.intent)] + rest else rest
  }

  predicate Open(s: State) {
    s.stage == Selection || s.stage == Reviewed
  }

  /**
   An intent is for the agents granted; a launch carries the mode granted, a replay requires it to be offline
   replay.
   */
  predicate Faithful(e: Emission) {
    e.intent.agents == e.asked.agents && e.asked.agents != []
    && match e.intent
       case Launch(_, _, _, replay, _, _, _, _) => replay == e.asked.mode
       case Replay(_, _, _, _, _, _, offlineOnly, _, _, _) => e.asked.mode == OfflineReplay && offlineOnly
  }

  lemma StepEmission(s: State, op: Op)
    requires s.stage == Reviewed ==> s.agents != []
    ensures var (t, out) := Next(s, op);
      Asked(t.replay, t.agents) == AskedAfter(Asked(s.replay, s.agents), op, out)
      && (Open(t) ==> Open(s)) && (t.stage == Reviewed ==> t.agents != [])
      && (out.Emitted? ==> Open(s) && !Open(t) && Faithful(Emission(Asked(s.replay, s.agents), out.intent)))
  {
  }

  /**
   The measures and the adapter of an intent are the campaign's; its workload is too, or the one asked to be
   replayed.
   */
  lemma IntentCarriesTheSelection(s: State, op: Op)
    requires Next(s, op).1.Emitted?
    ensures var (t, out) := Next(s, op);
      out.intent.measures == t.measures && out.intent.adapter == s.adapter
      && t.measures == (if op.StartWithHandoff? then op.handoff.measureIds else s.measures)
      && out.intent.workload == if op.StartAuthenticated? then op.workload else s.workload
  {
    if op.StartAuthenticated? {
      FoundEntryMatches(op.entries.entries, s.agents[0], op.workload, op.sha, s.profile.value);
    }
  }

  /** Over every sequence of calls at most one intent is emitted, and it is faithful to what was asked and granted. */
  lemma {:induction false} OneFaithfulIntent(s: State, ops: seq<Op>)
    requires s.stage == Reviewed ==> s.agents != []
    ensures var es := Emissions(s, Asked(s.replay, s.agents), ops);
      |es| <= (if Open(s) then 1 else 0) && forall i :: 0 <= i < |es| ==> Faithful(es[i])
    decreases ops
  {
    if ops != [] {
      StepEmission(s, ops[0]);
      OneFaithfulIntent(Next(s, ops[0]).0, ops[1..]);
    }
  }

  // ----- the handoff differs from the plain start

  /** A launch intent asking for offline replay, which the plain start refuses to produce. */
  predicate LaunchesOffline(out: Outcome) {
    out.Emitted? && out.intent.Launch? && out.intent.replay == OfflineReplay
  }

  /** Exactly one call can produce it: a handoff whose own guards pass while the mode is offline replay. */
  lemma OnlyHandoffLaunchesOffline(s: State, op: Op)
    ensures LaunchesOffline(Next(s, op).1) <==>
            op.StartWithHandoff? && s.replay == OfflineReplay && s.agents != []
            && HandoffTakesMeasures(s, op.handoff, op.expected)
  {
  }

  /** A three-call run that ends in such an intent. */
  lemma HandoffLaunchesOffline()
    ensures var s := Fresh("w", None);
      var t := Next(Next(s, AddAgent("a")).0, SetMode(OfflineReplay)).0;
      LaunchesOffline(Next(t, StartWithHandoff(Handoff(1, "d", [], ["m"]), 1)).1)
  {
    assert !HasControl("a") by {
      assert !ControlFrom("a", 1);
    }
  }

  // ----- what the selection can contain

  predicate FromList(values: seq<string>, listed: Option<seq<string>>) {
    listed.Some? ==> forall i :: 0 <= i < |values| ==> values[i] in listed.value
  }

  /** The selected agents are few, distinct, named, and offered by the catalog when there is one. */
  predicate AgentsSelected(s: State) {
    |s.agents| <= MAX_ITEMS && Distinct(s.agents) && FromList(s.agents, Listed(s, true))
    && (s.stage != Selection ==> s.agents != [] && s.measures != [])
  }

  lemma PushKeepsSelection(values: seq<string>, item: string, listed: Option<seq<string>>)
    requires |values| <= MAX_ITEMS && Distinct(values) && FromList(values, listed)
    requires listed.Some? ==> item in listed.value
    requires PushUnique(values, item).Some?
    ensures var more := PushUnique(values, item).value;
      |more| <= MAX_ITEMS && Distinct(more) && FromList(more, listed)
  {
  }

  lemma StepSelectsAgents(s: State, op: Op)
    requires AgentsSelected(s)
    ensures AgentsSelected(Next(s, op).0)
    ensures Next(s, op).0.catalog == s.catalog && Next(s, op).0.workload == s.workload
  {
    if op.AddAgent? && Next(s, op).1.Done? {
      PushKeepsSelection(s.agents, op.agent, Listed(s, true));
    }
  }

  lemma {:induction false} EveryRunSelectsAgents(s: State, ops: seq<Op>)
    requires AgentsSelected(s)
    ensures AgentsSelected(Run(s, ops)) && Run(s, ops).catalog == s.catalog && Run(s, ops).workload == s.workload
    decreases ops
  {
    if ops != [] {
      StepSelectsAgents(s, ops[0]);
      EveryRunSelectsAgents(Next(s, ops[0]).0, ops[1..]);
    }
  }

  function Run(s: State, ops: seq<Op>): State
    decreases ops
  {
    if ops == [] then s else Run(Next(s, ops[0]).0, ops[1..])
  }

  /**
   Measures stay within the attached catalog except through a handoff: a step leaves the catalog's measures
   exactly when it is a handoff, accepted that far, naming a measure the catalog lacks.
   */
  lemma OnlyHandoffBringsForeignMeasures(s: State, op: Op)
    requires FromList(s.measures, Listed(s, false))
    ensures var t := Next(s, op).0;
      !FromList(t.measures, Listed(t, false)) <==>
      op.StartWithHandoff? && HandoffTakesMeasures(s, op.handoff, op.expected)
      && !FromList(op.handoff.measureIds, Listed(s, false))
  {
  }

  /** A two-call run: the launched measure is not in the catalog. */
  lemma HandoffBringsForeignMeasure()
    ensures var catalog := GuidedCatalog(["w"], ["a"], ["m"]);
      var s := Next(Fresh("w", Some(catalog)), AddAgent("a")).0;
      var out := Next(s, StartWithHandoff(Handoff(1, "d", [], ["x"]), 1)).1;
      out.Emitted? && out.intent.measures == ["x"] && "x" !in catalog.measures
  {
    assert !ControlFrom("a", 1);
    assert !HasControl("a");
    assert "a" in ["a"];
    assert ["m"][0] != "x";
  }

  /**
   Refused calls change nothing, with one exception: exactly a handoff that gets as far as the missing agent,
   and names other measures than the selected ones, is refused and still replaces them.
   */
  lemma RefusalsChangeOnlyHandoffMeasures(s: State, op: Op)
    requires Next(s, op).1.Refused?
    ensures Next(s, op).0 != s <==>
            op.StartWithHandoff? && HandoffTakesMeasures(s, op.handoff, op.expected) && s.agents == []
            && op.handoff.measureIds != s.measures
    ensures Next(s, op).0 != s ==> Next(s, op) == (s.(measures := op.handoff.measureIds), Refused(MissingAgent))
  {
  }

  /** One refused handoff in a fresh campaign leaves its measures behind. */
  lemma RefusedHandoffKeepsMeasures()
    ensures Next(Fresh("w", None), StartWithHandoff(Handoff(1, "d", [], ["m"]), 1))
         == (Fresh("w", None).(measures := ["m"]), Refused(MissingAgent))
  {
  }
}
