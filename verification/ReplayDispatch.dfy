/**
 Sending a replay intent to the runner: the request is built from the intent alone, and an answer is
 accepted only if it repeats every identity in the request. The answer itself may be anything.
 */
module ReplayDispatch {
  import opened Results
  import opened CassetteCatalog
  import opened GuidedCampaign
  import opened TextRules

  const REPLAY_MINOR: nat := 12

  /** What negotiation fixed: the minor version of major version 1, and the runner. */
  datatype Session = Session(minor: nat, runner: string)

  datatype Params = Params(key: string, runner: string, generation: nat, campaign: string, profile: string,
                           agent: string, workload: string, sha: string)

  datatype Dispatch = Dispatch(runner: string, generation: nat, campaign: string, profile: string, agent: string,
                               workload: string, sha: string, offlineOnly: bool)

  datatype TransportError = NotNegotiated | Continuity | RemoteFailure | Io

  type Answer = Result<Dispatch, TransportError>

  /** `recording_replay_dispatch`, for the given outcome of the round trip. */
  method RecordingReplayDispatch(session: Session, params: Params, answer: Answer) returns (result: Answer)
    ensures result == DispatchStep(session, params, answer)
  {
    if session.minor < REPLAY_MINOR {
      return Err(NotNegotiated);
    }
    if params.runner != session.runner {
      return Err(Continuity);
    }
    if answer.Err? {
      return answer;
    }
    var d := answer.value;
    if d.runner != session.runner || d.generation != params.generation || d.campaign != params.campaign
       || d.profile != params.profile || d.agent != params.agent || d.workload != params.workload
       || d.sha != params.sha || !d.offlineOnly {
      return Err(Continuity);
    }
    result := Ok(d);
  }

  /** The one answer a request can be satisfied by. */
  function Expected(params: Params): Dispatch {
    Dispatch(params.runner, params.generation, params.campaign, params.profile, params.agent, params.workload,
             params.sha, true)
  }

  function DispatchStep(session: Session, params: Params, answer: Answer): Answer {
    if session.minor < REPLAY_MINOR then Err(NotNegotiated)
    else if params.runner != session.runner then Err(Continuity)
    else if answer.Err? then answer
    else if answer.value != Expected(params) then Err(Continuity)
    else answer
  }

  function IntentParams(session: Session, intent: Intent, key: string): Option<Params>
    requires intent.Replay?
  {
    if intent.generation.None? || intent.campaign.None? || intent.profile.None? || intent.agents == []
       || intent.cassette.None? then None
    else Some(Params(key, session.runner, intent.generation.value, intent.campaign.value, intent.profile.value,
                     intent.agents[0], intent.workload, intent.cassette.value))
  }

  function IntentStep(session: Session, intent: Intent, key: string, answer: Answer): Answer
    requires intent.Replay?
  {
    if !intent.offlineOnly then Err(RemoteFailure)
    else
      var params := IntentParams(session, intent, key);
      if params.None? then Err(Continuity) else DispatchStep(session, params.value, answer)
  }

  /** `dispatch_replay_intent`. */
  method DispatchReplayIntent(session: Session, intent: Intent, key: string, answer: Answer) returns (result: Answer)
    requires intent.Replay?
    ensures result == IntentStep(session, intent, key, answer)
  {
    if !intent.offlineOnly {
      return Err(RemoteFailure);
    }
    if intent.generation.None? || intent.campaign.None? || intent.profile.None? || intent.agents == []
       || intent.cassette.None? {
      return Err(Continuity);
    }
    result := RecordingReplayDispatch(session,
      Params(key, session.runner, intent.generation.value, intent.campaign.value, intent.profile.value,
             intent.agents[0], intent.workload, intent.cassette.value), answer);
  }

  predicate Names(d: Dispatch, e: CassetteEntry) {
    Matches(e, d.agent, d.workload, d.sha, d.profile)
  }

  /** The i-th entry, and no other, has the agent, workload and cassette digest the dispatch names. */
  predicate NamesOnly(d: Dispatch, entries: seq<CassetteEntry>, i: nat) {
    i < |entries| && Names(d, entries[i])
    && forall j :: 0 <= j < |entries| && SameKey(entries[j], entries[i]) ==> j == i
  }

  /**
   From catalog to runner: when an intent started from an authenticated catalog is dispatched with success,
   whatever the runner answered, the dispatch names exactly one entry of that catalog, the one chosen by the
   campaign's agent, its bound profile, and the requested workload and digest; it belongs to the catalog's
   recording campaign and generation, and runs on the session's runner, offline.
   */
  lemma DispatchNamesTheChosenEntry(s: State, c: CassetteCatalog, workload: string, sha: string, session: Session,
                                    key: string, answer: Answer)
    requires Authenticated(c)
    requires GuidedCampaign.Next(s, StartAuthenticated(c, workload, sha)).1.Emitted?
    requires IntentStep(session, GuidedCampaign.Next(s, StartAuthenticated(c, workload, sha)).1.intent, key, answer).Ok?
    ensures var intent := GuidedCampaign.Next(s, StartAuthenticated(c, workload, sha)).1.intent;
      var d := IntentStep(session, intent, key, answer).value;
      (exists i: nat :: NamesOnly(d, c.entries, i) && c.entries[i].id == intent.recordingId)
      && s.agents == [d.agent] && s.profile == Some(d.profile) && d.workload == workload && d.sha == sha
      && d.campaign == c.campaign && d.generation == c.generation && d.runner == session.runner && d.offlineOnly
  {
    var e := FindEntry(c.entries, s.agents[0], workload, sha, s.profile.value).value;
    FoundEntryMatches(c.entries, s.agents[0], workload, sha, s.profile.value);
    AscendingKeysAreUnique(c.entries);
    var i: nat :| i < |c.entries| && c.entries[i] == e;
    var d := answer.value;
    assert NamesOnly(d, c.entries, i);
    assert s.agents == [s.agents[0]];
  }

  /**
   Conversely, a session of version 1.12 or later succeeds on such an intent for exactly one answer: the
   dispatch of the chosen entry.
   */
  lemma OnlyTheChosenDispatchSucceeds(s: State, c: CassetteCatalog, workload: string, sha: string, session: Session,
                                      key: string, answer: Answer, d: Dispatch)
    requires GuidedCampaign.Next(s, StartAuthenticated(c, workload, sha)).1.Emitted?
    ensures s.profile.Some? && |s.agents| == 1
    ensures IntentStep(session, GuidedCampaign.Next(s, StartAuthenticated(c, workload, sha)).1.intent, key, answer)
            == Ok(d)
            <==> session.minor >= REPLAY_MINOR && answer == Ok(d)
                 && d == Dispatch(session.runner, c.generation, c.campaign, s.profile.value, s.agents[0], workload,
                                  sha, true)
  {
    FoundEntryMatches(c.entries, s.agents[0], workload, sha, s.profile.value);
  }

  /**
   The intent does not carry the catalog's runner, so a successful dispatch runs on that runner exactly when
   the session is with it.
   */
  lemma DispatchRunsOnTheCatalogRunner(s: State, c: CassetteCatalog, workload: string, sha: string, session: Session,
                                       key: string, answer: Answer)
    requires GuidedCampaign.Next(s, StartAuthenticated(c, workload, sha)).1.Emitted?
    requires IntentStep(session, GuidedCampaign.Next(s, StartAuthenticated(c, workload, sha)).1.intent, key, answer).Ok?
    ensures var intent := GuidedCampaign.Next(s, StartAuthenticated(c, workload, sha)).1.intent;
      IntentStep(session, intent, key, answer).value.runner == c.runner <==> c.runner == session.runner
  {
  }

  /** A cassette of runner A, chosen in a reachable campaign, and dispatched with success on a session with runner B. */
  lemma OtherRunnerIsDispatched()
    ensures var d := seq(64, _ => 'a');
      var c := CassetteCatalog("A", 1, "c", [CassetteEntry("i", d, d, "a", "w", "s")]);
      var s := GuidedCampaign.Run(Fresh("w", None),
                                  [AddAgent("a"), AddMeasure("m"), SetMode(OfflineReplay), BindProfile(d), Review]);
      var out := GuidedCampaign.Next(s, StartAuthenticated(c, "w", d)).1;
      Authenticated(c) && out.Emitted?
      && var dispatch := Dispatch("B", 1, "c", d, "a", "w", d, true);
      IntentStep(Session(REPLAY_MINOR, "B"), out.intent, "k", Ok(dispatch)) == Ok(dispatch)
      && dispatch.runner != c.runner
  {
    var d := seq(64, _ => 'a');
    var c := CassetteCatalog("A", 1, "c", [CassetteEntry("i", d, d, "a", "w", "s")]);
    var ready := State("w", ["a"], ["m"], OfflineReplay, Reviewed, None, Some(d), None);
    CampaignGetsReady(d);
    FoundEntryMatches(c.entries, "a", "w", d, d);
    assert c.entries[0] == CassetteEntry("i", d, d, "a", "w", "s");
    assert !HasControl("i") by {
      assert !ControlFrom("i", 1);
    }
    OnlyTheChosenDispatchSucceeds(ready, c, "w", d, Session(REPLAY_MINOR, "B"), "k",
                                  Ok(Dispatch("B", 1, "c", d, "a", "w", d, true)),
                                  Dispatch("B", 1, "c", d, "a", "w", d, true));
  }

  lemma CampaignGetsReady(d: string)
    requires IsDigest(d)
    ensures GuidedCampaign.Run(Fresh("w", None),
                               [AddAgent("a"), AddMeasure("m"), SetMode(OfflineReplay), BindProfile(d), Review])
         == State("w", ["a"], ["m"], OfflineReplay, Reviewed, None, Some(d), None)
  {
    assert !HasControl("a") && !HasControl("m") by {
      assert !ControlFrom("a", 1) && !ControlFrom("m", 1);
    }
    var s0 := Fresh("w", None);
    var s1 := s0.(agents := ["a"]);
    var s2 := s1.(measures := ["m"]);
    var s3 := s2.(replay := OfflineReplay);
    var s4 := s3.(profile := Some(d));
    assert GuidedCampaign.Next(s0, AddAgent("a")).0 == s1 && GuidedCampaign.Next(s1, AddMeasure("m")).0 == s2;
    assert GuidedCampaign.Next(s2, SetMode(OfflineReplay)).0 == s3 && GuidedCampaign.Next(s3, BindProfile(d)).0 == s4;
    assert GuidedCampaign.Next(s4, Review).0 == s4.(stage := Reviewed);
    assert GuidedCampaign.Run(s4, [Review]) == s4.(stage := Reviewed);
    assert GuidedCampaign.Run(s3, [BindProfile(d), Review]) == GuidedCampaign.Run(s4, [Review]);
    assert GuidedCampaign.Run(s2, [SetMode(OfflineReplay), BindProfile(d), Review])
        == GuidedCampaign.Run(s3, [BindProfile(d), Review]);
    assert GuidedCampaign.Run(s1, [AddMeasure("m"), SetMode(OfflineReplay), BindProfile(d), Review])
        == GuidedCampaign.Run(s2, [SetMode(OfflineReplay), BindProfile(d), Review]);
  }

  /** An intent from the compatible choices carries no campaign, so no session ever dispatches it. */
  lemma ChoiceIntentIsNeverDispatched(s: State, choices: ReplayCatalog, sha: string, session: Session, key: string,
                                      answer: Answer)
    requires GuidedCampaign.Next(s, StartReplay(choices, sha)).1.Emitted?
    ensures IntentStep(session, GuidedCampaign.Next(s, StartReplay(choices, sha)).1.intent, key, answer)
            == Err(Continuity)
  {
  }
}
