# A verified model of asb-tui's configuration, storage and control logic

asb-tui is a terminal frontend for a benchmark runner. This project models the parts of it whose correctness
is not visible in one function body, and proves what they promise over every input, every run and every peer:

- **JSON text.** One concrete syntax for JSON texts with every legal layout and every escape (sections 2, 6 and 7 of
  RFC 8259), one proof that the grammar is unambiguous, and one compact and pretty printer (`JsonText`, `JsonGrammar`,
  `JsonPrinter`, `JsonMap`). On top of it: the byte scanner that bounds nesting (`JsonScanner`), the two budgeted tree
  walkers (`JsonBudget`), the configuration file (`Configuration`), the canonical bytes of agent catalogs
  (`AgentCatalog`) and of materialized bundles (`MaterializedBundle`).
- **Drafts.** The configuration draft as an object and as a state machine (`ConfigurationDraft`), and what its
  operations do to single settings (`ConfigurationSettings`).
- **Durable state.** The materialized-bundle store with interruptions at every step and torn writes (`BundleStore`,
  `BundleStoreObject`), the development installation as a backup, activation and rollback transaction
  (`DevelopmentLifecycle`, `DevelopmentState`, `ChannelManifest`), and the resumable download over a cache
  (`ArtifactTransfer`, `BundleManifest`, `BundleDocuments`, `Inventories`).
- **The control session.** Frames (`Framing`, `Bytes`), the broker packet and its continuity (`BrokerPacket`), decimal
  cursors (`Decimal`), negotiation, reconnects and the request ledger (`ControlClient`), one poll of the runner
  (`ControlPoll`), recording campaigns (`RecordingMatrix`), and the guided campaign up to the dispatch of an exactly
  bound replay (`GuidedCampaign`, `CassetteCatalog`, `ReplayDispatch`).

Strings are byte strings: characters below 256 that hold UTF-8. SHA-256 and the JSON parser are parameters; the parser is
characterised by `JsonPrinter.Parse`, the value a text denotes. File systems, peers, sources, clocks and every
failure are inputs of the step they affect. Where a source loop or object changes state, the model is a method or a class
proved against a function, and the laws are lemmas about that function.

Where the code and its own description part, the model follows the code:

- `start_with_handoff` lacks the offline refusal of `start`; `GuidedCampaign.OnlyHandoffLaunchesOffline` says exactly when it
  emits a launch in offline mode and `GuidedCampaign.HandoffLaunchesOffline` gives a run. It also takes measures that the
  attached catalog lacks (`GuidedCampaign.OnlyHandoffBringsForeignMeasures`, `GuidedCampaign.HandoffBringsForeignMeasure`), and
  keeps them when it then fails for want of an agent (`GuidedCampaign.RefusalsChangeOnlyHandoffMeasures`,
  `GuidedCampaign.RefusedHandoffKeepsMeasures`).
- A replay intent does not carry its catalog's runner: a dispatch runs on that runner exactly when the session is with it
  (`ReplayDispatch.DispatchRunsOnTheCatalogRunner`, `ReplayDispatch.OtherRunnerIsDispatched`).
- Resetting the Appearance section resets the whole frontend (`ConfigurationSettings.SectionResetKeepsOthers`,
  `ConfigurationSettings.AppearanceResetMovesLanding`).
- Without a target file, an incomplete stage file makes every later `load` and `apply` fail
  (`BundleStore.WedgedForever`, `BundleStore.OnlyTornFirstWriteWedges`).
- A failed fresh installation removes entries it found in the root (`DevelopmentLifecycle.FailureRestores`,
  `DevelopmentLifecycle.FailedInstallClearsStray`), and a stray manifest outlives a fresh installation without one
  (`DevelopmentLifecycle.SuccessVerifies`, `DevelopmentLifecycle.StrayManifestSpoilsInstall`).
- A provenance file that is over its read bound or does not decode freezes the root, and nothing else does
  (`DevelopmentLifecycle.FrozenExactlyWhenUnreadable`); a successful installation can write one
  (`DevelopmentState.LongRepositoryFreezes`).
- A corrupt finished entry is never replaced, so every later call downloads again
  (`ArtifactTransfer.CorruptFinishedEntryStays`, `ArtifactTransfer.SuccessIsCachedUnlessCorrupt`).
- A complete partial download is never resumed, so an authentic download whose insertion failed is fetched again from the
  start (`ArtifactTransfer.ResumesExactlyShortPartials`, `ArtifactTransfer.OnlyUnfinishedDownloadsResume`,
  `ArtifactTransfer.FailedInsertRefetches`).

## Model

| member | source | states |
|---|---|---|
| JsonScanner.RejectExcessiveNesting | src/configuration.rs:323-353 | The loop over depth, quoted and escaped accepts exactly the texts whose scan never rises above eight |
| JsonScanner.ScannerMeasuresNesting | src/configuration.rs:323-353 | For every JSON text, in every layout and with any bytes in its strings, the peak of the scan is the true nesting depth of the value |
| JsonScanner.DocIsBalanced | src/configuration.rs:323-353 | Inside any document the scan returns to the depth it started from, peaks at that depth plus the document's nesting, and never falls below it |
| JsonScanner.StrictPrefixIsOpen | src/configuration.rs:323-353 | Every nonempty strict prefix of an array or object leaves the scan at depth one or more |
| JsonScanner.StrictPrefixIsNoDocument | src/configuration_materialization.rs:303-348 | No strict prefix of an array or object, with any reading of it, is a JSON text |
| JsonGrammar.DocumentIsUnique | src/configuration.rs:272-285 | A text has at most one reading as a JSON document |
| JsonGrammar.PiecesAreUnique | src/agent_catalog.rs:145-157 | The characters and escapes of a string are determined by its text up to the closing quote |
| JsonPrinter.ParsePrinted | src/configuration.rs:262-270 | Printed text, compact or pretty and with any white space around it, denotes exactly the value printed |
| JsonPrinter.PrintIsInjective | src/agent_catalog.rs:145-157 | Different values never print alike, even across the two styles |
| JsonPrinter.PrintedNesting | src/configuration.rs:262-285 | The scan of printed text peaks at the value's nesting depth |
| JsonPrinter.TornPrintDoesNotParse | src/configuration_materialization.rs:303-348 | No strict prefix of a printed array or object parses |
| JsonMap.CanonicalObjectsAgree | src/agent_catalog.rs:165-179 | Two objects have the same canonical form exactly when they bind the same keys to values with the same canonical form, the last binding of a key counting |
| JsonMap.CanonicalIsIdempotent | src/agent_catalog.rs:165-179 | Canonicalising twice is canonicalising once |
| JsonMap.SortedIsDetermined | src/agent_catalog.rs:165-179 | A sorted member list is determined by its bindings |
| JsonMap.DecodeCanonicalRecord | src/configuration.rs:272-285 | Decoding a record by field names gives back every field, whatever order a map put them in |
| JsonBudget.Walk | src/control_codec.rs:2213-2223 | With a shared counter and early stop, the walk accepts exactly when the nodes counted so far plus the size stay within 4096 and depth plus height within 16 |
| JsonBudget.ValidateJson | src/control_codec.rs:2212-2225 | Accepts exactly the values of at most 4096 nodes and height at most 16 |
| JsonBudget.WalkProfile | src/control_transport.rs:274-326 | Accepts exactly the values within both bounds that name no forbidden key at any depth |
| JsonBudget.SubmitProfile | src/control_transport.rs:274-326 | A profile the transport's check accepts is never refused by the codec's check |
| Configuration.ReadBack | src/configuration.rs:262-285 | Whatever is written is read back unchanged: size, nesting, key and validation guards never refuse the writer's own output |
| Configuration.WriteBack | src/configuration.rs:262-285 | Whatever is read is valid, and writing it again can fail only for size |
| Configuration.ConfigNestsThreeDeep | src/configuration.rs:262-270 | Every configuration's text nests at most three deep |
| Configuration.ConfigHasNoSecret | src/configuration.rs:287-321 | The key guard never fires on a configuration, whatever its strings contain |
| Configuration.DefaultIsValid | src/configuration.rs:236-260 | The default configuration validates |
| ConfigurationDraft.Draft.New | src/configuration.rs:364-371 | A draft of a valid configuration starts with both copies equal to it; an invalid one gives the validator's error |
| ConfigurationDraft.Draft.EditWith | src/configuration.rs:378-387 | An edit takes effect only if its result validates, and otherwise changes nothing |
| ConfigurationDraft.Draft.SetQueryText | src/configuration.rs:394-402 | A query is taken whole or refused for length or controls |
| ConfigurationDraft.Draft.SetTo | src/configuration.rs:435-496 | A typed value changes exactly what its parse asks for, or nothing |
| ConfigurationDraft.Draft.CancelEdits | src/configuration.rs:497-499 | Cancelling restores the last applied configuration |
| ConfigurationDraft.Draft.ResetEverything | src/configuration.rs:500-508 | A confirmed reset gives the default, an unconfirmed one nothing |
| ConfigurationDraft.Draft.ResetOneSection | src/configuration.rs:509-525 | A section reset keeps the draft consistent; unknown sections change nothing |
| ConfigurationDraft.Draft.ResetFocusedSetting | src/configuration.rs:526-544 | A focused reset keeps the draft consistent; without a focused setting nothing changes |
| ConfigurationDraft.Draft.ApplyEdits | src/configuration.rs:545-549 | On a consistent draft applying succeeds and commits exactly the current copy |
| ConfigurationDraft.EveryStepIsConsistent | src/configuration.rs:363-549 | Every operation keeps both copies valid, a failed one changes nothing, and apply never fails |
| ConfigurationDraft.EveryRunCanApply | src/configuration.rs:363-549 | After any sequence of operations both copies validate and applying succeeds |
| ConfigurationDraft.SettingOwnValueIsNoOp | src/configuration.rs:412-496 | For every scalar setting of every consistent draft, setting the displayed value succeeds and changes nothing, the decimal refresh interval included |
| ConfigurationSettings.TypingCopiesTheSetting | src/configuration.rs:412-496 | Typing the value any valid configuration displays for a scalar setting succeeds, takes that setting from it and keeps every other listed setting |
| ConfigurationSettings.TypingTouchesOne | src/configuration.rs:435-496 | Whatever is typed, an accepted edit names a scalar setting, touches it alone and leaves a valid configuration; the benchmark accepts no text |
| ConfigurationSettings.ResetFocusedTouchesOne | src/configuration.rs:526-544 | Resetting the focused setting gives it its default and keeps every other listed setting |
| ConfigurationSettings.ResetFocusedNeedsSetting | src/configuration.rs:526-544 | It succeeds exactly when a listed setting is focused |
| ConfigurationSettings.SectionResetKeepsOthers | src/configuration.rs:509-525 | Settings of the reset category have their defaults; the others survive exactly when the category is not Appearance or the other frontend settings were at their defaults |
| ConfigurationSettings.AppearanceResetMovesLanding | src/configuration.rs:509-511 | A configuration whose landing destination a reset of Appearance changes |
| AgentCatalog.CanonicalBytesIdentify | src/agent_catalog.rs:145-179 | Two catalogs have equal canonical bytes exactly when they agree in every field except catalog_sha256 and refreshed |
| AgentCatalog.ValidateCatalog | src/agent_catalog.rs:229-288 | The pass with the prior identifier and growing sets accepts exactly the bounded, pairwise ordered, well-formed catalogs whose digest matches |
| AgentCatalog.CheckCapabilities | src/agent_catalog.rs:275-281 | The growing set accepts exactly the lists of distinct tokens |
| AgentCatalog.ValidAgentsAreDistinct | src/agent_catalog.rs:236-242 | No two entries of an accepted catalog share an identifier |
| AgentCatalog.DigestIdentifiesCatalog | src/agent_catalog.rs:145-163 | Accepted catalogs with one digest are equal up to the response flag, unless the hash collides on their canonical bytes |
| MaterializedBundle.CanonicalIsInjective | src/configuration_materialization.rs:260-275 | A canonical text determines its document |
| MaterializedBundle.StoredBundleLoads | src/configuration_materialization.rs:303-348 | The text of a self-consistent bundle within the file bound loads as exactly that bundle |
| MaterializedBundle.LoadedIsConsistent | src/configuration_materialization.rs:325-348 | Whatever loads is self-consistent |
| MaterializedBundle.TornTextDoesNotLoad | src/configuration_materialization.rs:303-348 | No strict prefix of a bundle's text loads |
| MaterializedBundle.DigestBindsBundle | src/configuration_materialization.rs:407-418 | Self-consistent bundles with one digest are equal, unless the hash collides on their unsigned texts |
| MaterializedBundle.BuiltBundleIsSound | src/configuration_materialization.rs:199-281 | Every built bundle is self-consistent, bound to the reviewed draft and both expected generations, and survives storage |
| BundleStoreObject.Store.Load | src/configuration_materialization.rs:292-348 | Loading reads the target, or else recovers the stage by renaming it, and may stop at any step |
| BundleStoreObject.Store.Apply | src/configuration_materialization.rs:350-405 | Applying recovers an interrupted rename, rewrites the stage and renames it over the target, and may stop at any step with any prefix written |
| BundleStore.OnlyTheRenameSwitches | src/configuration_materialization.rs:386-405 | With a target, its text changes at the rename and nowhere else, and loading changes no file |
| BundleStore.LoadReturnsLastCommitted | src/configuration_materialization.rs:292-405 | After any run of interrupted loads and applies over an active bundle, loading returns exactly the bundle last committed |
| BundleStore.LoadIsIdempotent | src/configuration_materialization.rs:292-348 | A second load gives the same answer and changes nothing more, recovery included |
| BundleStore.NothingTornIsPromoted | src/configuration_materialization.rs:303-348 | From an empty store, no run ever makes anything but one whole applied bundle the target |
| BundleStore.WholeStageIsRecovered | src/configuration_materialization.rs:303-399 | A whole stage without a target is recovered to exactly the staged bundle, by a load or by the next apply |
| BundleStore.WedgedForever | src/configuration_materialization.rs:386-390 | With an unreadable stage and no target every later call fails and changes nothing |
| BundleStore.ApplySucceedsUnlessWedged | src/configuration_materialization.rs:350-405 | An undisturbed apply succeeds exactly when the bundle is sound, fits, and the store is not in that state, and then the bundle is active |
| BundleStore.OnlyTornFirstWriteWedges | src/configuration_materialization.rs:350-405 | An event leads to that state exactly when it is an apply of a sound, fitting bundle to an empty store, stopped inside the write of its stage |
| BundleStoreObject.BundleCodecIsFaithful | src/configuration_materialization.rs:303-348 | The real bundle texts meet what the store machine assumes of its codec |
| BundleStoreObject.StoredBundleSurvivesEveryRun | src/configuration_materialization.rs:292-405 | The run theorem for real bundle texts and any digest function |
| BundleStoreObject.EmptyStoreNeverHoldsTornBundle | src/configuration_materialization.rs:292-405 | From an empty store the target, if any, loads as a bundle some apply was given |
| DevelopmentLifecycle.Root.MaterializeInto | src/development_lifecycle.rs:1031-1150 | The renaming loops with rollback amount to one step: all staged entries, or none |
| DevelopmentLifecycle.Root.MoveToBackup | src/development_lifecycle.rs:1091-1106 | Either every entry is moved aside, or a rename failed and the root is as before |
| DevelopmentLifecycle.Root.ActivateEntries | src/development_lifecycle.rs:1107-1140 | Either every staged entry is in the root, or a rename failed and the root is the backup |
| DevelopmentLifecycle.Root.Remove | src/development_lifecycle.rs:1185-1221 | Removal empties an installed root or leaves it exactly as it was |
| DevelopmentLifecycle.FailureRestores | src/development_lifecycle.rs:1091-1149 | A failed upgrade leaves all three entries as before; a failed call changes the root exactly when it was a fresh install that failed while activating over stray entries |
| DevelopmentLifecycle.SuccessVerifies | src/development_lifecycle.rs:194-253 | After a successful call status verifies exactly when the provenance fits its read bound and no stray manifest outlives a fresh install; an upgrade leaves exactly the candidate's entries |
| DevelopmentLifecycle.StagedStateReadsBack | src/development_lifecycle.rs:1052-1089 | The staged provenance decodes to a sound state naming the staged manifest, or none |
| DevelopmentLifecycle.ExecuteKeepsWhole | src/development_lifecycle.rs:1152-1224 | One command keeps a root empty or verified |
| DevelopmentLifecycle.EveryRunKeepsWhole | src/development_lifecycle.rs:1152-1224 | Every run of installs, upgrades and removals, each failing anywhere, keeps the root empty or verified |
| DevelopmentLifecycle.UnreadableProvenanceIsPermanent | src/development_lifecycle.rs:163-175 | A provenance file over the bound, or one that does not decode, leaves a root no run of commands changes again |
| DevelopmentLifecycle.ReadableRootChanges | src/development_lifecycle.rs:1152-1184 | In every other root one undisturbed install or upgrade with a sound build puts the new executable in place |
| DevelopmentLifecycle.FrozenExactlyWhenUnreadable | src/development_lifecycle.rs:163-175 | No command ever changes the root exactly when its provenance is over the bound or does not decode |
| DevelopmentLifecycle.FailedInstallClearsStray | src/development_lifecycle.rs:1123-1140 | A fresh install that fails its first rename removes a stray manifest |
| DevelopmentLifecycle.StrayManifestSpoilsInstall | src/development_lifecycle.rs:194-253 | A stray manifest outlives an undisturbed fresh install without one, which then does not verify |
| DevelopmentState.StoredStateRoundTrips | src/development_lifecycle.rs:163-175 | Every stored state is read back unchanged |
| DevelopmentState.RealRootStaysWhole | src/development_lifecycle.rs:1031-1224 | The run theorem for the real file formats and any digest function |
| DevelopmentState.LongRepositoryFreezes | src/development_lifecycle.rs:1081-1085 | Through the real formats, a successful install from a repository with a long enough name writes an unreadable provenance and freezes the root |
| ArtifactTransfer.CacheDirectory.ObtainArtifact | src/bundle.rs:645-703 | Cache lookup, resumption, the retry loop, the digest check and the cache updates, against any source and any cache failure |
| ArtifactTransfer.CacheDirectory.Transfer | src/bundle.rs:664-689 | The loop resumes from the partial entry, retries, stores every full chunk, and leaves in the cache exactly the last bytes stored |
| ArtifactTransfer.OkIsAuthentic | src/bundle.rs:657-702 | Against any source and cache, Ok has the declared size and digest |
| ArtifactTransfer.OnlyAuthenticBytesAreInserted | src/bundle.rs:690-702 | The finished entries gain at most this artifact's digest, bound to bytes of its size with that digest |
| ArtifactTransfer.DownloadIsBounded | src/bundle.rs:670-689 | A download makes at most three reads per remaining chunk of 65536 bytes |
| ArtifactTransfer.MismatchRestarts | src/bundle.rs:690-695 | A digest mismatch drops the partial entry, so the next call reads from offset zero |
| ArtifactTransfer.ReadsAreForward | src/bundle.rs:671-689 | The reads of a download are as many as the loop counts, never go back, and stay within the artifact |
| ArtifactTransfer.ResumesExactlyShortPartials | src/bundle.rs:664-669 | A download resumes at the stored length exactly when a partial entry shorter than the artifact is stored, and otherwise reads from zero |
| ArtifactTransfer.OnlyUnfinishedDownloadsResume | src/bundle.rs:664-702 | A download that gave up leaves all it holds to the next one; a complete one leaves nothing, a failed insertion included |
| ArtifactTransfer.FailedInsertRefetches | src/bundle.rs:696-698 | For every artifact a run in which the whole authentic content is stored, only the insertion fails, and the next download starts from zero |
| ArtifactTransfer.SomeArtifactIsAcceptable | src/bundle.rs:650-656 | There is an acceptable artifact, so those runs exist |
| ArtifactTransfer.HonestCall | src/bundle.rs:645-703 | With an honest source, and a corrupt finished entry or none, a call leaves only prefixes of the content as partial entries, and its Ok is the content |
| ArtifactTransfer.ResumedDownloadIsTheContent | src/bundle.rs:664-702 | Any chain of interrupted calls that ends in Ok returns the content |
| ArtifactTransfer.GivingUpNeedsThreeFailures | src/bundle.rs:682-687 | The loop gives up only after three consecutive refusals at one offset |
| ArtifactTransfer.HonestCallSucceeds | src/bundle.rs:645-703 | With an honest source and a working cache, the call returns the content exactly when it hits the cache or does not give up, hence whenever no offset fails three times running |
| ArtifactTransfer.CorruptPartialHeals | src/bundle.rs:657-702 | From any cache, corrupt entries included, an undisturbed honest call returns authentic bytes or a mismatch that drops the partial entry, and after a mismatch the next one returns the content |
| ArtifactTransfer.CorruptFinishedEntryStays | src/bundle.rs:290-295 | A corrupt finished entry survives every chain of calls, and no lookup ever hits it |
| ArtifactTransfer.SuccessIsCachedUnlessCorrupt | src/bundle.rs:657-702 | After a success the next lookup hits exactly when no corrupt finished entry was in the way |
| BundleManifest.ValidateArtifacts | src/bundle.rs:549-588 | Accepts exactly the five expected artifacts, each once and well formed, of at most 512 MiB in all |
| BundleManifest.ValidateComponents | src/bundle.rs:504-528 | Accepts exactly the three expected components, each once with its pins |
| BundleDocuments.CheckLicenses | src/bundle.rs:872-894 | Accepts exactly the reports that list the expected inventory, each package once; calls one incomplete exactly when packages are missing and none is wrong |
| BundleDocuments.SpdxInventory | src/bundle.rs:792-824 | Reads exactly the SBOMs whose packages are complete and not repeated, into the map that lists them |
| BundleDocuments.CheckSbom | src/bundle.rs:896-914 | Accepts exactly the SBOMs of this release that list the expected inventory |
| BundleDocuments.ValidateDocuments | src/bundle.rs:861-929 | Approves exactly the bundles whose licence report and SBOM list the expected inventory and whose provenance names the release's source |
| BundleDocuments.ReportAndSbomAgree | src/bundle.rs:861-929 | In an approved bundle both documents list the same packages with the same licences |
| BundleManifest.ReleaseUrlIsImmutable | src/bundle.rs:590-597 | Every address the manifest check accepts, the transfer's own shape check accepts |
| BundleManifest.AcceptedArtifactsAreTransferable | src/bundle.rs:549-588 | Artifacts of an accepted manifest have distinct names and pass the transfer's guard |
| BundleManifest.ObtainVerifiedBundle | src/bundle.rs:706-719 | Succeeds exactly when every artifact is obtained, in order over one cache, and the documents are approved; the bundle then holds every artifact with its declared size and digest |
| BundleManifest.BundleIsAuthentic | src/bundle.rs:706-719 | A bundle obtained holds every artifact by name, each with its declared size and digest |
| Framing.Stream.ReadFrame | src/control_transport.rs:242-261 | One read takes one frame, or fails on a bad length or a short stream |
| Framing.DecodeIsCanonical | src/control_codec.rs:1458-1486 | A frame decodes to a body exactly when it is that body's encoding |
| Framing.StrictPrefixIsTruncated | src/control_client.rs:492-526 | Every strict prefix of a frame is rejected as truncated, for any reader limit at least the writer's |
| Framing.FramesReadBack | src/control_transport.rs:242-261 | The concatenation of any list of frames reads back as exactly those bodies in order, leaving exactly what follows |
| Framing.ReadBodiesAreTheStream | src/control_transport.rs:242-261 | Whatever is read, the stream was the frames of exactly those bodies and then what is left |
| Framing.CutStreamFails | src/control_transport.rs:242-261 | Before a cut frame every whole frame is read, and the cut one fails |
| BrokerPacket.DecodeIsCanonical | src/broker_adoption.rs:89-134 | A packet is accepted exactly when the 72 bytes are the one layout of a coherent packet, so no two byte strings share a packet |
| BrokerPacket.AcceptedSuccessBindsRunner | src/broker_adoption.rs:122-133 | In accepted packets success and a runner identity imply each other, and success or replacement carries a generation |
| BrokerPacket.Continuity.New | src/control_transport.rs:369-374 | Continuity starts exactly from a generation with an epoch and a sequence |
| BrokerPacket.Continuity.AcceptSuccessor | src/control_transport.rs:383-397 | Accepts exactly the next sequence of the same epoch and otherwise changes nothing |
| BrokerPacket.RunCountsAcceptances | src/control_transport.rs:368-397 | Over any run the epoch is constant and the sequence is the start plus the acceptances, below 2^64 |
| BrokerPacket.LastSequenceIsFinal | src/control_transport.rs:383-397 | At the last sequence nothing is accepted any more |
| BrokerPacket.PreimageIdentifiesRunner | src/broker_adoption.rs:248-253 | Different runner names have different digest preimages |
| BrokerPacket.RunnerIdentityDigest | src/broker_adoption.rs:238-263 | Accepts exactly the well-formed names, and the 32 bytes spell the hash's hexadecimal text |
| BrokerPacket.AuthenticateNegotiatedIdentity | src/broker_adoption.rs:228-235 | Succeeds exactly on an accepted success packet whose identity spells the hash of the negotiated name |
| Decimal.ParseCursor | src/control_client.rs:334-346 | Accepts exactly the canonical decimals of values below 2^64, as their value |
| Decimal.CursorRoundTrip | src/control_client.rs:333-365 | Parsing a printed value gives it back, and printing a parsed token gives the same text |
| Decimal.CursorTextsArePrintedValues | src/control_client.rs:333-365 | The accepted texts are exactly the printed values below 2^64 |
| Decimal.TwentyDigitBoundary | src/control_client.rs:334-346 | Both neighbours of 2^64 pass the length guard and the integer parser tells them apart |
| ControlClient.SelectVersion | src/control_client.rs:124-140 | Selects the greatest version both sides name; fails exactly when a side is empty, unknown, or nothing is shared |
| ControlClient.Intersect | src/control_client.rs:80-88 | Limits are within the intersection exactly when within both sides' valid limits |
| ControlClient.SessionFault | src/control_client.rs:219-241 | A session has no fault exactly when it is supported, offered, ordered, named and within the local limits |
| ControlClient.Connection.EstablishWith | src/control_client.rs:449-465 | Establishing authenticates, validates and resumes, and keeps the cursor |
| ControlClient.Connection.AdvanceTo | src/control_client.rs:272-289 | Advancing moves to a retained, later revision or changes nothing |
| ControlClient.ResumeIsGapFree | src/control_client.rs:260-270 | A cursor is resumed exactly when it is not ahead and every later revision is still retained |
| ControlClient.EstablishedMeansSafe | src/control_client.rs:449-465 | A session is established exactly when the channel is the runner's, the session validates and no revision would be missed; the cursor is kept either way |
| ControlClient.CursorNeverDecreases | src/control_client.rs:441-488 | Over every run the cursor never decreases, and every connected state can be followed without a gap |
| ControlClient.DeliveryIsIncreasing | src/control_client.rs:260-290 | Across any reconnects the delivered revisions strictly increase, and the cursor is the last one |
| ControlClient.RequestLedger.BeginRequest | src/control_client.rs:388-400 | A new request is pending, or refused for limits, room or a repeated identifier |
| ControlClient.RequestLedger.CompleteRequest | src/control_client.rs:402-404 | Completing removes a pending request and returns its class |
| ControlClient.RequestLedger.ReconnectPlan | src/control_client.rs:406-418 | The plan lists every pending read as retryable and every pending mutation as abandoned, each once in key order, and empties the ledger |
| ControlClient.EveryRequestIsAccountedFor | src/control_client.rs:387-418 | Over every run, the requests begun are exactly those completed, retryable, abandoned and pending, with multiplicity |
| ControlClient.MutationsAreNeverRetried | src/control_client.rs:387-418 | A mutation is never retryable; begun ones are completed, abandoned or pending |
| ControlClient.InFlightIsBounded | src/control_client.rs:394-396 | No more requests are ever pending than the limit allows |
| RecordingMatrix.ValidateSortedIds | src/control_codec.rs:1846-1856 | Accepts exactly 1 to 32 valid identifiers in ascending order, which are pairwise distinct |
| RecordingMatrix.PairCount | src/control_codec.rs:2018-2023 | Lists of distinct names have as many distinct pairs as the product of their lengths |
| RecordingMatrix.TupleCountIsExact | src/control_codec.rs:2018-2023 | For validated lists the saturating product is the number of distinct (agent, workload) pairs and fits 16 bits |
| RecordingMatrix.ValidatePlan | src/control_codec.rs:2013-2030 | Accepts exactly the plans whose tuple count is their number of distinct pairs and which claim nothing more |
| RecordingMatrix.ValidateLifecycle | src/control_codec.rs:2083-2108 | Accepts exactly the campaigns whose counts, state, readiness and reason agree |
| RecordingMatrix.ValidateStatus | src/control_codec.rs:2032-2046 | Accepts exactly a valid campaign of this runner and generation, or none |
| RecordingMatrix.ValidateEstimate | src/control_codec.rs:2066-2081 | Readiness and a reason exclude each other, and readiness needs complete coverage |
| RecordingMatrix.OfflineReadyMeansCovered | src/control_codec.rs:2083-2108 | A validated campaign is offline-ready exactly when it is complete and every pair is covered |
| CassetteCatalog.Authenticate | src/benchmark_route.rs:91-146 | Accepts exactly the bounded, well-formed, strictly ordered catalogs, which have one entry per agent, workload and digest |
| CassetteCatalog.NewReplayCatalog | src/benchmark_route.rs:150-175 | Accepts exactly valid choices without repetition, and sorts them |
| CassetteCatalog.FoundChoiceIsLeast | src/benchmark_route.rs:439-443 | The search by digest finds the least cassette identifier recorded under it, or nothing has that digest |
| GuidedCampaign.Campaign.StartCampaign | src/benchmark_route.rs:344-361 | A reviewed campaign that is not offline launches once, with its own selection and mode |
| GuidedCampaign.Campaign.StartFromHandoff | src/benchmark_route.rs:368-393 | A handoff replaces the measures, reviews and launches in one call |
| GuidedCampaign.Campaign.StartReplayFromCatalog | src/benchmark_route.rs:424-448 | Replay of a compatible choice for the one selected agent and the bound profile |
| GuidedCampaign.Campaign.StartReplayFromAuthenticatedCatalog | src/benchmark_route.rs:453-486 | Replay of the catalog entry for the agent, profile, workload and digest |
| GuidedCampaign.Campaign.AddOneAgent | src/benchmark_route.rs:292-306 | Adds a named, listed agent once, up to 64 |
| GuidedCampaign.OneFaithfulIntent | src/benchmark_route.rs:324-498 | Over every sequence of calls at most one intent is emitted, for exactly the agents added; a launch carries the mode last set, a replay arises only in offline mode |
| GuidedCampaign.IntentCarriesTheSelection | src/benchmark_route.rs:344-486 | An intent carries the campaign's measures and adapter, and its workload unless an authenticated replay named another |
| GuidedCampaign.OnlyHandoffLaunchesOffline | src/benchmark_route.rs:344-393 | A launch in offline mode is emitted exactly by a handoff whose own guards pass in that mode with an agent selected |
| GuidedCampaign.HandoffLaunchesOffline | src/benchmark_route.rs:368-393 | A three-call run that emits such a launch |
| GuidedCampaign.EveryRunSelectsAgents | src/benchmark_route.rs:292-342 | In every run the selected agents are few, distinct and from the attached catalog, and a campaign past selection has agents and measures |
| GuidedCampaign.OnlyHandoffBringsForeignMeasures | src/benchmark_route.rs:368-380 | Measures leave the attached catalog exactly through a handoff, accepted that far, that names one it lacks |
| GuidedCampaign.HandoffBringsForeignMeasure | src/benchmark_route.rs:368-393 | A two-call run that launches a measure the catalog lacks |
| GuidedCampaign.RefusalsChangeOnlyHandoffMeasures | src/benchmark_route.rs:368-380 | A refused call changes the state exactly when it is a handoff refused for want of an agent that names other measures, which it keeps |
| GuidedCampaign.RefusedHandoffKeepsMeasures | src/benchmark_route.rs:368-380 | A refused handoff in a fresh campaign leaves its measures behind |
| ReplayDispatch.RecordingReplayDispatch | src/control_transport.rs:1345-1381 | An answer is accepted only from version 1.12 on, for the session's runner, and if it repeats every identity of the request |
| ReplayDispatch.DispatchReplayIntent | src/control_transport.rs:1385-1416 | The request is built from the intent alone and refused when an identity is unbound |
| ReplayDispatch.DispatchNamesTheChosenEntry | src/control_transport.rs:1345-1416 | Whatever the runner answers, a successful dispatch of an authenticated intent names exactly one catalog entry, the one chosen, in its campaign and generation, offline |
| ReplayDispatch.OnlyTheChosenDispatchSucceeds | src/control_transport.rs:1345-1416 | For such an intent exactly one answer succeeds |
| ReplayDispatch.DispatchRunsOnTheCatalogRunner | src/control_transport.rs:1385-1416 | A successful dispatch runs on the catalog's runner exactly when the session is with that runner |
| ReplayDispatch.OtherRunnerIsDispatched | src/control_transport.rs:1385-1416 | A cassette of one runner, chosen in a reachable campaign, dispatched with success on another |
| ReplayDispatch.ChoiceIntentIsNeverDispatched | src/control_transport.rs:1396-1400 | An intent from the compatible choices is refused by every session |
| ControlPoll.Session.RoundTrip | src/control_transport.rs:178-226 | A request leaves only if valid and offered by the version; an answer counts only if valid for that request |
| ControlPoll.Session.ReadStatuses | src/control_transport.rs:1600-1644 | Only available agents are asked, each under the number of its place in the catalog |
| ControlPoll.Session.PollProjection | src/control_transport.rs:1568-1719 | The projection is replaced by the completed copy on success and left alone on any error |
| ControlPoll.PlanIsOrdered | src/control_transport.rs:468-490 | With at most 32 agents all planned requests have ascending identifiers and operations the version has |
| ControlPoll.BootstrapReadsCatalog | src/control_transport.rs:468-490 | From version 1.4 on a finished bootstrap leaves a validated catalog of at most 32 agents |
| ControlPoll.PollFollowsThePlan | src/control_transport.rs:1568-1719 | Against any peer a poll sends a prefix of the plan for what it has learned, and all of it when it succeeds |
| ControlPoll.PlanIsComplete | src/control_transport.rs:468-490 | The plan asks exactly the reads the version has, a status for exactly the available agents, and authentication for exactly the configured provider |
| ControlPoll.CompletePollAsksEverything | src/control_transport.rs:1568-1719 | A successful poll has asked exactly what the version offers about the agents and provider it now shows |
| ControlPoll.EveryPollIsOrdered | src/control_codec.rs:270-304 | For every version and peer, identifiers strictly increase without overflow and every operation sent meets its minimum version |
| ControlPoll.AuthFailureIsNotFatal | src/control_transport.rs:1685-1715 | A failure response to the authentication read never fails the poll; two codes mark authentication unavailable |

## Left out

- Sockets, descriptors, peer credentials, deadlines and ancillary messages: kernel behaviour.
- Child processes, toolchain trust, signature checking and the inside of SHA-256: the hash is an arbitrary function, a failing `sha256sum` an input.
- Symbolic links, inode identity, ownership and permission bits of files: files are optional byte strings.
- Failure of the restoring renames, and partial failure of `remove_dir_all`: the source ignores or cannot undo these, and the model lets them succeed.
- Loss of data that was written but not synchronised: a stopped write leaves a prefix, a finished one is durable, and a rename is atomic.
- The serde derive machinery: structs are mapped to ordered fields by hand and read from objects only, where derived readers also take arrays of the fields, and enum names are read from strings only, where they also take an object such as `{"dark":null}`; the parser's recursion limit of 128 and its integer range for untyped numbers are not modelled; repeated keys are merged for untyped values and refused for records.
- Unicode case folding: the configuration guards fold ASCII; the profile walker's folding is an arbitrary function.
- The canonical bytes of provider and benchmark catalogs (src/control_codec.rs:505-528): the scheme is the one proved for agent catalogs.
- ConfigurationDraft.Draft.SetQueryText: filtering the settings list by the query (src/configuration.rs:550-562) is not modelled.
- MaterializedBundle.BuiltBundleIsSound: whether the benchmark catalog accepts the campaign selection is an input, because the catalog's own rules are a separate table.
- ControlPoll.Session.PollProjection: the parts of the projection that a poll does not read back are an arbitrary function that may refuse any response; field validators of requests and responses are arbitrary, except that accepted agent catalogs are valid.
- ControlClient.Connection.EstablishWith: the source consumes the old state; here a failed call leaves it in place, as for a caller that kept a copy.
- BundleDocuments.ValidateDocuments: the expected inventory, which the source reads from its built-in SBOM and two pinned versions, is a parameter.
- ArtifactTransfer.CacheDirectory.ObtainArtifact: a cache entry that cannot be read counts as absent, and staging files left behind by a failed write, which make later writes fail, count as failures of those writes.
- BundleManifest.ValidateComponents: the versions and digests of the two pinned companions are a parameter.
- ReplayDispatch.RecordingReplayDispatch: the round trip is one arbitrary answer; the idempotency key is carried and not interpreted.
- The remaining recording commands of the session, fan-out, event streams and report comparison: single round trips or tables that would only add easy members.
- Adapter catalog, provider setup, actions, help and channel selection: tables; whether an adapter is known is an input.
