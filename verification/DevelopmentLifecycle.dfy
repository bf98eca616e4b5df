/**
 The development installation: three files in a private root, replaced by a backup, activation and
 rollback transaction in which every forward rename may fail, and the status that judges the result.
 Restoring renames and directory removals succeed.
 */
module DevelopmentLifecycle {
  import opened Results
  import opened Numbers
  import opened TextRules
  import opened ChannelManifest

  const MAX_STATE_BYTES: nat := 16 * 1024

  datatype Name = Executable | Provenance | ChannelFile

  type Dir = map<Name, string>

  const NAMES: seq<Name> := [Executable, Provenance, ChannelFile]

  datatype State = State(schemaVersion: u64, channel: string, developmentOnly: bool, sourceCommit: string,
                         sourceTree: string, executableSha256: string, sourceRepository: string,
                         asbSourceCommit: Option<string>, asbSourceTree: Option<string>,
                         manifestSha256: Option<string>, groupWritable: bool)

  /** The file formats: how a state is written and read, how a manifest is consumed, and the digest. */
  datatype Formats = Formats(encode: State -> string, decode: string -> Option<State>,
                             consume: string -> Result<Manifest, ManifestError>, digest: string -> string)

  ghost predicate RoundTrips(formats: Formats) {
    forall s :: formats.decode(formats.encode(s)) == Some(s)
  }

  datatype Code =
    | Installed | NotInstalled | InstallationInvalid | AlreadyInstalled | Cancelled | StageFailed | ActivationFailed
    | BuildFailed | RootInvalid | StateInvalid | RemoveFailed | Removed | ManifestCode(error: ManifestError)

  // ----- status

  /** `read_state`: an absent file is no state; an oversized or unreadable one is an error. */
  function ReadState(root: Dir, formats: Formats): Result<Option<State>, Code> {
    if Provenance !in root then Ok(None)
    else if |root[Provenance]| > MAX_STATE_BYTES then Err(StateInvalid)
    else match formats.decode(root[Provenance]) case None => Err(StateInvalid) case Some(s) => Ok(Some(s))
  }

  datatype Response = Response(code: Code, installed: bool, verified: bool)

  function ManifestAgrees(root: Dir, s: State, formats: Formats): bool
    requires Executable in root
  {
    if ChannelFile !in root then s.manifestSha256.None?
    else
      match formats.consume(root[ChannelFile])
      case Err(_) => false
      case Ok(m) =>
        m.tuiCommit == s.sourceCommit && m.tuiTree == s.sourceTree
        && ValidateExecutable(m, root[Executable], formats.digest).None?
        && s.manifestSha256 == Some(formats.digest(root[ChannelFile]))
  }

  predicate StateIsSound(s: State, executable: string, repository: string, formats: Formats) {
    s.schemaVersion == 1 && s.channel == "dev" && s.developmentOnly && s.sourceRepository == repository
    && IsLowerHex(s.sourceCommit, 40) && IsLowerHex(s.sourceTree, 40)
    && formats.digest(executable) == s.executableSha256
  }

  function StatusCode(root: Dir, s: State, verified: bool, formats: Formats): Code {
    if ChannelFile in root && formats.consume(root[ChannelFile]).Err? then
      ManifestCode(formats.consume(root[ChannelFile]).error)
    else if Executable in root && ChannelFile in root && !ManifestAgrees(root, s, formats) then
      var m := formats.consume(root[ChannelFile]).value;
      if m.tuiCommit != s.sourceCommit || m.tuiTree != s.sourceTree then ManifestCode(Stale)
      else ManifestCode(DigestMismatch)
    else if ChannelFile !in root && s.manifestSha256.Some? then ManifestCode(Unavailable)
    else if verified then Installed
    else InstallationInvalid
  }

  function Status(root: Dir, repository: string, formats: Formats): Response {
    match ReadState(root, formats)
    case Err(_) => Response(NotInstalled, false, false)
    case Ok(None) => Response(NotInstalled, false, false)
    case Ok(Some(s)) =>
      if Executable !in root then Response(InstallationInvalid, false, false)
      else
        var verified := StateIsSound(s, root[Executable], repository, formats) && ManifestAgrees(root, s, formats);
        Response(StatusCode(root, s, verified, formats), true, verified)
  }

  // ----- preparation: everything before the root is touched

  datatype Candidate = Candidate(executable: string, state: State)

  /** The outside world of one call: the build, the manifest file named by the environment, and every failure. */
  datatype World = World(build: Result<Candidate, Code>, manifestFile: Option<Result<string, ManifestError>>,
                         cancelled: bool, stageFails: bool, rootFails: bool,
                         backupFails: Name -> bool, activationFails: Name -> bool)

  function Stage(w: World, formats: Formats): Result<Dir, Code> {
    if w.build.Err? then Err(w.build.error)
    else
      var executable, state := w.build.value.executable, w.build.value.state;
      match w.manifestFile
      case Some(Err(error)) => Err(ManifestCode(error))
      case Some(Ok(bytes)) =>
        (match formats.consume(bytes)
         case Err(error) => Err(ManifestCode(error))
         case Ok(m) =>
           var stale := ValidateCurrentMain(m, m.asbCommit, m.asbTree, state.sourceCommit, state.sourceTree);
           var mismatch := ValidateExecutable(m, executable, formats.digest);
           if stale.Some? then Err(ManifestCode(stale.value))
           else if mismatch.Some? then Err(ManifestCode(mismatch.value))
           else if w.cancelled then Err(Cancelled)
           else if w.stageFails then Err(StageFailed)
           else
             var bound := state.(asbSourceCommit := Some(m.asbCommit), asbSourceTree := Some(m.asbTree),
                                 manifestSha256 := Some(formats.digest(bytes)));
             Ok(map[Executable := executable, Provenance := formats.encode(bound), ChannelFile := bytes]))
      case None =>
        if w.cancelled then Err(Cancelled)
        else if w.stageFails then Err(StageFailed)
        else Ok(map[Executable := executable, Provenance := formats.encode(state)])
  }

  // ----- the transaction, as one step

  predicate BackupFails(root: Dir, w: World) {
    exists n :: n in root && w.backupFails(n)
  }

  predicate ActivationFails(staged: Dir, w: World) {
    exists n :: n in staged && w.activationFails(n)
  }

  /**
   What replacing the three entries amounts to. A failed upgrade changes nothing and a successful one
   leaves exactly the staged entries; a failed fresh activation clears the root, and a successful one
   keeps whatever entries it did not stage.
   */
  function Activate(root: Dir, staged: Dir, replacing: bool, w: World): (Dir, bool) {
    if replacing && BackupFails(root, w) then (root, false)
    else if ActivationFails(staged, w) then (if replacing then root else map[], false)
    else (if replacing then staged else root + staged, true)
  }

  function Materialize(root: Dir, replacing: bool, w: World, repository: string, formats: Formats)
    : (Dir, Result<Response, Code>)
  {
    if w.rootFails then (root, Err(RootInvalid))
    else if !replacing && ReadState(root, formats).Err? then (root, Err(ReadState(root, formats).error))
    else if !replacing && ReadState(root, formats).value.Some? then (root, Err(AlreadyInstalled))
    else
      match Stage(w, formats)
      case Err(code) => (root, Err(code))
      case Ok(staged) =>
        var (after, activated) := Activate(root, staged, replacing, w);
        (after, if activated then Ok(Status(after, repository, formats)) else Err(ActivationFailed))
  }

  // ----- the root directory, changed one rename at a time

  class Root {
    var entries: Dir
    const repository: string
    const formats: Formats

    constructor (entries: Dir, repository: string, formats: Formats)
      ensures this.entries == entries && this.repository == repository && this.formats == formats
    {
      this.entries := entries;
      this.repository := repository;
      this.formats := formats;
    }

    method MaterializeInto(replacing: bool, w: World) returns (result: Result<Response, Code>)
      modifies this
      ensures (entries, result) == Materialize(old(entries), replacing, w, repository, formats)
    {
      if w.rootFails {
        return Err(RootInvalid);
      }
      if !replacing {
        var state := ReadState(entries, formats);
        if state.Err? {
          return Err(state.error);
        }
        if state.value.Some? {
          return Err(AlreadyInstalled);
        }
      }
      var prepared := Stage(w, formats);
      if prepared.Err? {
        return Err(prepared.error);
      }
      var backup: Dir := map[];
      if replacing {
        var moved: bool;
        moved, backup := MoveToBackup(w);
        if !moved {
          return Err(ActivationFailed);
        }
      }
      assert map[] + prepared.value == prepared.value;
      var activated := ActivateEntries(prepared.value, backup, w);
      if !activated {
        return Err(ActivationFailed);
      }
      result := Ok(Status(entries, repository, formats));
    }

    /** Move every entry aside; when one rename fails, put the moved ones back. */
    method MoveToBackup(w: World) returns (moved: bool, backup: Dir)
      modifies this
      ensures moved <==> !BackupFails(old(entries), w)
      ensures moved ==> entries == map[] && backup == old(entries)
      ensures !moved ==> entries == old(entries)
    {
      backup := map[];
      for i := 0 to |NAMES|
        invariant Split(old(entries), entries, backup, i)
        invariant forall j :: 0 <= j < i && NAMES[j] in old(entries) ==> !w.backupFails(NAMES[j])
      {
        var name := NAMES[i];
        if name in entries {
          if w.backupFails(name) {
            Restore(backup);
            EveryName();
            return false, backup;
          }
          backup := backup[name := entries[name]];
          entries := entries - {name};
        }
      }
      EveryName();
      moved := true;
    }

    /** Rename every saved entry back into the root. */
    method Restore(saved: Dir)
      modifies this
      ensures entries == old(entries) + saved
    {
      FirstOfNone(old(entries), saved);
      for i := 0 to |NAMES|
        invariant entries == old(entries) + First(saved, i)
      {
        OneMoreName(old(entries), saved, i);
        if NAMES[i] in saved {
          entries := entries[NAMES[i] := saved[NAMES[i]]];
        }
      }
      FirstOfAll(saved);
    }

    /** Move every staged entry into the root; when one rename fails, remove what is there and restore the backup. */
    method ActivateEntries(staged: Dir, backup: Dir, w: World) returns (activated: bool)
      modifies this
      ensures activated <==> !ActivationFails(staged, w)
      ensures activated ==> entries == old(entries) + staged
      ensures !activated ==> entries == backup
    {
      FirstOfNone(old(entries), staged);
      for i := 0 to |NAMES|
        invariant entries == old(entries) + First(staged, i)
        invariant forall j :: 0 <= j < i && NAMES[j] in staged ==> !w.activationFails(NAMES[j])
      {
        OneMoreName(old(entries), staged, i);
        var name := NAMES[i];
        if name in staged {
          if w.activationFails(name) {
            RollBack(backup);
            return false;
          }
          entries := entries[name := staged[name]];
        }
      }
      FirstOfAll(staged);
      EveryName();
      activated := true;
    }

    method RollBack(backup: Dir)
      modifies this
      ensures entries == backup
    {
      for i := 0 to |NAMES|
        invariant forall n :: n in NAMES[..i] ==> (n in entries <==> n in backup)
        invariant forall n :: n in NAMES[..i] && n in backup ==> entries[n] == backup[n]
      {
        assert NAMES[..i + 1] == NAMES[..i] + [NAMES[i]];
        var current := NAMES[i];
        entries := entries - {current};
        if current in backup {
          entries := entries[current := backup[current]];
        }
      }
      EveryName();
    }

    /** `remove`: move the entries to a trash directory and drop it; any failure puts them back. */
    method Remove(w: World, trashFails: bool, dropFails: bool) returns (code: Code)
      modifies this
      ensures (entries, code) == RemoveStep(old(entries), w, trashFails, dropFails, repository, formats)
    {
      if !Status(entries, repository, formats).installed {
        return NotInstalled;
      }
      if trashFails {
        return RemoveFailed;
      }
      var before := entries;
      var moved, trash := MoveToBackup(w);
      if !moved {
        return RemoveFailed;
      }
      if dropFails {
        Restore(trash);
        assert map[] + trash == trash;
        return RemoveFailed;
      }
      code := Removed;
    }
  }

  function RemoveStep(root: Dir, w: World, trashFails: bool, dropFails: bool, repository: string, formats: Formats)
    : (Dir, Code)
  {
    if !Status(root, repository, formats).installed then (root, NotInstalled)
    else if trashFails || BackupFails(root, w) || dropFails then (root, RemoveFailed)
    else (map[], Removed)
  }

  /** The entries of d under the first i names. */
  ghost function First(d: Dir, i: nat): Dir
    requires i <= |NAMES|
  {
    map n | n in d && n in NAMES[..i] :: d[n]
  }

  lemma FirstOfNone(base: Dir, d: Dir)
    ensures base + First(d, 0) == base
  {
  }

  lemma FirstOfAll(d: Dir)
    ensures First(d, |NAMES|) == d
  {
    EveryName();
  }

  lemma OneMoreName(base: Dir, d: Dir, i: nat)
    requires i < |NAMES|
    ensures base + First(d, i + 1)
         == if NAMES[i] in d then (base + First(d, i))[NAMES[i] := d[NAMES[i]]] else base + First(d, i)
  {
    assert NAMES[..i + 1] == NAMES[..i] + [NAMES[i]];
  }

  /** The moved entries and the remaining ones make up the original directory, the first i names moved. */
  ghost predicate Split(whole: Dir, rest: Dir, moved: Dir, i: nat)
    requires i <= |NAMES|
  {
    (forall n :: n in rest <==> n in whole && n !in NAMES[..i])
    && (forall n :: n in moved <==> n in whole && n in NAMES[..i])
    && (forall n :: n in rest ==> rest[n] == whole[n])
    && (forall n :: n in moved ==> moved[n] == whole[n])
  }

  lemma EveryName()
    ensures forall n: Name :: n in NAMES[..|NAMES|]
  {
    forall n: Name
      ensures n in NAMES[..|NAMES|]
    {
      match n
      case Executable => assert NAMES[0] == n;
      case Provenance => assert NAMES[1] == n;
      case ChannelFile => assert NAMES[2] == n;
    }
  }

  // ----- what a call leaves behind

  /** What the build command guarantees of its candidate before the state is written. */
  predicate WellBuilt(c: Candidate, repository: string, formats: Formats) {
    StateIsSound(c.state, c.executable, repository, formats) && c.state.manifestSha256.None?
  }

  predicate WellPrepared(w: World, repository: string, formats: Formats) {
    w.build.Ok? ==> WellBuilt(w.build.value, repository, formats)
  }

  /** The call got as far as renaming staged entries into the root. */
  predicate ReachesActivation(root: Dir, replacing: bool, w: World, formats: Formats) {
    !w.rootFails && (replacing || ReadState(root, formats) == Ok(None)) && Stage(w, formats).Ok?
    && !(replacing && BackupFails(root, w))
  }

  /**
   A failed upgrade leaves the root exactly as it was. A failed install does too, unless it failed while
   renaming entries into a root that was not empty: then the entries found there are gone.
   */
  lemma FailureRestores(root: Dir, replacing: bool, w: World, repository: string, formats: Formats)
    requires Materialize(root, replacing, w, repository, formats).1.Err?
    ensures replacing ==> Materialize(root, replacing, w, repository, formats).0 == root
    ensures Materialize(root, replacing, w, repository, formats).0 == root <==>
      replacing || !ReachesActivation(root, replacing, w, formats) || root == map[]
    ensures Materialize(root, replacing, w, repository, formats).0 != root ==>
      Materialize(root, replacing, w, repository, formats).0 == map[]
  {
  }

  /**
   After a successful call the status verifies exactly when the written provenance fits the bound
   under which it is read back and, for a fresh install without a manifest, no stray manifest was there.
   */
  lemma SuccessVerifies(root: Dir, replacing: bool, w: World, repository: string, formats: Formats)
    requires RoundTrips(formats) && WellPrepared(w, repository, formats)
    requires Materialize(root, replacing, w, repository, formats).1.Ok?
    ensures var (after, result) := Materialize(root, replacing, w, repository, formats);
      var staged := Stage(w, formats).value;
      && Executable in staged && Provenance in staged
      && (replacing ==> after == staged)
      && (!replacing ==> after == root + staged)
      && result.value == Status(after, repository, formats)
      && (result.value.verified <==>
            |staged[Provenance]| <= MAX_STATE_BYTES && (replacing || ChannelFile in staged || ChannelFile !in root))
      && (result.value.verified ==> result.value.code == Installed)
  {
    var staged := Stage(w, formats).value;
    var (after, _) := Activate(root, staged, replacing, w);
    assert after[Executable] == staged[Executable] && after[Provenance] == staged[Provenance];
    if ChannelFile in staged {
      assert after[ChannelFile] == staged[ChannelFile];
    }
    StagedStateReadsBack(w, repository, formats);
  }

  /** The staged provenance decodes to a sound state that names the staged manifest, or no manifest at all. */
  lemma StagedStateReadsBack(w: World, repository: string, formats: Formats)
    requires RoundTrips(formats) && WellPrepared(w, repository, formats) && Stage(w, formats).Ok?
    ensures var staged := Stage(w, formats).value;
      && Executable in staged && Provenance in staged
      && formats.decode(staged[Provenance]).Some?
      && var s := formats.decode(staged[Provenance]).value;
      && StateIsSound(s, staged[Executable], repository, formats)
      && (ChannelFile !in staged ==> s.manifestSha256.None?)
      && ManifestAgrees(staged, s, formats)
      && (ChannelFile in staged ==> s.manifestSha256.Some?)
  {
    var state := w.build.value.state;
    match w.manifestFile {
      case Some(Ok(bytes)) =>
        var m := formats.consume(bytes).value;
        var bound := state.(asbSourceCommit := Some(m.asbCommit), asbSourceTree := Some(m.asbTree),
                            manifestSha256 := Some(formats.digest(bytes)));
        assert formats.decode(formats.encode(bound)) == Some(bound);
      case None =>
        assert formats.decode(formats.encode(state)) == Some(state);
    }
  }

  // ----- every run

  datatype Call = Install(w: World) | Upgrade(w: World) | RemoveCall(w: World, trashFails: bool, dropFails: bool)

  /** The three commands: an upgrade needs a readable state, a removal an installed status. */
  function Execute(root: Dir, call: Call, repository: string, formats: Formats): Dir {
    match call
    case Install(w) => Materialize(root, false, w, repository, formats).0
    case Upgrade(w) =>
      if ReadState(root, formats).Err? || ReadState(root, formats).value.None? then root
      else Materialize(root, true, w, repository, formats).0
    case RemoveCall(w, trashFails, dropFails) => RemoveStep(root, w, trashFails, dropFails, repository, formats).0
  }

  function Run(root: Dir, calls: seq<Call>, repository: string, formats: Formats): Dir
    decreases calls
  {
    if calls == [] then root else Run(Execute(root, calls[0], repository, formats), calls[1..], repository, formats)
  }

  /** A root that is empty or holds one verified installation. */
  predicate Whole(root: Dir, repository: string, formats: Formats) {
    root == map[] || Status(root, repository, formats).verified
  }

  /** The call's build is sound and the provenance it would write fits its bound. */
  predicate Fits(call: Call, repository: string, formats: Formats) {
    call.RemoveCall?
    || (WellPrepared(call.w, repository, formats)
        && (Stage(call.w, formats).Ok? && Provenance in Stage(call.w, formats).value ==>
              |Stage(call.w, formats).value[Provenance]| <= MAX_STATE_BYTES))
  }

  lemma ExecuteKeepsWhole(root: Dir, call: Call, repository: string, formats: Formats)
    requires RoundTrips(formats) && Whole(root, repository, formats) && Fits(call, repository, formats)
    ensures Whole(Execute(root, call, repository, formats), repository, formats)
  {
    if call.Install? && Materialize(root, false, call.w, repository, formats).1.Ok? {
      assert root == map[];
      SuccessVerifies(root, false, call.w, repository, formats);
    } else if call.Upgrade? && Execute(root, call, repository, formats) != root {
      SuccessVerifies(root, true, call.w, repository, formats);
    }
  }

  /**
   Over every run of installs, upgrades and removals, each failing anywhere, no half-new installation is ever
   left.
   */
  lemma {:induction false} EveryRunKeepsWhole(root: Dir, calls: seq<Call>, repository: string, formats: Formats)
    requires RoundTrips(formats) && Whole(root, repository, formats)
    requires forall i :: 0 <= i < |calls| ==> Fits(calls[i], repository, formats)
    ensures Whole(Run(root, calls, repository, formats), repository, formats)
    decreases calls
  {
    if calls != [] {
      ExecuteKeepsWhole(root, calls[0], repository, formats);
      EveryRunKeepsWhole(Execute(root, calls[0], repository, formats), calls[1..], repository, formats);
    }
  }

  // ----- the frozen root

  /** The provenance file is over the bound under which it is read, or does not decode. */
  predicate Unreadable(root: Dir, formats: Formats) {
    Provenance in root && (|root[Provenance]| > MAX_STATE_BYTES || formats.decode(root[Provenance]).None?)
  }

  /** An unreadable provenance file leaves a root that no run of commands changes again. */
  lemma {:induction false} UnreadableProvenanceIsPermanent(root: Dir, calls: seq<Call>, repository: string,
                                                           formats: Formats)
    requires Unreadable(root, formats)
    ensures Run(root, calls, repository, formats) == root
    ensures !Status(root, repository, formats).installed
    decreases calls
  {
    if calls != [] {
      assert Execute(root, calls[0], repository, formats) == root;
      UnreadableProvenanceIsPermanent(root, calls[1..], repository, formats);
    }
  }

  /** A sound build of the executable, recorded for the repository. */
  function SoundBuild(executable: string, repository: string, formats: Formats): Candidate {
    var commit := seq(40, _ => '0');
    Candidate(executable,
              State(1, "dev", true, commit, commit, formats.digest(executable), repository, None, None, None, false))
  }

  /** Nothing fails, nothing is cancelled, and no channel manifest is named. */
  function Undisturbed(c: Candidate): World {
    World(Ok(c), None, false, false, false, _ => false, _ => false)
  }

  lemma SoundBuildIsWellPrepared(executable: string, repository: string, formats: Formats)
    ensures WellPrepared(Undisturbed(SoundBuild(executable, repository, formats)), repository, formats)
  {
  }

  /** The first command for a root: an upgrade of a readable installation, an install otherwise. */
  function FirstCall(root: Dir, w: World): Call {
    if Provenance in root then Upgrade(w) else Install(w)
  }

  /** A readable root is changed by one undisturbed command with a sound build of another executable. */
  lemma ReadableRootChanges(root: Dir, executable: string, repository: string, formats: Formats)
    requires !Unreadable(root, formats) && (Executable in root ==> root[Executable] != executable)
    ensures var w := Undisturbed(SoundBuild(executable, repository, formats));
      WellPrepared(w, repository, formats)
      && var after := Execute(root, FirstCall(root, w), repository, formats);
      Executable in after && after[Executable] == executable && after != root
  {
    var w := Undisturbed(SoundBuild(executable, repository, formats));
    SoundBuildIsWellPrepared(executable, repository, formats);
    var staged := Stage(w, formats).value;
    assert staged[Executable] == executable;
    assert Executable in root + staged && (root + staged)[Executable] == executable;
  }

  /** No run of commands ever changes the root exactly when its provenance file is unreadable. */
  lemma FrozenExactlyWhenUnreadable(root: Dir, repository: string, formats: Formats)
    ensures Unreadable(root, formats) <==> ReadState(root, formats).Err?
    ensures Unreadable(root, formats) <==> forall calls :: Run(root, calls, repository, formats) == root
  {
    if Unreadable(root, formats) {
      forall calls
        ensures Run(root, calls, repository, formats) == root
      {
        UnreadableProvenanceIsPermanent(root, calls, repository, formats);
      }
    } else {
      var executable := if Executable in root then root[Executable] + "x" else "x";
      ReadableRootChanges(root, executable, repository, formats);
      var call := FirstCall(root, Undisturbed(SoundBuild(executable, repository, formats)));
      assert Run(root, [call], repository, formats) == Execute(root, call, repository, formats);
    }
  }

  // ----- runs that show the exceptions

  /** A fresh install that fails to rename its first entry removes a stray manifest it found in the root. */
  lemma FailedInstallClearsStray(bytes: string, executable: string, repository: string, formats: Formats)
    ensures var root: Dir := map[ChannelFile := bytes];
      var w := Undisturbed(SoundBuild(executable, repository, formats)).(activationFails := n => n == Executable);
      Materialize(root, false, w, repository, formats) == (map[], Err(ActivationFailed))
  {
    var w := Undisturbed(SoundBuild(executable, repository, formats)).(activationFails := n => n == Executable);
    assert Executable in Stage(w, formats).value && w.activationFails(Executable);
  }

  /** A stray manifest outlives an undisturbed fresh install without one, and the installation does not verify. */
  lemma StrayManifestSpoilsInstall(bytes: string, executable: string, repository: string, formats: Formats)
    requires RoundTrips(formats)
    ensures var root: Dir := map[ChannelFile := bytes];
      var w := Undisturbed(SoundBuild(executable, repository, formats));
      var (after, result) := Materialize(root, false, w, repository, formats);
      result.Ok? && !result.value.verified && ChannelFile in after && after[ChannelFile] == bytes
  {
    var root: Dir := map[ChannelFile := bytes];
    var w := Undisturbed(SoundBuild(executable, repository, formats));
    SoundBuildIsWellPrepared(executable, repository, formats);
    assert !ActivationFails(Stage(w, formats).value, w);
    SuccessVerifies(root, false, w, repository, formats);
  }
}
