/**
 The durable store of the active bundle: a staged write, a rename, and recovery of an interrupted
 rename. Files are optional texts. Every operation may stop at any step, by an I/O error or by the
 death of the process, and a stopped write leaves any prefix of what it was writing.
 */
module BundleStore {
  import opened Results
  import opened MaterializedBundle

  /** What the store knows of bundles: which are self-consistent, and what a stored text loads as. */
  datatype Codec = Codec(sound: Bundle -> bool, load: string -> Result<Bundle, Error>)

  /** Sound bundles that fit the file bound load as themselves, and no strict prefix of a sound text loads. */
  ghost predicate Faithful(codec: Codec) {
    (forall b :: codec.sound(b) && |b.canonicalJson| <= MAX_FILE_BYTES ==> codec.load(b.canonicalJson) == Ok(b))
    && (forall b, torn ::
          codec.sound(b) && torn <= b.canonicalJson && torn != b.canonicalJson ==> codec.load(torn).Err?)
  }

  datatype Fs = Fs(target: Option<string>, stage: Option<string>)

  /** Where a load stops. The rename is atomic: a stop is before it or after it. */
  datatype LoadStop = LoadRuns | AtRead | AtRename | AfterLoadRename

  /** Where an apply stops; removed says whether the old stage file was already gone. */
  datatype ApplyStop =
    | ApplyRuns
    | AtDirectory
    | InRecovery(stop: LoadStop)
    | AtWrite(removed: bool)
    | Writing(written: nat)
    | AfterApplyRename

  datatype Event = LoadCall(stop: LoadStop) | ApplyCall(bundle: Bundle, at: ApplyStop)

  // ----- specification

  function LoadStep(fs: Fs, stop: LoadStop, codec: Codec): (Fs, Result<Option<Bundle>, Error>) {
    var source := if fs.target.Some? then fs.target else fs.stage;
    if source.None? then (fs, Ok(None))
    else if stop.AtRead? then (fs, Err(Io))
    else
      match codec.load(source.value)
      case Err(error) => (fs, Err(error))
      case Ok(bundle) =>
        if fs.target.Some? then (fs, Ok(Some(bundle)))
        else if stop.AtRename? then (fs, Err(Io))
        else if stop.AfterLoadRename? then (Fs(fs.stage, None), Err(Io))
        else (Fs(fs.stage, None), Ok(Some(bundle)))
  }

  function ApplyStep(fs: Fs, bundle: Bundle, at: ApplyStop, codec: Codec): (Fs, Result<(), Error>) {
    if !codec.sound(bundle) then (fs, Err(Invalid("bundle digest")))
    else if at.AtDirectory? then (fs, Err(Io))
    else if |bundle.canonicalJson| > MAX_FILE_BYTES then (fs, Err(Invalid("bundle size")))
    else
      var (recovered, result) :=
        if fs.stage.Some? && fs.target.None? then
          LoadStep(fs, if at.InRecovery? then at.stop else LoadRuns, codec)
        else (fs, Ok(None));
      if result.Err? then (recovered, Err(result.error)) else WriteStep(recovered, bundle.canonicalJson, at)
  }

  /** Remove the stage, write it, rename it over the target. */
  function WriteStep(fs: Fs, text: string, at: ApplyStop): (Fs, Result<(), Error>) {
    match at
    case AtWrite(removed) => (if removed then fs.(stage := None) else fs, Err(Io))
    case Writing(n) => (fs.(stage := Some(if n < |text| then text[..n] else text)), Err(Io))
    case AfterApplyRename => (Fs(Some(text), None), Err(Io))
    case _ => (Fs(Some(text), None), Ok(()))
  }

  function Step(fs: Fs, e: Event, codec: Codec): Fs {
    match e
    case LoadCall(stop) => LoadStep(fs, stop, codec).0
    case ApplyCall(b, at) => ApplyStep(fs, b, at, codec).0
  }

  function Run(fs: Fs, events: seq<Event>, codec: Codec): Fs
    decreases events
  {
    if events == [] then fs else Run(Step(fs, events[0], codec), events[1..], codec)
  }

  // ----- with an active bundle

  ghost predicate Active(fs: Fs, b: Bundle, codec: Codec) {
    fs.target.Some? && codec.load(fs.target.value) == Ok(b)
  }

  /** An apply that gets past its rename, in a store that already has an active bundle. */
  predicate Commits(e: Event, codec: Codec) {
    e.ApplyCall? && codec.sound(e.bundle) && |e.bundle.canonicalJson| <= MAX_FILE_BYTES
    && (e.at.ApplyRuns? || e.at.InRecovery? || e.at.AfterApplyRename?)
  }

  /** The bundle of the last apply that committed. */
  function LastCommitted(b: Bundle, events: seq<Event>, codec: Codec): Bundle
    decreases events
  {
    if events == [] then b
    else LastCommitted(if Commits(events[0], codec) then events[0].bundle else b, events[1..], codec)
  }

  lemma ApplyOverTarget(fs: Fs, b: Bundle, at: ApplyStop, codec: Codec)
    requires fs.target.Some?
    ensures ApplyStep(fs, b, at, codec).0 ==
      if !codec.sound(b) || at.AtDirectory? || |b.canonicalJson| > MAX_FILE_BYTES then fs
      else WriteStep(fs, b.canonicalJson, at).0
  {
  }

  /** The target changes at the rename and nowhere else; a load never changes anything. */
  lemma OnlyTheRenameSwitches(fs: Fs, e: Event, codec: Codec)
    requires fs.target.Some?
    ensures Step(fs, e, codec).target == if Commits(e, codec) then Some(e.bundle.canonicalJson) else fs.target
    ensures e.LoadCall? ==> Step(fs, e, codec) == fs
  {
    if e.ApplyCall? {
      ApplyOverTarget(fs, e.bundle, e.at, codec);
    }
  }

  lemma StepKeepsActive(fs: Fs, b: Bundle, e: Event, codec: Codec)
    requires Faithful(codec) && Active(fs, b, codec)
    ensures Active(Step(fs, e, codec), if Commits(e, codec) then e.bundle else b, codec)
  {
    OnlyTheRenameSwitches(fs, e, codec);
  }

  /**
   Once a bundle is active, after any run of loads and applies, each stopped anywhere, a load returns
   exactly the bundle last committed: never an error of its own making, never nothing, never a mixture.
   */
  lemma {:induction false} LoadReturnsLastCommitted(fs: Fs, b: Bundle, events: seq<Event>, codec: Codec)
    requires Faithful(codec) && Active(fs, b, codec)
    ensures Active(Run(fs, events, codec), LastCommitted(b, events, codec), codec)
    ensures LoadStep(Run(fs, events, codec), LoadRuns, codec)
         == (Run(fs, events, codec), Ok(Some(LastCommitted(b, events, codec))))
    decreases events
  {
    if events != [] {
      StepKeepsActive(fs, b, events[0], codec);
      var next := if Commits(events[0], codec) then events[0].bundle else b;
      LoadReturnsLastCommitted(Step(fs, events[0], codec), next, events[1..], codec);
    }
  }

  /** A second load sees what the first one saw and changes nothing more, with or without a recovery. */
  lemma LoadIsIdempotent(fs: Fs, codec: Codec)
    ensures var (once, first) := LoadStep(fs, LoadRuns, codec);
      LoadStep(once, LoadRuns, codec) == (once, first)
  {
  }

  // ----- from an empty store

  ghost predicate Applied(b: Bundle, events: seq<Event>, codec: Codec) {
    codec.sound(b) && |b.canonicalJson| <= MAX_FILE_BYTES
    && exists i :: 0 <= i < |events| && events[i].ApplyCall? && events[i].bundle == b
  }

  /** The target is nothing or a whole bundle that was applied; the stage may be torn. */
  ghost predicate Clean(fs: Fs, events: seq<Event>, codec: Codec) {
    (fs.target.Some? ==> exists b :: Applied(b, events, codec) && b.canonicalJson == fs.target.value)
    && (fs.stage.Some? ==> exists b :: Applied(b, events, codec) && fs.stage.value <= b.canonicalJson)
  }

  lemma LoadKeepsClean(fs: Fs, events: seq<Event>, stop: LoadStop, codec: Codec)
    requires Faithful(codec) && Clean(fs, events, codec)
    ensures Clean(LoadStep(fs, stop, codec).0, events, codec)
  {
    if fs.target.None? && fs.stage.Some? && codec.load(fs.stage.value).Ok? {
      var b :| Applied(b, events, codec) && fs.stage.value <= b.canonicalJson;
      assert fs.stage.value == b.canonicalJson;
    }
  }

  lemma StepKeepsClean(fs: Fs, events: seq<Event>, i: nat, codec: Codec)
    requires Faithful(codec) && i < |events| && Clean(fs, events, codec)
    ensures Clean(Step(fs, events[i], codec), events, codec)
  {
    var e := events[i];
    if e.LoadCall? {
      LoadKeepsClean(fs, events, e.stop, codec);
    } else if codec.sound(e.bundle) && |e.bundle.canonicalJson| <= MAX_FILE_BYTES {
      assert Applied(e.bundle, events, codec);
      LoadKeepsClean(fs, events, if e.at.InRecovery? then e.at.stop else LoadRuns, codec);
    }
  }

  lemma {:induction false} RunKeepsClean(fs: Fs, events: seq<Event>, i: nat, codec: Codec)
    requires Faithful(codec) && i <= |events| && Clean(fs, events, codec)
    ensures Clean(Run(fs, events[i..], codec), events, codec)
    decreases |events| - i
  {
    if i < |events| {
      StepKeepsClean(fs, events, i, codec);
      assert events[i..][1..] == events[i + 1..];
      RunKeepsClean(Step(fs, events[i], codec), events, i + 1, codec);
    }
  }

  /** No run from an empty store ever promotes a torn stage: the target always holds one whole applied bundle. */
  lemma NothingTornIsPromoted(events: seq<Event>, codec: Codec)
    requires Faithful(codec)
    ensures var fs := Run(Fs(None, None), events, codec);
      fs.target.Some? ==> exists b :: Applied(b, events, codec) && Active(fs, b, codec)
  {
    RunKeepsClean(Fs(None, None), events, 0, codec);
    assert events[0..] == events;
    var fs := Run(Fs(None, None), events, codec);
    if fs.target.Some? {
      var b :| Applied(b, events, codec) && b.canonicalJson == fs.target.value;
    }
  }

  /** A whole stage without a target is recovered to exactly the staged bundle, by a load or by the next apply. */
  lemma WholeStageIsRecovered(b: Bundle, next: Bundle, codec: Codec)
    requires Faithful(codec)
    requires codec.sound(b) && |b.canonicalJson| <= MAX_FILE_BYTES
    requires codec.sound(next) && |next.canonicalJson| <= MAX_FILE_BYTES
    ensures var fs := Fs(None, Some(b.canonicalJson));
      && LoadStep(fs, LoadRuns, codec) == (Fs(Some(b.canonicalJson), None), Ok(Some(b)))
      && ApplyStep(fs, next, AtWrite(true), codec).0 == Fs(Some(b.canonicalJson), None)
      && ApplyStep(fs, next, ApplyRuns, codec) == (Fs(Some(next.canonicalJson), None), Ok(()))
  {
    assert codec.load(b.canonicalJson) == Ok(b);
  }

  // ----- the torn first write

  /** Without a target, an unreadable stage refuses every call. */
  ghost predicate Wedged(fs: Fs, codec: Codec) {
    fs.target.None? && fs.stage.Some? && codec.load(fs.stage.value).Err?
  }

  /** No run of loads and applies gets out of a wedged state: each fails and leaves both files as they are. */
  lemma {:induction false} WedgedForever(fs: Fs, events: seq<Event>, codec: Codec)
    requires Wedged(fs, codec)
    ensures Run(fs, events, codec) == fs
    ensures forall stop :: LoadStep(fs, stop, codec).1.Err?
    ensures forall b, at :: ApplyStep(fs, b, at, codec).1.Err?
    decreases events
  {
    if events != [] {
      assert Step(fs, events[0], codec) == fs;
      WedgedForever(fs, events[1..], codec);
    }
  }

  /** An undisturbed apply of a sound bundle succeeds exactly when the store is not wedged, and then activates it. */
  lemma ApplySucceedsUnlessWedged(fs: Fs, b: Bundle, codec: Codec)
    requires Faithful(codec)
    ensures var (after, result) := ApplyStep(fs, b, ApplyRuns, codec);
      && (result.Ok? <==> codec.sound(b) && |b.canonicalJson| <= MAX_FILE_BYTES && !Wedged(fs, codec))
      && (result.Ok? ==> Active(after, b, codec) && after.stage.None?)
  {
    if codec.sound(b) && |b.canonicalJson| <= MAX_FILE_BYTES {
      assert codec.load(b.canonicalJson) == Ok(b);
    }
  }

  /**
   One interrupted first write is enough, and nothing else does it: an event wedges a store exactly when the
   store was empty and the event is an apply of a sound bundle within the bound, stopped inside the write of
   its stage.
   */
  lemma OnlyTornFirstWriteWedges(fs: Fs, e: Event, codec: Codec)
    requires Faithful(codec) && !Wedged(fs, codec)
    ensures Wedged(Step(fs, e, codec), codec) <==>
            fs == Fs(None, None) && e.ApplyCall? && codec.sound(e.bundle) && |e.bundle.canonicalJson| <= MAX_FILE_BYTES
            && e.at.Writing? && e.at.written < |e.bundle.canonicalJson|
  {
    if e.ApplyCall? && codec.sound(e.bundle) && |e.bundle.canonicalJson| <= MAX_FILE_BYTES {
      var text := e.bundle.canonicalJson;
      assert codec.load(text) == Ok(e.bundle);
      if e.at.Writing? && e.at.written < |text| {
        var torn := text[..e.at.written];
        assert torn <= text && torn != text;
        assert codec.load(torn).Err?;
      }
    }
  }
}
