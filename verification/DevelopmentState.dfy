/** The stored form of the development state, and the file formats of the lifecycle built from it. */
module DevelopmentState {
  import opened Results
  import opened Numbers
  import opened JsonText
  import opened JsonPrinter
  import opened JsonMap
  import ChannelManifest
  import opened DevelopmentLifecycle

  const STATE_FIELDS: seq<string> :=
    ["schema_version", "channel", "development_only", "source_commit", "source_tree", "executable_sha256",
     "source_repository", "asb_source_commit", "asb_source_tree", "channel_manifest_sha256",
     "group_writable_rustup_paths"]

  function StateValues(s: State): seq<Json> {
    [OfNat(s.schemaVersion), Str(s.channel), Bool(s.developmentOnly), Str(s.sourceCommit), Str(s.sourceTree),
     Str(s.executableSha256), Str(s.sourceRepository), OfOptionalString(s.asbSourceCommit),
     OfOptionalString(s.asbSourceTree), OfOptionalString(s.manifestSha256), Bool(s.groupWritable)]
  }

  function Encode(s: State): string {
    Print(Record(STATE_FIELDS, StateValues(s)), Compact)
  }

  /** Optional fields may be absent, and so may the warning flag, which is then false. */
  function StateOf(f: seq<Option<Json>>): Option<State>
    requires |f| == 11
  {
    var version, channel, dev := ChannelManifest.ReadU64(f[0]), AsString(f[1]), AsBool(f[2]);
    var commit, tree, executable, repository := AsString(f[3]), AsString(f[4]), AsString(f[5]), AsString(f[6]);
    var asbCommit, asbTree, manifest := AsOptionalString(f[7]), AsOptionalString(f[8]), AsOptionalString(f[9]);
    var writable := if f[10].None? then Some(false) else AsBool(f[10]);
    if version.Some? && channel.Some? && dev.Some? && commit.Some? && tree.Some? && executable.Some?
       && repository.Some? && asbCommit.Some? && asbTree.Some? && manifest.Some? && writable.Some? then
      Some(State(version.value, channel.value, dev.value, commit.value, tree.value, executable.value,
                 repository.value, asbCommit.value, asbTree.value, manifest.value, writable.value))
    else None
  }

  function ReadBack(v: Json): Option<State> {
    if Decode(STATE_FIELDS, v).None? then None else StateOf(Decode(STATE_FIELDS, v).value)
  }

  /** The formats of a real installation, for any parser and any digest. */
  function FormatsOf(parse: string -> Option<Json>, digest: string -> string): Formats {
    Formats(Encode,
            (text: string) => if parse(text).None? then None else ReadBack(parse(text).value),
            (bytes: string) => ChannelManifest.Consume(bytes, parse),
            digest)
  }

  lemma ValuesReadBack(s: State, f: seq<Option<Json>>)
    requires |f| == 11 && forall i :: 0 <= i < 11 ==> f[i] == Some(StateValues(s)[i])
    ensures StateOf(f) == Some(s)
  {
    NatField(s.schemaVersion, U64_LIMIT);
  }

  lemma StateReadsBack(s: State)
    ensures ReadBack(Record(STATE_FIELDS, StateValues(s))) == Some(s)
  {
    DecodeRecord(STATE_FIELDS, StateValues(s));
    ValuesReadBack(s, Decode(STATE_FIELDS, Record(STATE_FIELDS, StateValues(s))).value);
  }

  /** With a parser that computes Parse, every state is read back from its stored form. */
  lemma StoredStateRoundTrips(parse: string -> Option<Json>, digest: string -> string)
    requires forall s :: parse(s) == Parse(s)
    ensures RoundTrips(FormatsOf(parse, digest))
  {
    forall s: State
      ensures FormatsOf(parse, digest).decode(Encode(s)) == Some(s)
    {
      OfNatIsPrintable(s.schemaVersion);
      RecordIsPrintable(STATE_FIELDS, StateValues(s));
      ParsePrint(Record(STATE_FIELDS, StateValues(s)), Compact);
      StateReadsBack(s);
    }
  }

  /**
   With the real file formats, for any parser that computes Parse and any digest: every run of installs,
   upgrades and removals whose provenance fits its bound leaves nothing or one verified installation.
   */
  lemma RealRootStaysWhole(root: Dir, calls: seq<Call>, repository: string, parse: string -> Option<Json>,
                           digest: string -> string)
    requires (forall s :: parse(s) == Parse(s)) && Whole(root, repository, FormatsOf(parse, digest))
    requires forall i :: 0 <= i < |calls| ==> Fits(calls[i], repository, FormatsOf(parse, digest))
    ensures Whole(DevelopmentLifecycle.Run(root, calls, repository, FormatsOf(parse, digest)), repository,
                  FormatsOf(parse, digest))
  {
    StoredStateRoundTrips(parse, digest);
    EveryRunKeepsWhole(root, calls, repository, FormatsOf(parse, digest));
  }

  lemma StateIsNotShorter(s: State)
    ensures |Encode(s)| >= |s.sourceRepository|
  {
    var ms := Zip(STATE_FIELDS, StateValues(s));
    LookupAt(ms, 6);
    assert ms[6].value == Str(s.sourceRepository);
    PrintIsNotShorter(ms, Compact, 6, s.sourceRepository);
  }

  /**
   With the real file formats, installing into an empty root from a repository whose name alone is over the
   provenance bound succeeds, does not verify, and freezes the root.
   */
  lemma LongRepositoryFreezes(executable: string, repository: string, calls: seq<Call>, parse: string -> Option<Json>,
                              digest: string -> string)
    requires (forall s :: parse(s) == Parse(s)) && |repository| > MAX_STATE_BYTES
    ensures var formats := FormatsOf(parse, digest);
      var w := Undisturbed(SoundBuild(executable, repository, formats));
      var (after, result) := Materialize(map[], false, w, repository, formats);
      WellPrepared(w, repository, formats) && result.Ok? && !result.value.verified && Unreadable(after, formats)
      && DevelopmentLifecycle.Run(after, calls, repository, formats) == after
  {
    var formats := FormatsOf(parse, digest);
    var c := SoundBuild(executable, repository, formats);
    var w := Undisturbed(c);
    SoundBuildIsWellPrepared(executable, repository, formats);
    StateIsNotShorter(c.state);
    var after := Materialize(map[], false, w, repository, formats).0;
    assert !ActivationFails(Stage(w, formats).value, w);
    assert after[Provenance] == Encode(c.state);
    UnreadableProvenanceIsPermanent(after, calls, repository, formats);
  }
}
