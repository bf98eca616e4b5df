/**
 The store object over real bundle texts, and the run theorems of BundleStore for it. The JSON parser
 and the digest are fields: any digest function, and any parser that computes Parse.
 */
module BundleStoreObject {
  import opened Results
  import opened JsonText
  import opened JsonPrinter
  import opened MaterializedBundle
  import opened BundleStore

  ghost function BundleCodec(digest: Digest): Codec {
    Codec((b: Bundle) => SelfConsistent(b, digest), (text: string) => LoadText(text, digest))
  }

  lemma BundleCodecIsFaithful(digest: Digest)
    ensures Faithful(BundleCodec(digest))
  {
    var codec := BundleCodec(digest);
    forall b | codec.sound(b) && |b.canonicalJson| <= MAX_FILE_BYTES
      ensures codec.load(b.canonicalJson) == Ok(b)
    {
      StoredBundleLoads(b, digest);
    }
    forall b, torn | codec.sound(b) && torn <= b.canonicalJson && torn != b.canonicalJson
      ensures codec.load(torn).Err?
    {
      TornTextDoesNotLoad(b, digest, torn);
    }
  }

  // ----- the store object

  class Store {
    var target: Option<string>
    var stage: Option<string>
    const digest: Digest
    /** The JSON parser: any function that computes Parse. */
    const parse: string -> Option<Json>

    ghost predicate ParserIsFaithful() {
      forall s :: parse(s) == Parse(s)
    }

    ghost function Files(): Fs
      reads this
    {
      Fs(target, stage)
    }

    constructor (files: Fs, digest: Digest, parse: string -> Option<Json>)
      ensures Files() == files && this.digest == digest && this.parse == parse
    {
      this.target := files.target;
      this.stage := files.stage;
      this.digest := digest;
      this.parse := parse;
    }

    method Load(stop: LoadStop) returns (result: Result<Option<Bundle>, Error>)
      requires ParserIsFaithful()
      modifies this
      ensures (Files(), result) == LoadStep(old(Files()), stop, BundleCodec(digest))
    {
      var text: string;
      var recover := false;
      if target.Some? {
        text := target.value;
      } else if stage.Some? {
        text := stage.value;
        recover := true;
      } else {
        return Ok(None);
      }
      if stop.AtRead? {
        return Err(Io);
      }
      if |text| > MAX_FILE_BYTES {
        return Err(Invalid("bundle size"));
      }
      var accepted := Accept(parse(text), digest);
      if accepted.Err? {
        return Err(accepted.error);
      }
      if recover {
        if stop.AtRename? {
          return Err(Io);
        }
        target, stage := stage, None;
        if stop.AfterLoadRename? {
          return Err(Io);
        }
      }
      result := Ok(Some(accepted.value));
    }

    method Apply(bundle: Bundle, at: ApplyStop) returns (result: Result<(), Error>)
      requires ParserIsFaithful()
      modifies this
      ensures (Files(), result) == ApplyStep(old(Files()), bundle, at, BundleCodec(digest))
    {
      if !SelfConsistent(bundle, digest) {
        return Err(Invalid("bundle digest"));
      }
      if at.AtDirectory? {
        return Err(Io);
      }
      var text := bundle.canonicalJson;
      if |text| > MAX_FILE_BYTES {
        return Err(Invalid("bundle size"));
      }
      if stage.Some? && target.None? {
        var recovered := Load(if at.InRecovery? then at.stop else LoadRuns);
        if recovered.Err? {
          return Err(recovered.error);
        }
      }
      if at.AtWrite? && !at.removed {
        return Err(Io);
      }
      stage := None;
      if at.AtWrite? {
        return Err(Io);
      }
      if at.Writing? && at.written < |text| {
        stage := Some(text[..at.written]);
        return Err(Io);
      }
      stage := Some(text);
      if at.Writing? {
        return Err(Io);
      }
      target, stage := stage, None;
      if at.AfterApplyRename? {
        return Err(Io);
      }
      result := Ok(());
    }
  }

  // ----- the run theorems for real bundles

  /** From an active bundle, any run of interrupted calls leaves the store loading the last committed bundle. */
  lemma StoredBundleSurvivesEveryRun(fs: Fs, b: Bundle, events: seq<Event>, digest: Digest)
    requires fs.target.Some? && LoadText(fs.target.value, digest) == Ok(b)
    ensures var codec := BundleCodec(digest);
      var after := Run(fs, events, codec);
      after.target.Some? && LoadText(after.target.value, digest) == Ok(LastCommitted(b, events, codec))
  {
    BundleCodecIsFaithful(digest);
    LoadReturnsLastCommitted(fs, b, events, BundleCodec(digest));
  }

  /** From an empty store, any run leaves as target nothing, or the whole text of a bundle some apply was given. */
  lemma EmptyStoreNeverHoldsTornBundle(events: seq<Event>, digest: Digest)
    ensures var after := Run(Fs(None, None), events, BundleCodec(digest));
      after.target.Some? ==>
        exists i :: 0 <= i < |events| && events[i].ApplyCall?
          && LoadText(after.target.value, digest) == Ok(events[i].bundle)
  {
    var codec := BundleCodec(digest);
    BundleCodecIsFaithful(digest);
    NothingTornIsPromoted(events, codec);
    var after := Run(Fs(None, None), events, codec);
    if after.target.Some? {
      var b :| Applied(b, events, codec) && Active(after, b, codec);
      var i :| 0 <= i < |events| && events[i].ApplyCall? && events[i].bundle == b;
      assert LoadText(after.target.value, digest) == Ok(events[i].bundle);
    }
  }
}
