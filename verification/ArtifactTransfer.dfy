/**
 The resumable, retrying, digest-checked download of one artifact over a content-addressed cache.
 The source, every cache failure and the digest are inputs: a read may answer anything.
 */
module ArtifactTransfer {
  import opened Results
  import opened Numbers
  import opened TextRules

  const MAX_ARTIFACT_BYTES: nat := 256 * 1024 * 1024
  const CHUNK_BYTES: nat := 64 * 1024
  const MAX_ATTEMPTS: nat := 3

  datatype Artifact = Artifact(url: string, size: nat, sha256: string)

  datatype TransferError =
    | InvalidArtifact | TransferFailed | PartialCacheFailed | VerifiedCacheFailed | DigestMismatch | VerifierUnavailable

  /** The cache directory: finished entries and partial ones, by digest. */
  datatype Cache = Cache(verified: map<string, string>, partial: map<string, string>)

  /** A cache operation works, or reports failure before or after its change is in place. */
  datatype Effect = Works | FailsBefore | FailsAfter

  /** What one call meets: the answer to the k-th read at an offset, and how each cache operation goes. */
  datatype World = World(read: (nat, nat, nat) -> Option<string>, store: nat -> Effect, insert: Effect, clear: Effect,
                         verifierFails: bool)

  // ----- the shape of an acceptable artifact

  const RELEASES := "https://github.com/" + ("martin-beck/asb-tui/" + "releases/download/")
  const URL_PREFIX := RELEASES + "v"

  /** A version of digits and dots, one slash, and a file name without slashes. */
  predicate ReleasePath(path: string) {
    exists i :: 0 < i < |path| - 1 && path[i] == '/'
      && (forall j :: 0 <= j < i ==> '0' <= path[j] <= '9' || path[j] == '.')
      && (forall j :: i < j < |path| ==> path[j] != '/')
  }

  /** No query, fragment or escape. */
  predicate Plain(url: string) {
    forall j :: 0 <= j < |url| ==> url[j] != '?' && url[j] != '#' && url[j] != '%'
  }

  predicate ImmutableReleaseUrl(url: string) {
    URL_PREFIX <= url && ReleasePath(url[|URL_PREFIX|..]) && Plain(url)
  }

  predicate Acceptable(a: Artifact) {
    0 < a.size <= MAX_ARTIFACT_BYTES && IsDigest(a.sha256) && ImmutableReleaseUrl(a.url)
  }

  // ----- specification

  datatype Status = Complete | GaveUp | StoreFailed

  /** The bytes held when the loop ends, the partial entry it leaves, the number of the next read, and why it ended. */
  datatype Fetched = Fetched(bytes: string, partial: Option<string>, next: nat, status: Status)

  function Answer(w: World, k: nat, offset: nat, limit: nat): Option<string> {
    var chunk := w.read(k, offset, limit);
    if chunk.Some? && |chunk.value| == limit then chunk else None
  }

  /** The loop from its k-th read on, with the bytes and consecutive failures so far. */
  function Fetch(size: nat, w: World, partial: Option<string>, bytes: string, failures: nat, k: nat): Fetched
    requires failures < MAX_ATTEMPTS
    decreases if |bytes| < size then size - |bytes| else 0, MAX_ATTEMPTS - failures
  {
    if |bytes| >= size then Fetched(bytes, partial, k, Complete)
    else
      var request := Min(size - |bytes|, CHUNK_BYTES);
      match Answer(w, k, |bytes|, request)
      case Some(chunk) =>
        if !w.store(k).Works? then
          Fetched(bytes + chunk, if w.store(k).FailsAfter? then Some(bytes + chunk) else partial, k + 1, StoreFailed)
        else Fetch(size, w, Some(bytes + chunk), bytes + chunk, 0, k + 1)
      case None =>
        if failures + 1 >= MAX_ATTEMPTS then Fetched(bytes, partial, k + 1, GaveUp)
        else Fetch(size, w, partial, bytes, failures + 1, k + 1)
  }

  function Partial(c: Cache, sha: string): Option<string> {
    if sha in c.partial then Some(c.partial[sha]) else None
  }

  function WithPartial(c: Cache, sha: string, p: Option<string>): Cache {
    if p.None? then c.(partial := c.partial - {sha}) else c.(partial := c.partial[sha := p.value])
  }

  /** A partial entry is used when it is not empty and shorter than the artifact. */
  function Usable(p: Option<string>, size: nat): string {
    if p.Some? && 0 < |p.value| < size then p.value else ""
  }

  /** Where a download starts. */
  function StartBytes(c: Cache, a: Artifact): string {
    Usable(Partial(c, a.sha256), a.size)
  }

  /** A cached entry is used only when its size and its digest are the declared ones. */
  predicate Hit(c: Cache, a: Artifact, digest: string -> string) {
    a.sha256 in c.verified && |c.verified[a.sha256]| == a.size && digest(c.verified[a.sha256]) == a.sha256
  }

  /** An existing finished entry is never overwritten. */
  function Inserted(c: Cache, sha: string, bytes: string): Cache {
    if sha in c.verified then c else c.(verified := c.verified[sha := bytes])
  }

  function Download(a: Artifact, c: Cache, w: World): Fetched {
    Fetch(a.size, w, Partial(c, a.sha256), StartBytes(c, a), 0, 0)
  }

  function Obtain(a: Artifact, c: Cache, w: World, digest: string -> string): (Cache, Result<string, TransferError>) {
    if !Acceptable(a) then (c, Err(InvalidArtifact))
    else if a.sha256 in c.verified && |c.verified[a.sha256]| == a.size && w.verifierFails then
      (c, Err(VerifierUnavailable))
    else if Hit(c, a, digest) then (c, Ok(c.verified[a.sha256]))
    else
      var f := Download(a, c, w);
      var held := WithPartial(c, a.sha256, f.partial);
      match f.status
      case GaveUp => (held, Err(TransferFailed))
      case StoreFailed => (held, Err(PartialCacheFailed))
      case Complete => Settle(a, held, f.bytes, w, digest)
  }

  /** What happens to a complete download: it is checked, kept and no longer partial, or refused. */
  function Settle(a: Artifact, c: Cache, bytes: string, w: World, digest: string -> string)
    : (Cache, Result<string, TransferError>)
  {
    if w.verifierFails then (c, Err(VerifierUnavailable))
    else if digest(bytes) != a.sha256 then
      (Cleared(c, a.sha256, w.clear), Err(if w.clear.Works? then DigestMismatch else PartialCacheFailed))
    else
      var kept := if w.insert.FailsBefore? then c else Inserted(c, a.sha256, bytes);
      if !w.insert.Works? then (kept, Err(VerifiedCacheFailed))
      else (Cleared(kept, a.sha256, w.clear), if w.clear.Works? then Ok(bytes) else Err(PartialCacheFailed))
  }

  function Cleared(c: Cache, sha: string, clear: Effect): Cache {
    if clear.FailsBefore? then c else WithPartial(c, sha, None)
  }

  // ----- the cache object and the loop

  class CacheDirectory {
    var verified: map<string, string>
    var partial: map<string, string>

    constructor (c: Cache)
      ensures Contents() == c
    {
      verified := c.verified;
      partial := c.partial;
    }

    ghost function Contents(): Cache
      reads this
    {
      Cache(verified, partial)
    }

    method ObtainArtifact(a: Artifact, w: World, digest: string -> string)
      returns (result: Result<string, TransferError>)
      modifies this
      ensures (Contents(), result) == Obtain(a, old(Contents()), w, digest)
    {
      if !Acceptable(a) {
        return Err(InvalidArtifact);
      }
      if a.sha256 in verified && |verified[a.sha256]| == a.size {
        if w.verifierFails {
          return Err(VerifierUnavailable);
        }
        if digest(verified[a.sha256]) == a.sha256 {
          return Ok(verified[a.sha256]);
        }
      }
      var f := Transfer(a, w);
      match f.status {
        case GaveUp => result := Err(TransferFailed);
        case StoreFailed => result := Err(PartialCacheFailed);
        case Complete => result := Finish(a, f.bytes, w, digest);
      }
    }

    /** The retry loop: it resumes from the partial entry and stores every chunk it receives. */
    method Transfer(a: Artifact, w: World) returns (f: Fetched)
      modifies this
      ensures f == Download(a, old(Contents()), w)
      ensures Contents() == WithPartial(old(Contents()), a.sha256, f.partial)
    {
      var bytes := StartBytes(Cache(verified, partial), a);
      var failures, k := 0, 0;
      ghost var goal := Download(a, old(Contents()), w);
      WithPartialIsIdentity(old(Contents()), a.sha256);
      while |bytes| < a.size
        invariant failures < MAX_ATTEMPTS && k >= 0
        invariant Contents() == WithPartial(old(Contents()), a.sha256, Partial(Contents(), a.sha256))
        invariant Fetch(a.size, w, Partial(Contents(), a.sha256), bytes, failures, k) == goal
        decreases if |bytes| < a.size then a.size - |bytes| else 0, MAX_ATTEMPTS - failures
      {
        var answer := Answer(w, k, |bytes|, Min(a.size - |bytes|, CHUNK_BYTES));
        k := k + 1;
        if answer.Some? {
          bytes := bytes + answer.value;
          var stored := w.store(k - 1);
          if !stored.FailsBefore? {
            partial := partial[a.sha256 := bytes];
          }
          if !stored.Works? {
            return Fetched(bytes, Partial(Cache(verified, partial), a.sha256), k, StoreFailed);
          }
          failures := 0;
        } else {
          failures := failures + 1;
          if failures >= MAX_ATTEMPTS {
            return Fetched(bytes, Partial(Cache(verified, partial), a.sha256), k, GaveUp);
          }
        }
      }
      return Fetched(bytes, Partial(Cache(verified, partial), a.sha256), k, Complete);
    }

    /** The digest decides: insert and clear, or clear and refuse. */
    method Finish(a: Artifact, bytes: string, w: World, digest: string -> string)
      returns (result: Result<string, TransferError>)
      modifies this
      ensures (Contents(), result) == Settle(a, old(Contents()), bytes, w, digest)
    {
      if w.verifierFails {
        return Err(VerifierUnavailable);
      }
      if digest(bytes) != a.sha256 {
        var cleared := Clear(a.sha256, w.clear);
        return Err(if cleared then DigestMismatch else PartialCacheFailed);
      }
      if !w.insert.FailsBefore? && a.sha256 !in verified {
        verified := verified[a.sha256 := bytes];
      }
      if !w.insert.Works? {
        return Err(VerifiedCacheFailed);
      }
      var cleared := Clear(a.sha256, w.clear);
      result := if cleared then Ok(bytes) else Err(PartialCacheFailed);
    }

    method Clear(sha: string, clear: Effect) returns (ok: bool)
      modifies this`partial
      ensures ok == clear.Works? && Contents() == Cleared(old(Contents()), sha, clear)
    {
      if !clear.FailsBefore? {
        partial := partial - {sha};
      }
      ok := clear.Works?;
    }
  }

  lemma WithPartialIsIdentity(c: Cache, sha: string)
    ensures WithPartial(c, sha, Partial(c, sha)) == c
  {
  }

  // ----- against any source and any cache

  lemma {:induction false} FetchShape(size: nat, w: World, partial: Option<string>, bytes: string, failures: nat,
                                      k: nat)
    requires failures < MAX_ATTEMPTS && |bytes| <= size
    ensures var f := Fetch(size, w, partial, bytes, failures, k);
      |f.bytes| <= size && (f.status.Complete? ==> |f.bytes| == size)
    decreases size - |bytes|, MAX_ATTEMPTS - failures
  {
    if |bytes| < size {
      var request := Min(size - |bytes|, CHUNK_BYTES);
      match Answer(w, k, |bytes|, request)
      case Some(chunk) => FetchShape(size, w, Some(bytes + chunk), bytes + chunk, 0, k + 1);
      case None =>
        if failures + 1 < MAX_ATTEMPTS {
          FetchShape(size, w, partial, bytes, failures + 1, k + 1);
        }
    }
  }

  /** Whatever the source and the cache do, Ok carries the declared size and digest. */
  lemma OkIsAuthentic(a: Artifact, c: Cache, w: World, digest: string -> string)
    requires Obtain(a, c, w, digest).1.Ok?
    ensures var bytes := Obtain(a, c, w, digest).1.value;
      |bytes| == a.size && digest(bytes) == a.sha256
  {
    if !Hit(c, a, digest) {
      FetchShape(a.size, w, Partial(c, a.sha256), StartBytes(c, a), 0, 0);
    }
  }

  /** Nothing new is finished, or these bytes are, under their own digest. */
  predicate GainsOnly(before: map<string, string>, after: map<string, string>, a: Artifact, bytes: string,
                      digest: string -> string)
  {
    after == before
    || (a.sha256 !in before && |bytes| == a.size && digest(bytes) == a.sha256 && after == before[a.sha256 := bytes])
  }

  lemma SettleGainsOnly(a: Artifact, c: Cache, bytes: string, w: World, digest: string -> string)
    requires |bytes| == a.size
    ensures GainsOnly(c.verified, Settle(a, c, bytes, w, digest).0.verified, a, bytes, digest)
  {
  }

  /** The finished entries only ever gain this artifact's digest, bound to bytes of its size with that digest. */
  lemma {:induction false} OnlyAuthenticBytesAreInserted(a: Artifact, c: Cache, w: World, digest: string -> string)
    ensures exists bytes :: GainsOnly(c.verified, Obtain(a, c, w, digest).0.verified, a, bytes, digest)
  {
    FetchShape(a.size, w, Partial(c, a.sha256), StartBytes(c, a), 0, 0);
    var f := Download(a, c, w);
    if f.status.Complete? {
      SettleGainsOnly(a, WithPartial(c, a.sha256, f.partial), f.bytes, w, digest);
    }
    assert GainsOnly(c.verified, Obtain(a, c, w, digest).0.verified, a, f.bytes, digest);
  }

  /** The number of chunks in n bytes. */
  function Chunks(n: nat): nat {
    (n + CHUNK_BYTES - 1) / CHUNK_BYTES
  }

  lemma {:induction false} FetchIsBounded(size: nat, w: World, partial: Option<string>, bytes: string, failures: nat,
                                          k: nat)
    requires failures < MAX_ATTEMPTS && |bytes| <= size && (|bytes| == size ==> failures == 0)
    ensures Fetch(size, w, partial, bytes, failures, k).next - k + failures <= MAX_ATTEMPTS * Chunks(size - |bytes|)
    decreases size - |bytes|, MAX_ATTEMPTS - failures
  {
    if |bytes| < size {
      var rest := size - |bytes|;
      var request := Min(rest, CHUNK_BYTES);
      assert Chunks(rest - request) == Chunks(rest) - 1;
      match Answer(w, k, |bytes|, request)
      case Some(chunk) => FetchIsBounded(size, w, Some(bytes + chunk), bytes + chunk, 0, k + 1);
      case None =>
        if failures + 1 < MAX_ATTEMPTS {
          FetchIsBounded(size, w, partial, bytes, failures + 1, k + 1);
        }
    }
  }

  /** A download makes at most three reads per remaining chunk. */
  lemma DownloadIsBounded(a: Artifact, c: Cache, w: World)
    ensures Download(a, c, w).next <= MAX_ATTEMPTS * Chunks(a.size - |StartBytes(c, a)|)
    ensures Download(a, c, w).next <= MAX_ATTEMPTS * Chunks(a.size)
  {
    FetchIsBounded(a.size, w, Partial(c, a.sha256), StartBytes(c, a), 0, 0);
    assert Chunks(a.size - |StartBytes(c, a)|) <= Chunks(a.size);
  }

  /** A digest mismatch drops the partial entry, so the next call reads from offset zero. */
  lemma MismatchRestarts(a: Artifact, c: Cache, w: World, digest: string -> string)
    requires Obtain(a, c, w, digest).1 == Err(DigestMismatch)
    ensures var after := Obtain(a, c, w, digest).0;
      a.sha256 !in after.partial && StartBytes(after, a) == "" && after.verified == c.verified
  {
  }

  // ----- with an honest source

  /** Full-length answers are slices of the content; anything else may happen instead of one. */
  ghost predicate Honest(w: World, content: string) {
    forall k: nat, offset: nat, limit: nat :: Answer(w, k, offset, limit).Some? ==>
      offset + limit <= |content| && Answer(w, k, offset, limit).value == content[offset..offset + limit]
  }

  /**
   A finished entry that would be used is the content, and a partial one is a prefix of it. A corrupt finished
   entry, which fails its size or its digest, is allowed.
   */
  predicate HoldsOnly(c: Cache, a: Artifact, digest: string -> string, content: string) {
    (Hit(c, a, digest) ==> c.verified[a.sha256] == content)
    && (a.sha256 in c.partial ==> c.partial[a.sha256] <= content)
  }

  lemma HonestChunkExtends(content: string, w: World, bytes: string, k: nat, request: nat)
    requires Honest(w, content) && bytes <= content && Answer(w, k, |bytes|, request).Some?
    ensures bytes + Answer(w, k, |bytes|, request).value <= content
  {
    assert bytes + Answer(w, k, |bytes|, request).value == content[..|bytes| + request];
  }

  lemma {:induction false} FetchIsPrefix(content: string, w: World, partial: Option<string>, bytes: string,
                                         failures: nat, k: nat)
    requires Honest(w, content) && failures < MAX_ATTEMPTS
    requires bytes <= content && (partial.Some? ==> partial.value <= content)
    ensures var f := Fetch(|content|, w, partial, bytes, failures, k);
      f.bytes <= content && (f.partial.Some? ==> f.partial.value <= content)
      && (f.status.Complete? ==> f.bytes == content)
    decreases |content| - |bytes|, MAX_ATTEMPTS - failures
  {
    if |bytes| < |content| {
      var request := Min(|content| - |bytes|, CHUNK_BYTES);
      match Answer(w, k, |bytes|, request)
      case Some(chunk) =>
        HonestChunkExtends(content, w, bytes, k, request);
        FetchIsPrefix(content, w, Some(bytes + chunk), bytes + chunk, 0, k + 1);
      case None =>
        if failures + 1 < MAX_ATTEMPTS {
          FetchIsPrefix(content, w, partial, bytes, failures + 1, k + 1);
        }
    }
  }

  /** One call, interrupted or not, keeps the cache to prefixes of the content; its Ok is the content. */
  lemma HonestCall(a: Artifact, c: Cache, w: World, digest: string -> string, content: string)
    requires a.size == |content| && digest(content) == a.sha256
    requires Honest(w, content) && HoldsOnly(c, a, digest, content)
    ensures HoldsOnly(Obtain(a, c, w, digest).0, a, digest, content)
    ensures Obtain(a, c, w, digest).1.Ok? ==> Obtain(a, c, w, digest).1.value == content
    ensures Obtain(a, c, w, digest).1 != Err(DigestMismatch)
  {
    FetchIsPrefix(content, w, Partial(c, a.sha256), StartBytes(c, a), 0, 0);
  }

  function Chain(a: Artifact, c: Cache, worlds: seq<World>, digest: string -> string): Cache
    decreases worlds
  {
    if worlds == [] then c else Chain(a, Obtain(a, c, worlds[0], digest).0, worlds[1..], digest)
  }

  /**
   Any chain of calls against honest sources, each interrupted anywhere, leaves only prefixes of the
   content behind, and a further call that ends in Ok returns the content itself.
   */
  lemma {:induction false} ResumedDownloadIsTheContent(a: Artifact, c: Cache, worlds: seq<World>, last: World,
                                                      digest: string -> string, content: string)
    requires a.size == |content| && digest(content) == a.sha256 && HoldsOnly(c, a, digest, content)
    requires Honest(last, content) && forall i :: 0 <= i < |worlds| ==> Honest(worlds[i], content)
    ensures HoldsOnly(Chain(a, c, worlds, digest), a, digest, content)
    ensures var result := Obtain(a, Chain(a, c, worlds, digest), last, digest).1;
      result.Ok? ==> result.value == content
    decreases worlds
  {
    if worlds == [] {
      HonestCall(a, c, last, digest, content);
    } else {
      HonestCall(a, c, worlds[0], digest, content);
      ResumedDownloadIsTheContent(a, Obtain(a, c, worlds[0], digest).0, worlds[1..], last, digest, content);
    }
  }

  /** The loop gives up only after the same read failed three times running. */
  predicate ThreeFailures(size: nat, w: World, k: nat, offset: nat) {
    Refused(size, w, k, offset) && Refused(size, w, k + 1, offset) && Refused(size, w, k + 2, offset)
  }

  predicate Refused(size: nat, w: World, k: nat, offset: nat) {
    offset < size && Answer(w, k, offset, Min(size - offset, CHUNK_BYTES)).None?
  }

  lemma {:induction false} GivingUpNeedsThreeFailures(size: nat, w: World, partial: Option<string>, bytes: string,
                                                     failures: nat, k: nat)
    requires failures < MAX_ATTEMPTS && failures <= k && |bytes| <= size
    requires |bytes| < size ==> forall j: nat :: k - failures <= j < k ==> Refused(size, w, j, |bytes|)
    ensures var f := Fetch(size, w, partial, bytes, failures, k);
      f.status.GaveUp? ==> f.next >= 3 && ThreeFailures(size, w, f.next - 3, |f.bytes|)
    decreases size - |bytes|, MAX_ATTEMPTS - failures
  {
    if |bytes| < size {
      var request := Min(size - |bytes|, CHUNK_BYTES);
      match Answer(w, k, |bytes|, request)
      case Some(chunk) =>
        if w.store(k).Works? {
          GivingUpNeedsThreeFailures(size, w, Some(bytes + chunk), bytes + chunk, 0, k + 1);
        }
      case None =>
        if failures + 1 < MAX_ATTEMPTS {
          GivingUpNeedsThreeFailures(size, w, partial, bytes, failures + 1, k + 1);
        }
    }
  }

  lemma {:induction false} FetchStoresWhenStoringWorks(size: nat, w: World, partial: Option<string>, bytes: string,
                                                      failures: nat, k: nat)
    requires failures < MAX_ATTEMPTS && forall j :: w.store(j).Works?
    ensures !Fetch(size, w, partial, bytes, failures, k).status.StoreFailed?
    decreases if |bytes| < size then size - |bytes| else 0, MAX_ATTEMPTS - failures
  {
    if |bytes| < size {
      var request := Min(size - |bytes|, CHUNK_BYTES);
      match Answer(w, k, |bytes|, request)
      case Some(chunk) => FetchStoresWhenStoringWorks(size, w, Some(bytes + chunk), bytes + chunk, 0, k + 1);
      case None =>
        if failures + 1 < MAX_ATTEMPTS {
          FetchStoresWhenStoringWorks(size, w, partial, bytes, failures + 1, k + 1);
        }
    }
  }

  ghost predicate CacheWorks(w: World) {
    (forall k :: w.store(k).Works?) && w.insert.Works? && w.clear.Works? && !w.verifierFails
  }

  /** With an honest source and a working cache, the call returns the content exactly when the loop does not give up. */
  lemma HonestCallSucceeds(a: Artifact, c: Cache, w: World, digest: string -> string, content: string)
    requires Acceptable(a) && a.size == |content| && digest(content) == a.sha256
    requires Honest(w, content) && HoldsOnly(c, a, digest, content) && CacheWorks(w)
    ensures Obtain(a, c, w, digest).1 == Ok(content) <==> Hit(c, a, digest) || !Download(a, c, w).status.GaveUp?
    ensures (forall k, offset :: !ThreeFailures(a.size, w, k, offset)) ==> Obtain(a, c, w, digest).1 == Ok(content)
  {
    var p, start := Partial(c, a.sha256), StartBytes(c, a);
    FetchIsPrefix(content, w, p, start, 0, 0);
    FetchStoresWhenStoringWorks(a.size, w, p, start, 0, 0);
    GivingUpNeedsThreeFailures(a.size, w, p, start, 0, 0);
    HonestCall(a, c, w, digest, content);
  }

  /**
   From any cache at all, corrupt partial and finished entries included, an undisturbed call against an honest
   source returns authentic bytes or drops the corrupt partial entry with a mismatch, and after a mismatch the
   next such call returns the content.
   */
  lemma CorruptPartialHeals(a: Artifact, c: Cache, w: World, again: World, digest: string -> string, content: string)
    requires Acceptable(a) && a.size == |content| && digest(content) == a.sha256
    requires Honest(w, content) && CacheWorks(w) && forall k, offset :: !ThreeFailures(a.size, w, k, offset)
    requires Honest(again, content) && CacheWorks(again) && forall k, offset :: !ThreeFailures(a.size, again, k, offset)
    ensures var (after, result) := Obtain(a, c, w, digest);
      (result.Ok? || result == Err(DigestMismatch))
      && (result == Err(DigestMismatch) ==> Obtain(a, after, again, digest).1 == Ok(content))
  {
    var start := StartBytes(c, a);
    FetchStoresWhenStoringWorks(a.size, w, Partial(c, a.sha256), start, 0, 0);
    GivingUpNeedsThreeFailures(a.size, w, Partial(c, a.sha256), start, 0, 0);
    var (after, result) := Obtain(a, c, w, digest);
    if result == Err(DigestMismatch) {
      MismatchRestarts(a, c, w, digest);
      HonestCallSucceeds(a, after, again, digest, content);
    }
  }

  /** A corrupt finished entry is never replaced: no chain of calls changes the finished entries any more. */
  lemma {:induction false} CorruptFinishedEntryStays(a: Artifact, c: Cache, worlds: seq<World>,
                                                     digest: string -> string)
    requires a.sha256 in c.verified && !Hit(c, a, digest)
    ensures Chain(a, c, worlds, digest).verified == c.verified && !Hit(Chain(a, c, worlds, digest), a, digest)
    decreases worlds
  {
    if worlds != [] {
      FinishedEntriesStay(a, c, worlds[0], digest);
      CorruptFinishedEntryStays(a, Obtain(a, c, worlds[0], digest).0, worlds[1..], digest);
    }
  }

  lemma FinishedEntriesStay(a: Artifact, c: Cache, w: World, digest: string -> string)
    requires a.sha256 in c.verified
    ensures Obtain(a, c, w, digest).0.verified == c.verified
  {
  }

  /** After a success the next lookup hits exactly when no corrupt finished entry was in the way. */
  lemma SuccessIsCachedUnlessCorrupt(a: Artifact, c: Cache, w: World, digest: string -> string)
    requires Obtain(a, c, w, digest).1.Ok?
    ensures Hit(Obtain(a, c, w, digest).0, a, digest) <==> a.sha256 !in c.verified || Hit(c, a, digest)
  {
    OkIsAuthentic(a, c, w, digest);
    if a.sha256 in c.verified {
      FinishedEntriesStay(a, c, w, digest);
    }
  }

  // ----- what the next call starts from

  /** The reads a download makes: offset and length of each. */
  function Reads(size: nat, w: World, bytes: string, failures: nat, k: nat): seq<(nat, nat)>
    requires failures < MAX_ATTEMPTS
    decreases if |bytes| < size then size - |bytes| else 0, MAX_ATTEMPTS - failures
  {
    if |bytes| >= size then []
    else
      var request := Min(size - |bytes|, CHUNK_BYTES);
      [(|bytes|, request)]
      + match Answer(w, k, |bytes|, request)
        case Some(chunk) => if w.store(k).Works? then Reads(size, w, bytes + chunk, 0, k + 1) else []
        case None => if failures + 1 < MAX_ATTEMPTS then Reads(size, w, bytes, failures + 1, k + 1) else []
  }

  /** The reads are as many as the loop counts, never go back, and stay within the artifact. */
  lemma {:induction false} ReadsAreForward(size: nat, w: World, partial: Option<string>, bytes: string, failures: nat,
                                           k: nat)
    requires failures < MAX_ATTEMPTS && |bytes| <= size
    ensures var r := Reads(size, w, bytes, failures, k);
      k + |r| == Fetch(size, w, partial, bytes, failures, k).next
      && (forall i :: 0 <= i < |r| ==> |bytes| <= r[i].0 && 0 < r[i].1 <= CHUNK_BYTES && r[i].0 + r[i].1 <= size)
      && (forall i, j :: 0 <= i < j < |r| ==> r[i].0 <= r[j].0)
    decreases size - |bytes|, MAX_ATTEMPTS - failures
  {
    if |bytes| < size {
      var request := Min(size - |bytes|, CHUNK_BYTES);
      match Answer(w, k, |bytes|, request)
      case Some(chunk) =>
        if w.store(k).Works? {
          ReadsAreForward(size, w, Some(bytes + chunk), bytes + chunk, 0, k + 1);
        }
      case None =>
        if failures + 1 < MAX_ATTEMPTS {
          ReadsAreForward(size, w, partial, bytes, failures + 1, k + 1);
        }
    }
  }

  function DownloadReads(a: Artifact, c: Cache, w: World): seq<(nat, nat)> {
    Reads(a.size, w, StartBytes(c, a), 0, 0)
  }

  /**
   A download resumes at the stored length exactly when a partial entry shorter than the artifact is stored;
   in every other case, a complete partial entry included, it reads from offset zero.
   */
  lemma ResumesExactlyShortPartials(a: Artifact, c: Cache, w: World)
    requires Acceptable(a)
    ensures var r := DownloadReads(a, c, w);
      r != []
      && (a.sha256 in c.partial ==> (r[0].0 == |c.partial[a.sha256]| <==> |c.partial[a.sha256]| < a.size))
      && (a.sha256 !in c.partial || |c.partial[a.sha256]| >= a.size ==> r[0].0 == 0)
  {
  }

  /** The call gets past the cache lookup. */
  predicate Downloads(a: Artifact, c: Cache, w: World, digest: string -> string) {
    Acceptable(a) && !Hit(c, a, digest)
    && !(a.sha256 in c.verified && |c.verified[a.sha256]| == a.size && w.verifierFails)
  }

  lemma {:induction false} FetchKeeps(size: nat, w: World, partial: Option<string>, bytes: string, failures: nat,
                                      k: nat)
    requires failures < MAX_ATTEMPTS && |bytes| <= size
    requires if |bytes| < size then Usable(partial, size) == bytes else partial == Some(bytes)
    ensures var f := Fetch(size, w, partial, bytes, failures, k);
      (f.status.GaveUp? ==> Usable(f.partial, size) == f.bytes) && (f.status.Complete? ==> f.partial == Some(f.bytes))
    decreases size - |bytes|, MAX_ATTEMPTS - failures
  {
    if |bytes| < size {
      var request := Min(size - |bytes|, CHUNK_BYTES);
      match Answer(w, k, |bytes|, request)
      case Some(chunk) =>
        if w.store(k).Works? {
          FetchKeeps(size, w, Some(bytes + chunk), bytes + chunk, 0, k + 1);
        }
      case None =>
        if failures + 1 < MAX_ATTEMPTS {
          FetchKeeps(size, w, partial, bytes, failures + 1, k + 1);
        }
    }
  }

  /**
   What a download leaves for the next one: all it holds when it gave up, and nothing once it was complete,
   whether or not the bytes were authentic and whatever failed afterwards.
   */
  lemma OnlyUnfinishedDownloadsResume(a: Artifact, c: Cache, w: World, digest: string -> string)
    requires Downloads(a, c, w, digest)
    ensures var f, after := Download(a, c, w), Obtain(a, c, w, digest).0;
      (f.status.GaveUp? ==> StartBytes(after, a) == f.bytes) && (f.status.Complete? ==> StartBytes(after, a) == "")
    ensures Obtain(a, c, w, digest).1 == Err(VerifiedCacheFailed) ==> StartBytes(Obtain(a, c, w, digest).0, a) == ""
  {
    var p, start := Partial(c, a.sha256), StartBytes(c, a);
    FetchKeeps(a.size, w, p, start, 0, 0);
    FetchShape(a.size, w, p, start, 0, 0);
  }

  /** An undisturbed source of the content over a cache that only fails to insert. */
  function Uninsertable(content: string): World {
    World((k: nat, offset: nat, limit: nat) =>
            if offset + limit <= |content| then Some(content[offset..offset + limit]) else None,
          (k: nat) => Works, FailsBefore, Works, false)
  }

  /**
   For every artifact the witness run: the whole authentic content is on disk as a partial entry, the call
   fails for the insertion alone, and the next download reads from offset zero.
   */
  lemma FailedInsertRefetches(a: Artifact, digest: string -> string, content: string, next: World)
    requires Acceptable(a) && a.size == |content| && digest(content) == a.sha256
    ensures var (after, result) := Obtain(a, Cache(map[], map[]), Uninsertable(content), digest);
      result == Err(VerifiedCacheFailed) && after == Cache(map[], map[a.sha256 := content])
      && DownloadReads(a, after, next)[0].0 == 0
  {
    var c, w := Cache(map[], map[]), Uninsertable(content);
    HonestWhenUninsertable(content);
    FetchIsPrefix(content, w, None, "", 0, 0);
    FetchStoresWhenStoringWorks(a.size, w, None, "", 0, 0);
    GivingUpNeedsThreeFailures(a.size, w, None, "", 0, 0);
    FetchKeeps(a.size, w, None, "", 0, 0);
    ResumesExactlyShortPartials(a, Obtain(a, c, w, digest).0, next);
  }

  lemma HonestWhenUninsertable(content: string)
    ensures Honest(Uninsertable(content), content)
  {
  }

  /** There are acceptable artifacts. */
  lemma SomeArtifactIsAcceptable()
    ensures Acceptable(Artifact(URL_PREFIX + "1/a", 1, seq(64, _ => 'a')))
  {
    var url := URL_PREFIX + "1/a";
    assert url[|URL_PREFIX|..] == "1/a";
    assert ReleasePath("1/a") by {
      assert "1/a"[1] == '/';
    }
    PlainPrefix();
    forall j | 0 <= j < |url|
      ensures url[j] != '?' && url[j] != '#' && url[j] != '%'
    {
      assert j >= |URL_PREFIX| ==> url[j] == "1/a"[j - |URL_PREFIX|];
    }
  }

  lemma PlainJoin(a: string, b: string)
    requires Plain(a) && Plain(b)
    ensures Plain(a + b)
  {
  }

  lemma PlainPrefix()
    ensures Plain(URL_PREFIX)
  {
    PlainJoin("martin-beck/asb-tui/", "releases/download/");
    PlainJoin("https://github.com/", "martin-beck/asb-tui/" + "releases/download/");
    PlainJoin(RELEASES, "v");
  }
}
