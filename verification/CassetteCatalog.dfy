/**
 The two replay catalogs a campaign may choose a cassette from: the compatible choices of one agent, and
 the authenticated catalog of one recording campaign.
 */
module CassetteCatalog {
  import opened Results
  import opened StringOrder
  import opened TextRules

  const MAX_ENTRIES: nat := 256

  datatype ReplayChoice = ReplayChoice(id: string, sha: string)

  datatype ReplayCatalog = ReplayCatalog(profile: string, agent: string, compatible: seq<ReplayChoice>)

  datatype CassetteEntry = CassetteEntry(id: string, sha: string, profile: string, agent: string, workload: string,
                                         scorer: string)

  datatype CassetteCatalog = CassetteCatalog(runner: string, generation: nat, campaign: string,
                                             entries: seq<CassetteEntry>)

  // ----- searching

  function FindChoice(choices: seq<ReplayChoice>, sha: string): Option<ReplayChoice> {
    if choices == [] then None
    else if choices[0].sha == sha then Some(choices[0])
    else FindChoice(choices[1..], sha)
  }

  predicate Matches(e: CassetteEntry, agent: string, workload: string, sha: string, profile: string) {
    e.agent == agent && e.workload == workload && e.sha == sha && e.profile == profile
  }

  function FindEntry(entries: seq<CassetteEntry>, agent: string, workload: string, sha: string, profile: string)
    : Option<CassetteEntry>
  {
    if entries == [] then None
    else if Matches(entries[0], agent, workload, sha, profile) then Some(entries[0])
    else FindEntry(entries[1..], agent, workload, sha, profile)
  }

  lemma {:induction false} FoundEntryMatches(entries: seq<CassetteEntry>, agent: string, workload: string, sha: string,
                                            profile: string)
    ensures var e := FindEntry(entries, agent, workload, sha, profile);
      if e.Some? then e.value in entries && Matches(e.value, agent, workload, sha, profile)
      else forall i :: 0 <= i < |entries| ==> !Matches(entries[i], agent, workload, sha, profile)
  {
    if entries != [] && !Matches(entries[0], agent, workload, sha, profile) {
      FoundEntryMatches(entries[1..], agent, workload, sha, profile);
      forall i | 0 <= i < |entries|
        ensures i > 0 ==> entries[i] == entries[1..][i - 1]
      {
      }
    }
  }

  // ----- the authenticated catalog

  /** The key entries are ordered by. */
  predicate KeyLess(a: CassetteEntry, b: CassetteEntry) {
    Less(a.agent, b.agent)
    || (a.agent == b.agent && (Less(a.workload, b.workload) || (a.workload == b.workload && Less(a.sha, b.sha))))
  }

  predicate SameKey(a: CassetteEntry, b: CassetteEntry) {
    a.agent == b.agent && a.workload == b.workload && a.sha == b.sha
  }

  lemma KeyLessIsStrictOrder(a: CassetteEntry, b: CassetteEntry, c: CassetteEntry)
    ensures KeyLess(a, b) && KeyLess(b, c) ==> KeyLess(a, c)
    ensures KeyLess(a, b) ==> !SameKey(a, b)
  {
    LessIsTotal(a.agent, b.agent);
    LessIsTotal(a.workload, b.workload);
    LessIsTotal(a.sha, b.sha);
    if KeyLess(a, b) && KeyLess(b, c) {
      if Less(a.agent, b.agent) && Less(b.agent, c.agent) {
        LessIsTransitive(a.agent, b.agent, c.agent);
      }
      if Less(a.workload, b.workload) && Less(b.workload, c.workload) {
        LessIsTransitive(a.workload, b.workload, c.workload);
      }
      if Less(a.sha, b.sha) && Less(b.sha, c.sha) {
        LessIsTransitive(a.sha, b.sha, c.sha);
      }
    }
  }

  predicate AscendingKeys(entries: seq<CassetteEntry>) {
    forall i :: 0 < i < |entries| ==> KeyLess(entries[i - 1], entries[i])
  }

  lemma {:induction false} KeysOrderAll(entries: seq<CassetteEntry>, i: nat, j: nat)
    requires AscendingKeys(entries) && i < j < |entries|
    ensures KeyLess(entries[i], entries[j])
  {
    if i < j - 1 {
      KeysOrderAll(entries, i, j - 1);
      KeyLessIsStrictOrder(entries[i], entries[j - 1], entries[j]);
    }
  }

  predicate ValidCassette(e: CassetteEntry) {
    IsIdentifier(e.id) && IsDigest(e.sha) && IsDigest(e.profile) && IsIdentifier(e.agent) && IsIdentifier(e.workload)
    && IsIdentifier(e.scorer)
  }

  /** No two entries share agent, workload and cassette digest. */
  predicate OneEntryPerKey(entries: seq<CassetteEntry>) {
    forall i, j :: 0 <= i < |entries| && 0 <= j < |entries| && SameKey(entries[i], entries[j]) ==> i == j
  }

  predicate Authenticated(c: CassetteCatalog) {
    c.generation != 0 && IsIdentifier(c.runner) && IsIdentifier(c.campaign) && 0 < |c.entries| <= MAX_ENTRIES
    && (forall i :: 0 <= i < |c.entries| ==> ValidCassette(c.entries[i])) && AscendingKeys(c.entries)
  }

  /** `try_from`: bounds, every entry, then every adjacent pair of keys. */
  method Authenticate(received: CassetteCatalog) returns (catalog: Option<CassetteCatalog>)
    ensures catalog == if Authenticated(received) then Some(received) else None
    ensures catalog.Some? ==> OneEntryPerKey(catalog.value.entries)
  {
    if received.generation == 0 || !IsIdentifier(received.runner) || !IsIdentifier(received.campaign)
       || received.entries == [] || |received.entries| > MAX_ENTRIES {
      return None;
    }
    var entries: seq<CassetteEntry> := [];
    for i := 0 to |received.entries|
      invariant entries == received.entries[..i]
      invariant forall j :: 0 <= j < i ==> ValidCassette(received.entries[j])
    {
      var e := received.entries[i];
      if !ValidCassette(e) {
        return None;
      }
      entries := entries + [CassetteEntry(e.id, e.sha, e.profile, e.agent, e.workload, e.scorer)];
    }
    for i := 1 to |entries|
      invariant forall j :: 0 < j < i ==> KeyLess(entries[j - 1], entries[j])
    {
      if !KeyLess(entries[i - 1], entries[i]) {
        return None;
      }
    }
    assert entries == received.entries;
    AscendingKeysAreUnique(entries);
    return Some(CassetteCatalog(received.runner, received.generation, received.campaign, entries));
  }

  lemma AscendingKeysAreUnique(entries: seq<CassetteEntry>)
    requires AscendingKeys(entries)
    ensures OneEntryPerKey(entries)
  {
    forall i, j | 0 <= i < j < |entries|
      ensures !SameKey(entries[i], entries[j]) && !SameKey(entries[j], entries[i])
    {
      KeysOrderAll(entries, i, j);
      KeyLessIsStrictOrder(entries[i], entries[j], entries[j]);
    }
  }

  // ----- the choices of one agent

  predicate AtMost(a: ReplayChoice, b: ReplayChoice) {
    Less(a.id, b.id) || (a.id == b.id && (Less(a.sha, b.sha) || a.sha == b.sha))
  }

  lemma AtMostIsTotalOrder(a: ReplayChoice, b: ReplayChoice, c: ReplayChoice)
    ensures AtMost(a, b) || AtMost(b, a)
    ensures AtMost(a, b) && AtMost(b, a) ==> a == b
    ensures AtMost(a, b) && AtMost(b, c) ==> AtMost(a, c)
  {
    LessIsTotal(a.id, b.id);
    LessIsTotal(a.sha, b.sha);
    if Less(a.id, b.id) && Less(b.id, c.id) {
      LessIsTransitive(a.id, b.id, c.id);
    }
    if Less(a.sha, b.sha) && Less(b.sha, c.sha) {
      LessIsTransitive(a.sha, b.sha, c.sha);
    }
  }

  predicate Ascending(choices: seq<ReplayChoice>) {
    forall i, j :: 0 <= i < j < |choices| ==> AtMost(choices[i], choices[j])
  }

  function InsertChoice(sorted: seq<ReplayChoice>, x: ReplayChoice): seq<ReplayChoice> {
    if sorted == [] || AtMost(x, sorted[0]) then [x] + sorted else [sorted[0]] + InsertChoice(sorted[1..], x)
  }

  /** The list `sort` leaves. */
  function SortChoices(choices: seq<ReplayChoice>): seq<ReplayChoice> {
    if choices == [] then [] else InsertChoice(SortChoices(choices[1..]), choices[0])
  }

  lemma AscendingFrom(x: ReplayChoice, s: seq<ReplayChoice>)
    requires Ascending(s) && forall c :: c in multiset(s) ==> AtMost(x, c)
    ensures Ascending([x] + s) && multiset([x] + s) == multiset{x} + multiset(s)
  {
    forall j | 0 <= j < |s|
      ensures AtMost(x, s[j])
    {
      assert s[j] in multiset(s);
    }
  }

  lemma {:induction false} InsertedChoice(sorted: seq<ReplayChoice>, x: ReplayChoice)
    requires Ascending(sorted)
    ensures Ascending(InsertChoice(sorted, x))
    ensures multiset(InsertChoice(sorted, x)) == multiset(sorted) + multiset{x}
  {
    if sorted == [] || AtMost(x, sorted[0]) {
      forall c | c in multiset(sorted)
        ensures AtMost(x, c)
      {
        var j :| 0 <= j < |sorted| && sorted[j] == c;
        AtMostIsTotalOrder(x, sorted[0], c);
        AtMostIsTotalOrder(c, c, c);
      }
      AscendingFrom(x, sorted);
    } else {
      var rest := sorted[1..];
      assert sorted == [sorted[0]] + rest;
      InsertedChoice(rest, x);
      AtMostIsTotalOrder(sorted[0], x, x);
      AscendingFrom(sorted[0], InsertChoice(rest, x));
    }
  }

  lemma {:induction false} SortedChoices(choices: seq<ReplayChoice>)
    ensures Ascending(SortChoices(choices)) && multiset(SortChoices(choices)) == multiset(choices)
  {
    if choices != [] {
      SortedChoices(choices[1..]);
      InsertedChoice(SortChoices(choices[1..]), choices[0]);
      assert choices == [choices[0]] + choices[1..];
    }
  }

  predicate ValidChoice(c: ReplayChoice) {
    IsIdentifier(c.id) && IsDigest(c.sha)
  }

  /** No choice occurs twice, and each is well formed. */
  predicate DistinctValid(choices: multiset<ReplayChoice>) {
    forall c :: c in choices ==> choices[c] == 1 && ValidChoice(c)
  }

  /** `ReplayCatalog::new`: sort, refuse equal neighbours and malformed choices. */
  method NewReplayCatalog(profile: string, agent: string, compatible: seq<ReplayChoice>)
    returns (catalog: Option<ReplayCatalog>)
    ensures catalog.Some? <==> IsDigest(profile) && IsIdentifier(agent) && DistinctValid(multiset(compatible))
    ensures catalog.Some? ==>
              catalog.value.profile == profile && catalog.value.agent == agent && Ascending(catalog.value.compatible)
              && multiset(catalog.value.compatible) == multiset(compatible)
  {
    if !IsDigest(profile) || !IsIdentifier(agent) {
      return None;
    }
    var sorted := SortChoices(compatible);
    SortedChoices(compatible);
    var n := 1;
    while n < |sorted|
      invariant 1 <= n
      invariant forall j :: 0 < j < n && j < |sorted| ==> sorted[j - 1] != sorted[j]
    {
      if sorted[n - 1] == sorted[n] {
        EqualNeighboursRepeat(sorted, n);
        return None;
      }
      n := n + 1;
    }
    for i := 0 to |sorted|
      invariant forall j :: 0 <= j < i ==> ValidChoice(sorted[j])
    {
      if !ValidChoice(sorted[i]) {
        assert sorted[i] in multiset(sorted);
        return None;
      }
    }
    AscendingWithoutRepeats(sorted);
    return Some(ReplayCatalog(profile, agent, sorted));
  }

  lemma EqualNeighboursRepeat(s: seq<ReplayChoice>, i: nat)
    requires 0 < i < |s| && s[i - 1] == s[i]
    ensures s[i] in multiset(s) && multiset(s)[s[i]] > 1
  {
    assert s == s[..i - 1] + [s[i], s[i]] + s[i + 1..];
  }

  lemma {:induction false} AscendingWithoutRepeats(s: seq<ReplayChoice>)
    requires Ascending(s) && (forall j :: 0 < j < |s| ==> s[j - 1] != s[j])
    requires forall j :: 0 <= j < |s| ==> ValidChoice(s[j])
    ensures DistinctValid(multiset(s))
  {
    if s != [] {
      var first, rest := s[0], s[1..];
      assert s == [first] + rest;
      AscendingWithoutRepeats(rest);
      forall j | 0 <= j < |rest|
        ensures rest[j] != first
      {
        AtMostIsTotalOrder(first, s[1], rest[j]);
        AtMostIsTotalOrder(s[1], rest[j], rest[j]);
      }
      assert first !in rest;
    }
  }

  /** Searching a sorted list by digest alone finds the least cassette id recorded under it. */
  lemma {:induction false} FoundChoiceIsLeast(choices: seq<ReplayChoice>, sha: string)
    requires Ascending(choices)
    ensures var c := FindChoice(choices, sha);
      if c.Some? then c.value in choices && c.value.sha == sha
                      && forall d :: d in choices && d.sha == sha ==> AtMost(c.value, d)
      else forall d :: d in choices ==> d.sha != sha
  {
    if choices != [] {
      if choices[0].sha == sha {
        AtMostIsTotalOrder(choices[0], choices[0], choices[0]);
      } else {
        FoundChoiceIsLeast(choices[1..], sha);
        assert forall d :: d in choices <==> d == choices[0] || d in choices[1..];
      }
    }
  }
}
