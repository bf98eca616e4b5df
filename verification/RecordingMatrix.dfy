/**
 The recording matrix: a campaign runs every selected agent on every selected workload, and its
 validators recount the pairs and cross-check the claim of offline readiness.
 */
module RecordingMatrix {
  import opened Results
  import opened Numbers
  import opened StringOrder
  import opened TextRules

  const MAX_IDS: nat := 32
  const USIZE_MAX: nat := 0xFFFF_FFFF_FFFF_FFFF

  datatype Matrix = Matrix(runner: string, generation: nat, campaign: string, provider: string, model: string,
                           agents: seq<string>, workloads: seq<string>, tupleCount: u16)

  datatype Plan = Plan(matrix: Matrix, state: string, offlineReady: bool, reason: Option<string>)

  datatype Lifecycle = Lifecycle(matrix: Matrix, coveredTupleCount: u16, state: string, offlineReady: bool,
                                 reason: Option<string>)

  datatype CampaignStatus = CampaignStatus(runner: string, generation: nat, campaign: Option<Lifecycle>)

  datatype Estimate = Estimate(runner: string, generation: nat, tupleCount: u16, completeCoverage: bool,
                               offlineReady: bool, reason: Option<string>)

  // ----- identifier lists

  predicate SortedIds(values: seq<string>) {
    0 < |values| <= MAX_IDS && AscendingNeighbours(values) && forall i :: 0 <= i < |values| ==> IsSafeId(values[i])
  }

  /** `validate_sorted_ids`: every value, then every adjacent pair. */
  method ValidateSortedIds(values: seq<string>) returns (ok: bool)
    ensures ok <==> SortedIds(values)
    ensures ok ==> Distinct(values)
  {
    if values == [] || |values| > MAX_IDS {
      return false;
    }
    for i := 0 to |values|
      invariant forall j :: 0 <= j < i ==> IsSafeId(values[j])
    {
      if !IsSafeId(values[i]) {
        return false;
      }
    }
    for i := 1 to |values|
      invariant forall j :: 0 < j < i ==> Less(values[j - 1], values[j])
    {
      if !Less(values[i - 1], values[i]) {
        return false;
      }
    }
    AscendingIsDistinct(values);
    return true;
  }

  // ----- the pairs

  /** The distinct (agent, workload) pairs. */
  function Pairs(agents: seq<string>, workloads: seq<string>): set<(string, string)> {
    set a, w | a in agents && w in workloads :: (a, w)
  }

  lemma {:induction false} RowSize(agent: string, workloads: seq<string>)
    requires Distinct(workloads)
    ensures |Pairs([agent], workloads)| == |workloads|
  {
    if workloads == [] {
      assert Pairs([agent], workloads) == {};
    } else {
      var rest := workloads[1..];
      DistinctTail(workloads);
      RowSize(agent, rest);
      assert (agent, workloads[0]) !in Pairs([agent], rest);
      assert Pairs([agent], workloads) == Pairs([agent], rest) + {(agent, workloads[0])};
    }
  }

  /** The first agent's row is disjoint from the others when its name is new. */
  lemma RowsAreDisjoint(agent: string, rest: seq<string>, workloads: seq<string>)
    requires agent !in rest
    ensures |Pairs([agent] + rest, workloads)| == |Pairs([agent], workloads)| + |Pairs(rest, workloads)|
  {
    var row, others := Pairs([agent], workloads), Pairs(rest, workloads);
    assert row !! others;
    assert Pairs([agent] + rest, workloads) == row + others;
  }

  lemma {:induction false} PairCount(agents: seq<string>, workloads: seq<string>)
    requires Distinct(agents) && Distinct(workloads)
    ensures |Pairs(agents, workloads)| == |agents| * |workloads|
  {
    if agents == [] {
      NoRows(workloads);
    } else {
      var rest := agents[1..];
      DistinctTail(agents);
      RowsAreDisjoint(agents[0], rest, workloads);
      RowSize(agents[0], workloads);
      PairCount(rest, workloads);
      OneMoreRow(|agents|, |workloads|, |Pairs(rest, workloads)|, |Pairs(agents, workloads)|);
    }
  }

  lemma NoRows(workloads: seq<string>)
    ensures Pairs([], workloads) == {}
  {
  }

  /** The only multiplication step, on plain numbers. */
  lemma OneMoreRow(rows: nat, width: nat, before: nat, after: nat)
    requires rows > 0 && before == (rows - 1) * width && after == width + before
    ensures after == rows * width
  {
  }

  function SaturatingMul(a: nat, b: nat): nat {
    if a * b > USIZE_MAX then USIZE_MAX else a * b
  }

  /** The product of two bounded lists neither saturates nor overflows its 16-bit field. */
  lemma TupleCountIsExact(agents: seq<string>, workloads: seq<string>)
    requires SortedIds(agents) && SortedIds(workloads)
    ensures SaturatingMul(|agents|, |workloads|) == |Pairs(agents, workloads)|
    ensures 0 < |Pairs(agents, workloads)| <= MAX_IDS * MAX_IDS < U16_LIMIT
  {
    AscendingIsDistinct(agents);
    AscendingIsDistinct(workloads);
    PairCount(agents, workloads);
    var m, n := |agents|, |workloads|;
    assert 1 * 1 <= m * n <= MAX_IDS * n <= MAX_IDS * MAX_IDS;
  }

  // ----- validators

  predicate WellNamed(m: Matrix) {
    IsSafeId(m.runner) && IsSafeId(m.campaign) && SortedIds(m.agents) && SortedIds(m.workloads)
  }

  /** The count a matrix claims is the number of its distinct pairs. */
  ghost predicate CountsItsPairs(m: Matrix) {
    m.tupleCount == |Pairs(m.agents, m.workloads)|
  }

  /** `validate_campaign_plan`. */
  method ValidatePlan(p: Plan) returns (ok: bool)
    ensures ok <==>
            WellNamed(p.matrix) && IsSafeId(p.matrix.provider) && IsSafeId(p.matrix.model) && p.matrix.generation != 0
            && CountsItsPairs(p.matrix) && p.state == "planned" && !p.offlineReady
            && p.reason == Some("recording-required")
  {
    var m := p.matrix;
    if !IsSafeId(m.runner) || !IsSafeId(m.campaign) || !IsSafeId(m.provider) || !IsSafeId(m.model) {
      return false;
    }
    var agents := ValidateSortedIds(m.agents);
    var workloads := ValidateSortedIds(m.workloads);
    if !agents || !workloads {
      return false;
    }
    TupleCountIsExact(m.agents, m.workloads);
    var tuples := SaturatingMul(|m.agents|, |m.workloads|);
    ok := !(m.generation == 0 || m.tupleCount != tuples || p.state != "planned" || p.offlineReady
            || p.reason != Some("recording-required"));
  }

  predicate KnownState(s: string) {
    s == "planned" || s == "recording" || s == "needs_reconciliation" || s == "complete" || s == "cancelled"
    || s == "failed"
  }

  ghost predicate ValidLifecycle(l: Lifecycle) {
    WellNamed(l.matrix) && IsCatalogString(l.matrix.provider) && IsCatalogString(l.matrix.model)
    && l.matrix.generation != 0
    && CountsItsPairs(l.matrix) && l.coveredTupleCount <= l.matrix.tupleCount && KnownState(l.state)
    && (l.offlineReady <==> l.state == "complete" && l.coveredTupleCount == l.matrix.tupleCount)
    && (l.offlineReady <==> l.reason.None?)
    && (l.reason.Some? ==> IsCatalogString(l.reason.value))
  }

  /** `validate_campaign_lifecycle`. */
  method ValidateLifecycle(l: Lifecycle) returns (ok: bool)
    ensures ok <==> ValidLifecycle(l)
  {
    var m := l.matrix;
    if !IsSafeId(m.runner) || !IsSafeId(m.campaign) || !IsCatalogString(m.provider) || !IsCatalogString(m.model) {
      return false;
    }
    var agents := ValidateSortedIds(m.agents);
    var workloads := ValidateSortedIds(m.workloads);
    if !agents || !workloads {
      return false;
    }
    TupleCountIsExact(m.agents, m.workloads);
    var tuples := SaturatingMul(|m.agents|, |m.workloads|);
    if m.generation == 0 || m.tupleCount != tuples || l.coveredTupleCount > m.tupleCount || !KnownState(l.state)
       || l.offlineReady != (l.state == "complete" && l.coveredTupleCount == m.tupleCount)
       || l.offlineReady != l.reason.None? || (!l.offlineReady && l.reason.None?) {
      return false;
    }
    ok := l.reason.Some? ==> IsCatalogString(l.reason.value);
  }

  /** `validate_campaign_status`: the campaign, if there is one, belongs to this runner and generation. */
  method ValidateStatus(s: CampaignStatus) returns (ok: bool)
    ensures ok <==>
            IsSafeId(s.runner) && s.generation != 0
            && (s.campaign.Some? ==>
                  ValidLifecycle(s.campaign.value) && s.campaign.value.matrix.runner == s.runner
                  && s.campaign.value.matrix.generation == s.generation)
  {
    if !IsSafeId(s.runner) || s.generation == 0 {
      return false;
    }
    match s.campaign {
      case None => return true;
      case Some(l) =>
        var valid := ValidateLifecycle(l);
        return valid && l.matrix.runner == s.runner && l.matrix.generation == s.generation;
    }
  }

  /** `validate_campaign_estimate`. */
  method ValidateEstimate(e: Estimate) returns (ok: bool)
    ensures ok <==>
            IsSafeId(e.runner) && e.generation != 0 && e.tupleCount != 0
            && (e.offlineReady <==> e.reason.None?) && (e.offlineReady ==> e.completeCoverage)
            && (e.reason.Some? ==> IsCatalogString(e.reason.value))
  {
    if !IsSafeId(e.runner) || e.generation == 0 || e.tupleCount == 0 {
      return false;
    }
    if e.offlineReady && (!e.completeCoverage || e.reason.Some?) {
      return false;
    }
    if !e.offlineReady && e.reason.None? {
      return false;
    }
    ok := e.reason.Some? ==> IsCatalogString(e.reason.value);
  }

  /**
   A validated campaign whose covered pairs are counted truthfully is offline-ready exactly when it is
   complete and no pair is left uncovered.
   */
  lemma OfflineReadyMeansCovered(l: Lifecycle, covered: set<(string, string)>)
    requires ValidLifecycle(l)
    requires covered <= Pairs(l.matrix.agents, l.matrix.workloads) && |covered| == l.coveredTupleCount
    ensures l.offlineReady <==> l.state == "complete" && covered == Pairs(l.matrix.agents, l.matrix.workloads)
    ensures l.offlineReady ==>
              forall a, w :: a in l.matrix.agents && w in l.matrix.workloads ==> (a, w) in covered
  {
    var all := Pairs(l.matrix.agents, l.matrix.workloads);
    var missing := all - covered;
    assert all == covered + missing && covered !! missing;
    assert |all| == |covered| + |missing|;
  }
}
