/**
 One poll of the runner: the bootstrap reads, a status read for every available agent, the setup reads, and
 an authentication read, each validated against its request, built up on a copy of the projection.
 The peer's answers, every field validator and the rest of the projection are arbitrary.
 */
module ControlPoll {
  import opened Results
  import opened Numbers
  import opened AgentCatalog

  const AUTH_REQUEST_ID: nat := 9_000_000_104
  const FIRST_ID: nat := 2

  datatype Call =
    | Capabilities | BenchmarkCatalog | MeasurementCatalog | History | ReadAgentCatalog | AgentStatus(agent: string)
    | ProviderCatalog | ConfigurationStatus | RecordingCampaignStatus | AuthStatus(provider: string)

  datatype Request = Request(id: nat, call: Call)

  datatype Body =
    | OfNegotiation | OfCapabilities | OfBenchmark | OfMeasurement | OfHistory | OfAgents(catalog: Catalog)
    | OfLifecycle | OfProviders | OfDynamicProviders | OfConfiguration(provider: Option<string>) | OfCampaignStatus
    | OfAuth | OfOther

  datatype Response = Success(id: nat, body: Body) | Failure(id: nat, code: int)

  datatype PollError = Io | Codec | NotNegotiated | RemoteFailure | BadProjection

  datatype Auth = Unread | Read | NoAuth(developmentOnly: bool)

  /** The fields a poll reads back, and everything else. */
  datatype Projection<O> = Projection(minor: Option<nat>, agents: Option<Catalog>, provider: Option<string>, auth: Auth,
                                      other: O)

  /** The answer to the k-th request, the validators, and how the rest of the projection takes a response. */
  datatype World<!O> = World(answer: (nat, Request) -> Option<Response>, admits: Request -> bool,
                             accepts: Response -> bool, absorb: (O, Request, Response) -> Option<O>)

  function MinimumMinor(call: Call): nat {
    match call
    case MeasurementCatalog => 2
    case ReadAgentCatalog => 4
    case AgentStatus(_) => 5
    case AuthStatus(_) => 6
    case ProviderCatalog => 7
    case ConfigurationStatus => 7
    case RecordingCampaignStatus => 7
    case BenchmarkCatalog => 10
    case _ => 0
  }

  /** Which result kinds answer which call. */
  predicate Answers(call: Call, body: Body) {
    match call
    case Capabilities => body.OfCapabilities?
    case BenchmarkCatalog => body.OfBenchmark?
    case MeasurementCatalog => body.OfMeasurement?
    case History => body.OfHistory?
    case ReadAgentCatalog => body.OfAgents?
    case AgentStatus(_) => body.OfLifecycle?
    case ProviderCatalog => body.OfProviders? || body.OfDynamicProviders?
    case ConfigurationStatus => body.OfConfiguration?
    case RecordingCampaignStatus => body.OfCampaignStatus?
    case AuthStatus(_) => body.OfAuth?
  }

  // ----- one exchange

  predicate ValidFor<O>(w: World<O>, req: Request, resp: Response) {
    w.accepts(resp) && resp.id == req.id
    && (resp.Success? && !resp.body.OfNegotiation? ==> Answers(req.call, resp.body))
  }

  /** A request leaves only if it validates and the negotiated version has its operation. */
  predicate Leaves<O>(w: World<O>, minor: nat, req: Request) {
    w.admits(req) && MinimumMinor(req.call) <= minor
  }

  function Exchange<O>(w: World<O>, minor: nat, k: nat, req: Request): Result<Response, PollError> {
    if !w.admits(req) then Err(Codec)
    else if MinimumMinor(req.call) > minor then Err(NotNegotiated)
    else
      match w.answer(k, req)
      case None => Err(Io)
      case Some(resp) =>
        if !ValidFor(w, req, resp) then Err(Codec)
        else if resp.Success? && resp.body.OfDynamicProviders? && minor < 15 then Err(NotNegotiated)
        else Ok(resp)
  }

  /** `ControlProjection::apply`: a failure response changes nothing. */
  function Apply<O>(w: World<O>, p: Projection<O>, req: Request, resp: Response): Option<Projection<O>> {
    if !ValidFor(w, req, resp) then None
    else if resp.Failure? then Some(p)
    else if p.minor.None? || resp.body.OfNegotiation? || MinimumMinor(req.call) > p.minor.value then None
    else
      match w.absorb(p.other, req, resp)
      case None => None
      case Some(other) =>
        match resp.body
        case OfAgents(c) => Some(p.(agents := Some(c), other := other))
        case OfConfiguration(provider) => Some(p.(provider := provider, other := other))
        case OfAuth => Some(p.(auth := Read, other := other))
        case _ => Some(p.(other := other))
  }

  /** What has been sent, the copy being built, and what went wrong. */
  datatype Progress<O> = Progress(sent: seq<Request>, projection: Projection<O>, error: Option<PollError>)

  function Sending<O>(w: World<O>, minor: nat, pr: Progress<O>, req: Request): seq<Request> {
    if Leaves(w, minor, req) then pr.sent + [req] else pr.sent
  }

  function Step<O>(w: World<O>, minor: nat, pr: Progress<O>, req: Request): Progress<O> {
    var sent := Sending(w, minor, pr, req);
    match Exchange(w, minor, |pr.sent|, req)
    case Err(error) => Progress(sent, pr.projection, Some(error))
    case Ok(resp) =>
      if resp.Failure? then Progress(sent, pr.projection, Some(RemoteFailure))
      else
        match Apply(w, pr.projection, req, resp)
        case None => Progress(sent, pr.projection, Some(BadProjection))
        case Some(next) => Progress(sent, next, None)
  }

  /** The authentication read tolerates a failure response, and two codes mean that there is nothing to read. */
  function AuthStep<O>(w: World<O>, minor: nat, pr: Progress<O>, req: Request, development: bool): Progress<O> {
    var sent := Sending(w, minor, pr, req);
    match Exchange(w, minor, |pr.sent|, req)
    case Err(error) => Progress(sent, pr.projection, Some(error))
    case Ok(resp) =>
      if resp.Failure? && (resp.code == -33_007 || resp.code == -33_009) then
        Progress(sent, pr.projection.(auth := NoAuth(development)), None)
      else
        match Apply(w, pr.projection, req, resp)
        case None => Progress(sent, pr.projection, Some(BadProjection))
        case Some(next) => Progress(sent, next, None)
  }

  /** Requests in order, stopping at the first error. */
  function Drive<O>(w: World<O>, minor: nat, pr: Progress<O>, reqs: seq<Request>): Progress<O>
    decreases reqs
  {
    if pr.error.Some? || reqs == [] then pr else Drive(w, minor, Step(w, minor, pr, reqs[0]), reqs[1..])
  }

  // ----- the requests of a poll

  function Bootstrap(minor: nat): seq<Call> {
    [Capabilities] + (if minor >= 10 then [BenchmarkCatalog] else [])
    + (if minor >= 2 then [MeasurementCatalog] else [])
    + [History] + (if minor >= 4 then [ReadAgentCatalog] else [])
  }

  const SETUP: seq<Call> := [ProviderCatalog, ConfigurationStatus, RecordingCampaignStatus]

  function Numbered(base: nat, calls: seq<Call>): (reqs: seq<Request>)
    ensures |reqs| == |calls| && forall i :: 0 <= i < |calls| ==> reqs[i] == Request(base + i, calls[i])
  {
    seq(|calls|, i requires 0 <= i < |calls| => Request(base + i, calls[i]))
  }

  /** A status request for every available agent from the i-th on, numbered by its place in the catalog. */
  function Statuses(base: nat, agents: seq<Entry>, i: nat): seq<Request>
    requires i <= |agents|
    decreases |agents| - i
  {
    if i == |agents| then []
    else if agents[i].availability.Unavailable? then Statuses(base, agents, i + 1)
    else [Request(base + i, AgentStatus(agents[i].agentId))] + Statuses(base, agents, i + 1)
  }

  function StatusBase(minor: nat): nat {
    FIRST_ID + |Bootstrap(minor)|
  }

  function StatusPart(minor: nat, agents: Option<Catalog>): seq<Request> {
    if minor >= 5 && agents.Some? then Statuses(StatusBase(minor), agents.value.agents, 0) else []
  }

  function SetupPart(minor: nat, agents: Option<Catalog>): seq<Request> {
    if minor >= 7 && agents.Some? then Numbered(StatusBase(minor) + |agents.value.agents|, SETUP) else []
  }

  function AuthPart(minor: nat, provider: Option<string>): seq<Request> {
    if minor >= 6 && provider.Some? then [Request(AUTH_REQUEST_ID, AuthStatus(provider.value))] else []
  }

  /** Everything a poll asks, given the catalog and the provider it learns on the way. */
  function Plan(minor: nat, agents: Option<Catalog>, provider: Option<string>): seq<Request> {
    Numbered(FIRST_ID, Bootstrap(minor)) + StatusPart(minor, agents) + SetupPart(minor, agents)
    + AuthPart(minor, provider)
  }

  // ----- the poll

  function Started<O>(minor: nat, p: Projection<O>): Progress<O> {
    Progress([], p.(minor := Some(minor)), None)
  }

  function AfterBootstrap<O>(w: World<O>, minor: nat, p: Projection<O>): Progress<O> {
    Drive(w, minor, Started(minor, p), Numbered(FIRST_ID, Bootstrap(minor)))
  }

  function AfterStatuses<O>(w: World<O>, minor: nat, p: Projection<O>): Progress<O> {
    var pr := AfterBootstrap(w, minor, p);
    Drive(w, minor, pr, StatusPart(minor, pr.projection.agents))
  }

  function AfterSetup<O>(w: World<O>, minor: nat, p: Projection<O>): Progress<O> {
    var pr := AfterStatuses(w, minor, p);
    if pr.error.None? && minor >= 7 && pr.projection.agents.None? then pr.(error := Some(Io))
    else Drive(w, minor, pr, SetupPart(minor, pr.projection.agents))
  }

  function Poll<O>(w: World<O>, minor: nat, p: Projection<O>, development: bool): Progress<O> {
    var pr := AfterSetup(w, minor, p);
    var auth := AuthPart(minor, pr.projection.provider);
    if pr.error.Some? || auth == [] then pr else AuthStep(w, minor, pr, auth[0], development)
  }

  class Screen<O> {
    var projection: Projection<O>

    constructor (p: Projection<O>)
      ensures projection == p
    {
      projection := p;
    }
  }

  /** One session at a negotiated minor version, with the requests its poll has sent. */
  class Session<!O(0)> {
    const world: World<O>
    const minor: nat
    var sent: seq<Request>

    constructor (w: World<O>, minor: nat)
      ensures world == w && this.minor == minor && sent == []
    {
      world := w;
      this.minor := minor;
      sent := [];
    }

    method RoundTrip(req: Request) returns (r: Result<Response, PollError>)
      modifies this
      ensures r == Exchange(world, minor, old(|sent|), req)
      ensures sent == if Leaves(world, minor, req) then old(sent) + [req] else old(sent)
    {
      if !world.admits(req) {
        return Err(Codec);
      }
      if MinimumMinor(req.call) > minor {
        return Err(NotNegotiated);
      }
      sent := sent + [req];
      var answer := world.answer(|sent| - 1, req);
      if answer.None? {
        return Err(Io);
      }
      if !ValidFor(world, req, answer.value) {
        return Err(Codec);
      }
      if answer.value.Success? && answer.value.body.OfDynamicProviders? && minor < 15 {
        return Err(NotNegotiated);
      }
      r := Ok(answer.value);
    }

    /** One read whose failure response ends the poll. */
    method ReadInto(next: Projection<O>, req: Request) returns (after: Projection<O>, error: Option<PollError>)
      modifies this
      ensures Progress(sent, after, error) == Step(world, minor, Progress(old(sent), next, None), req)
    {
      after := next;
      var r := RoundTrip(req);
      if r.Err? {
        return after, Some(r.error);
      }
      if r.value.Failure? {
        return after, Some(RemoteFailure);
      }
      var applied := Apply(world, next, req, r.value);
      if applied.None? {
        return after, Some(BadProjection);
      }
      after, error := applied.value, None;
    }

    method ReadAll(start: Projection<O>, base: nat, calls: seq<Call>)
      returns (next: Projection<O>, error: Option<PollError>)
      modifies this
      ensures Progress(sent, next, error)
              == Drive(world, minor, Progress(old(sent), start, None), Numbered(base, calls))
    {
      next, error := start, None;
      ghost var reqs := Numbered(base, calls);
      for i := 0 to |calls|
        invariant error.None?
        invariant Drive(world, minor, Progress(old(sent), start, None), reqs)
               == Drive(world, minor, Progress(sent, next, None), reqs[i..])
      {
        assert reqs[i..][0] == Request(base + i, calls[i]) && reqs[i..][1..] == reqs[i + 1..];
        next, error := ReadInto(next, Request(base + i, calls[i]));
        if error.Some? {
          return;
        }
      }
    }

    method ReadStatuses(start: Projection<O>, base: nat, agents: seq<Entry>)
      returns (next: Projection<O>, error: Option<PollError>)
      modifies this
      ensures Progress(sent, next, error)
           == Drive(world, minor, Progress(old(sent), start, None), Statuses(base, agents, 0))
    {
      next, error := start, None;
      for i := 0 to |agents|
        invariant error.None?
        invariant Drive(world, minor, Progress(old(sent), start, None), Statuses(base, agents, 0))
               == Drive(world, minor, Progress(sent, next, None), Statuses(base, agents, i))
      {
        if agents[i].availability.Unavailable? {
          continue;
        }
        var req := Request(base + i, AgentStatus(agents[i].agentId));
        assert Statuses(base, agents, i)[1..] == Statuses(base, agents, i + 1);
        next, error := ReadInto(next, req);
        if error.Some? {
          return;
        }
      }
    }

    /** The read that tolerates a failure response. */
    method ReadAuth(next: Projection<O>, req: Request, development: bool)
      returns (after: Projection<O>, error: Option<PollError>)
      modifies this
      ensures Progress(sent, after, error) == AuthStep(world, minor, Progress(old(sent), next, None), req, development)
    {
      after := next;
      var r := RoundTrip(req);
      if r.Err? {
        return after, Some(r.error);
      }
      if r.value.Failure? && (r.value.code == -33_007 || r.value.code == -33_009) {
        return next.(auth := NoAuth(development)), None;
      }
      var applied := Apply(world, next, req, r.value);
      if applied.None? {
        return after, Some(BadProjection);
      }
      after, error := applied.value, None;
    }

    /** Negotiated state, the bootstrap reads, then the status of every available agent. */
    method ReadAgents(p: Projection<O>) returns (next: Projection<O>, error: Option<PollError>)
      requires sent == []
      modifies this
      ensures Progress(sent, next, error) == AfterStatuses(world, minor, p)
    {
      next, error := ReadAll(p.(minor := Some(minor)), FIRST_ID, Bootstrap(minor));
      assert Progress(sent, next, error) == AfterBootstrap(world, minor, p);
      if error.None? && minor >= 5 && next.agents.Some? {
        next, error := ReadStatuses(next, StatusBase(minor), next.agents.value.agents);
      }
    }

    method ReadSetup(p: Projection<O>) returns (next: Projection<O>, error: Option<PollError>)
      requires sent == []
      modifies this
      ensures Progress(sent, next, error) == AfterSetup(world, minor, p)
    {
      next, error := ReadAgents(p);
      if error.None? && minor >= 7 {
        if next.agents.None? {
          return next, Some(Io);
        }
        next, error := ReadAll(next, StatusBase(minor) + |next.agents.value.agents|, SETUP);
      }
    }

    /** The projection on screen is replaced only by a complete poll; any error leaves it alone. */
    method PollProjection(screen: Screen<O>, development: bool) returns (error: Option<PollError>)
      requires sent == []
      modifies this, screen
      ensures sent == Poll(world, minor, old(screen.projection), development).sent
      ensures error == Poll(world, minor, old(screen.projection), development).error
      ensures screen.projection
           == if error.None? then Poll(world, minor, old(screen.projection), development).projection
              else old(screen.projection)
    {
      var next: Projection<O>;
      next, error := ReadSetup(screen.projection);
      if error.None? && minor >= 6 && next.provider.Some? {
        next, error := ReadAuth(next, Request(AUTH_REQUEST_ID, AuthStatus(next.provider.value)), development);
      }
      if error.None? {
        screen.projection := next;
      }
    }
  }

  // ----- the plan is ordered and within the negotiated version

  predicate Ordered(reqs: seq<Request>, low: nat, high: nat) {
    (forall i :: 0 <= i < |reqs| ==> low <= reqs[i].id < high)
    && (forall i, j :: 0 <= i < j < |reqs| ==> reqs[i].id < reqs[j].id)
  }

  predicate Offered(reqs: seq<Request>, minor: nat) {
    forall i :: 0 <= i < |reqs| ==> MinimumMinor(reqs[i].call) <= minor
  }

  lemma OrderedAppend(a: seq<Request>, b: seq<Request>, low: nat, middle: nat, high: nat)
    requires low <= middle <= high && Ordered(a, low, middle) && Ordered(b, middle, high)
    ensures Ordered(a + b, low, high)
  {
  }

  lemma {:induction false} StatusesAreOrdered(base: nat, agents: seq<Entry>, i: nat)
    requires i <= |agents|
    ensures Ordered(Statuses(base, agents, i), base + i, base + |agents|) && Offered(Statuses(base, agents, i), 5)
    decreases |agents| - i
  {
    if i < |agents| {
      StatusesAreOrdered(base, agents, i + 1);
    }
  }

  predicate Small(agents: Option<Catalog>) {
    agents.Some? ==> |agents.value.agents| <= MAX_CATALOG_AGENTS
  }

  /** How many ids the status part reserves. */
  function StatusRange(minor: nat, agents: Option<Catalog>): nat {
    if minor >= 5 && agents.Some? then |agents.value.agents| else 0
  }

  lemma BootstrapIsOrdered(minor: nat)
    ensures Ordered(Numbered(FIRST_ID, Bootstrap(minor)), FIRST_ID, StatusBase(minor))
    ensures Offered(Numbered(FIRST_ID, Bootstrap(minor)), minor)
  {
  }

  lemma StatusPartIsOrdered(minor: nat, agents: Option<Catalog>)
    ensures Ordered(StatusPart(minor, agents), StatusBase(minor), StatusBase(minor) + StatusRange(minor, agents))
    ensures Offered(StatusPart(minor, agents), minor)
  {
    if minor >= 5 && agents.Some? {
      StatusesAreOrdered(StatusBase(minor), agents.value.agents, 0);
    }
  }

  lemma SetupPartIsOrdered(minor: nat, agents: Option<Catalog>)
    ensures var base := StatusBase(minor) + StatusRange(minor, agents);
      Ordered(SetupPart(minor, agents), base, base + |SETUP|)
    ensures Offered(SetupPart(minor, agents), minor)
  {
  }

  /** With at most 32 agents the four parts occupy ascending, disjoint ranges of ids. */
  lemma PlanIsOrdered(minor: nat, agents: Option<Catalog>, provider: Option<string>)
    requires minor >= 5 ==> Small(agents)
    ensures Ordered(Plan(minor, agents, provider), FIRST_ID, U64_LIMIT) && Offered(Plan(minor, agents, provider), minor)
  {
    var base := StatusBase(minor);
    var middle, high := base + StatusRange(minor, agents), base + StatusRange(minor, agents) + |SETUP|;
    var boot, auth := Numbered(FIRST_ID, Bootstrap(minor)), AuthPart(minor, provider);
    var statuses, setup := StatusPart(minor, agents), SetupPart(minor, agents);
    BootstrapIsOrdered(minor);
    StatusPartIsOrdered(minor, agents);
    SetupPartIsOrdered(minor, agents);
    assert high <= AUTH_REQUEST_ID && Ordered(auth, high, U64_LIMIT);
    OrderedAppend(boot, statuses, FIRST_ID, base, middle);
    OrderedAppend(boot + statuses, setup, FIRST_ID, middle, high);
    OrderedAppend(boot + statuses + setup, auth, FIRST_ID, high, U64_LIMIT);
  }

  // ----- the plan is complete

  predicate Asks(reqs: seq<Request>, call: Call) {
    exists i :: 0 <= i < |reqs| && reqs[i].call == call
  }

  lemma AsksEither(a: seq<Request>, b: seq<Request>, call: Call)
    ensures Asks(a + b, call) <==> Asks(a, call) || Asks(b, call)
  {
    if Asks(b, call) {
      var i :| 0 <= i < |b| && b[i].call == call;
      assert (a + b)[|a| + i].call == call;
    }
    if Asks(a, call) {
      var i :| 0 <= i < |a| && a[i].call == call;
      assert (a + b)[i].call == call;
    }
  }

  /** Some available agent of the catalog, from the i-th on, has this identifier. */
  predicate OffersAgent(agents: seq<Entry>, i: nat, id: string) {
    exists j :: i <= j < |agents| && agents[j].availability.Available? && agents[j].agentId == id
  }

  lemma {:induction false} StatusesAskTheAvailable(base: nat, agents: seq<Entry>, i: nat, call: Call)
    requires i <= |agents|
    ensures Asks(Statuses(base, agents, i), call) <==> call.AgentStatus? && OffersAgent(agents, i, call.agent)
    decreases |agents| - i
  {
    if i < |agents| {
      StatusesAskTheAvailable(base, agents, i + 1, call);
      if agents[i].availability.Available? {
        var one := Request(base + i, AgentStatus(agents[i].agentId));
        AsksEither([one], Statuses(base, agents, i + 1), call);
        assert [one][0].call == one.call;
      }
    }
  }

  predicate IsBootstrap(call: Call) {
    call.Capabilities? || call.BenchmarkCatalog? || call.MeasurementCatalog? || call.History? || call.ReadAgentCatalog?
  }

  lemma NumberedAsks(base: nat, calls: seq<Call>, call: Call)
    ensures Asks(Numbered(base, calls), call) <==> call in calls
  {
    if call in calls {
      var i :| 0 <= i < |calls| && calls[i] == call;
      assert Numbered(base, calls)[i].call == call;
    }
  }

  /** Which calls a poll is about: every read of the version, for what the catalog and the configuration name. */
  predicate Wanted(minor: nat, agents: Option<Catalog>, provider: Option<string>, call: Call) {
    MinimumMinor(call) <= minor
    && match call
       case AgentStatus(id) => agents.Some? && OffersAgent(agents.value.agents, 0, id)
       case AuthStatus(p) => provider == Some(p)
       case _ => true
  }

  /** The plan asks exactly those: nothing the version offers is left out, and nothing else is asked. */
  lemma PlanIsComplete(minor: nat, agents: Option<Catalog>, provider: Option<string>, call: Call)
    requires minor >= 4 ==> agents.Some?
    ensures Asks(Plan(minor, agents, provider), call) <==> Wanted(minor, agents, provider, call)
  {
    var boot, auth := Numbered(FIRST_ID, Bootstrap(minor)), AuthPart(minor, provider);
    var statuses, setup := StatusPart(minor, agents), SetupPart(minor, agents);
    AsksEither(boot, statuses, call);
    AsksEither(boot + statuses, setup, call);
    AsksEither(boot + statuses + setup, auth, call);
    BootstrapAsks(minor, call);
    if minor >= 5 {
      StatusesAskTheAvailable(StatusBase(minor), agents.value.agents, 0, call);
    }
    if minor >= 7 {
      NumberedAsks(StatusBase(minor) + |agents.value.agents|, SETUP, call);
    }
    AuthAsks(minor, provider, call);
  }

  lemma BootstrapAsks(minor: nat, call: Call)
    ensures Asks(Numbered(FIRST_ID, Bootstrap(minor)), call) <==> IsBootstrap(call) && MinimumMinor(call) <= minor
  {
    NumberedAsks(FIRST_ID, Bootstrap(minor), call);
  }

  lemma AuthAsks(minor: nat, provider: Option<string>, call: Call)
    ensures Asks(AuthPart(minor, provider), call) <==> minor >= 6 && call.AuthStatus? && provider == Some(call.provider)
  {
    if minor >= 6 && provider.Some? {
      assert AuthPart(minor, provider)[0].call == AuthStatus(provider.value);
    }
  }

  // ----- what a run of requests sends and keeps

  lemma {:induction false} DriveSendsAPrefix<O>(w: World<O>, minor: nat, pr: Progress<O>, reqs: seq<Request>)
    requires pr.error.None?
    ensures var after := Drive(w, minor, pr, reqs);
      after.sent <= pr.sent + reqs && (after.error.None? ==> after.sent == pr.sent + reqs)
    decreases reqs
  {
    if reqs != [] {
      var next := Step(w, minor, pr, reqs[0]);
      assert reqs == [reqs[0]] + reqs[1..];
      assert pr.sent + reqs == (pr.sent + [reqs[0]]) + reqs[1..];
      if next.error.None? {
        DriveSendsAPrefix(w, minor, next, reqs[1..]);
      }
    }
  }

  lemma {:induction false} DriveKeeps<O>(w: World<O>, minor: nat, pr: Progress<O>, reqs: seq<Request>)
    requires pr.error.None?
    ensures var after := Drive(w, minor, pr, reqs).projection;
      ((forall i :: 0 <= i < |reqs| ==> !reqs[i].call.ReadAgentCatalog?) ==> after.agents == pr.projection.agents)
      && after.minor == pr.projection.minor
    decreases reqs
  {
    if reqs != [] {
      var next := Step(w, minor, pr, reqs[0]);
      assert forall i :: 0 <= i < |reqs[1..]| ==> reqs[1..][i] == reqs[i + 1];
      if next.error.None? {
        DriveKeeps(w, minor, next, reqs[1..]);
      }
    }
  }

  /** The validators include the catalog's own. */
  ghost predicate ChecksCatalogs<O>(w: World<O>, digest: string -> string) {
    forall r: Response :: w.accepts(r) && r.Success? && r.body.OfAgents? ==> ValidCatalog(r.body.catalog, digest)
  }

  lemma CatalogIsSmall(c: Catalog, digest: string -> string)
    requires ValidCatalog(c, digest)
    ensures 0 < |c.agents| <= MAX_CATALOG_AGENTS
  {
  }

  /** A run ending in a catalog read that succeeds leaves a validated catalog. */
  lemma {:induction false} DriveReadsCatalog<O>(w: World<O>, minor: nat, pr: Progress<O>, reqs: seq<Request>,
                                                digest: string -> string)
    requires pr.error.None? && reqs != [] && reqs[|reqs| - 1].call.ReadAgentCatalog? && ChecksCatalogs(w, digest)
    ensures var after := Drive(w, minor, pr, reqs);
      after.error.None? ==> after.projection.agents.Some? && Small(after.projection.agents)
    decreases reqs
  {
    var next := Step(w, minor, pr, reqs[0]);
    if next.error.None? {
      if |reqs| == 1 {
        CatalogIsSmall(next.projection.agents.value, digest);
      } else {
        DriveReadsCatalog(w, minor, next, reqs[1..], digest);
      }
    }
  }

  // ----- main results

  /** After the bootstrap reads of version 1.4 or later the projection holds a validated catalog. */
  lemma BootstrapReadsCatalog<O>(w: World<O>, minor: nat, p: Projection<O>, digest: string -> string)
    requires ChecksCatalogs(w, digest) && minor >= 4
    ensures var pr := AfterBootstrap(w, minor, p);
      pr.error.None? ==> pr.projection.agents.Some? && Small(pr.projection.agents)
  {
    DriveReadsCatalog(w, minor, Started(minor, p), Numbered(FIRST_ID, Bootstrap(minor)), digest);
  }

  lemma LaterReadsKeepCatalog<O>(w: World<O>, minor: nat, p: Projection<O>, development: bool)
    ensures Poll(w, minor, p, development).projection.agents == AfterBootstrap(w, minor, p).projection.agents
         == AfterStatuses(w, minor, p).projection.agents == AfterSetup(w, minor, p).projection.agents
    ensures Poll(w, minor, p, development).projection.provider == AfterSetup(w, minor, p).projection.provider
  {
    var boot := AfterBootstrap(w, minor, p);
    if boot.error.None? {
      if minor >= 5 && boot.projection.agents.Some? {
        StatusesReadNoCatalog(StatusBase(minor), boot.projection.agents.value.agents, 0);
      }
      DriveKeeps(w, minor, boot, StatusPart(minor, boot.projection.agents));
    }
    var statuses := AfterStatuses(w, minor, p);
    if statuses.error.None? {
      DriveKeeps(w, minor, statuses, SetupPart(minor, statuses.projection.agents));
    }
  }

  lemma {:induction false} StatusesReadNoCatalog(base: nat, agents: seq<Entry>, i: nat)
    requires i <= |agents|
    ensures forall j :: 0 <= j < |Statuses(base, agents, i)| ==> !Statuses(base, agents, i)[j].call.ReadAgentCatalog?
    decreases |agents| - i
  {
    if i < |agents| {
      StatusesReadNoCatalog(base, agents, i + 1);
    }
  }

  /** What has been sent is a prefix of a list of requests, and all of it if nothing went wrong. */
  predicate Follows<O>(pr: Progress<O>, reqs: seq<Request>) {
    pr.sent <= reqs && (pr.error.None? ==> pr.sent == reqs)
  }

  lemma DriveFollows<O>(w: World<O>, minor: nat, pr: Progress<O>, before: seq<Request>, reqs: seq<Request>)
    requires Follows(pr, before)
    ensures Follows(Drive(w, minor, pr, reqs), before + reqs)
  {
    if pr.error.None? {
      DriveSendsAPrefix(w, minor, pr, reqs);
    }
  }

  lemma SetupFollows<O>(w: World<O>, minor: nat, p: Projection<O>)
    ensures var agents := AfterBootstrap(w, minor, p).projection.agents;
      Follows(AfterSetup(w, minor, p),
              Numbered(FIRST_ID, Bootstrap(minor)) + StatusPart(minor, agents) + SetupPart(minor, agents))
  {
    LaterReadsKeepCatalog(w, minor, p, false);
    var agents := AfterBootstrap(w, minor, p).projection.agents;
    var boot := Numbered(FIRST_ID, Bootstrap(minor));
    DriveFollows(w, minor, Started(minor, p), [], boot);
    assert [] + boot == boot;
    DriveFollows(w, minor, AfterBootstrap(w, minor, p), boot, StatusPart(minor, agents));
    DriveFollows(w, minor, AfterStatuses(w, minor, p), boot + StatusPart(minor, agents), SetupPart(minor, agents));
  }

  /**
   Whatever the peer answers, a poll sends a prefix of the plan for the catalog and provider it has learned,
   and a poll without error sends all of it.
   */
  lemma PollFollowsThePlan<O>(w: World<O>, minor: nat, p: Projection<O>, development: bool, digest: string -> string)
    requires ChecksCatalogs(w, digest)
    ensures var pr := Poll(w, minor, p, development);
      Follows(pr, Plan(minor, pr.projection.agents, pr.projection.provider))
      && (pr.error.None? && minor >= 4 ==> pr.projection.agents.Some? && Small(pr.projection.agents))
  {
    LaterReadsKeepCatalog(w, minor, p, development);
    if minor >= 4 {
      BootstrapReadsCatalog(w, minor, p, digest);
    }
    SetupFollows(w, minor, p);
  }

  /** A successful poll has asked exactly what the version offers about the agents and the provider it now shows. */
  lemma CompletePollAsksEverything<O>(w: World<O>, minor: nat, p: Projection<O>, development: bool,
                                      digest: string -> string, call: Call)
    requires ChecksCatalogs(w, digest) && Poll(w, minor, p, development).error.None?
    ensures var pr := Poll(w, minor, p, development);
      Asks(pr.sent, call) <==> Wanted(minor, pr.projection.agents, pr.projection.provider, call)
  {
    var pr := Poll(w, minor, p, development);
    PollFollowsThePlan(w, minor, p, development, digest);
    PlanIsComplete(minor, pr.projection.agents, pr.projection.provider, call);
  }

  /**
   Every poll, for every negotiated version and every peer: request ids strictly increase, so no two requests
   share one, none is the id negotiation used, none overflows, and every operation sent exists in the version.
   */
  lemma EveryPollIsOrdered<O>(w: World<O>, minor: nat, p: Projection<O>, development: bool, digest: string -> string)
    requires ChecksCatalogs(w, digest)
    ensures Ordered(Poll(w, minor, p, development).sent, FIRST_ID, U64_LIMIT)
    ensures Offered(Poll(w, minor, p, development).sent, minor)
  {
    if minor >= 5 && AfterBootstrap(w, minor, p).error.Some? {
      CutBootstrapIsOrdered(w, minor, p, development);
    } else {
      var pr := Poll(w, minor, p, development);
      PollFollowsThePlan(w, minor, p, development, digest);
      LaterReadsKeepCatalog(w, minor, p, development);
      if minor >= 5 {
        BootstrapReadsCatalog(w, minor, p, digest);
      }
      PlanIsOrdered(minor, pr.projection.agents, pr.projection.provider);
      PrefixIsOrdered(pr.sent, Plan(minor, pr.projection.agents, pr.projection.provider), minor, U64_LIMIT);
    }
  }

  lemma PrefixIsOrdered(sent: seq<Request>, plan: seq<Request>, minor: nat, high: nat)
    requires sent <= plan && Ordered(plan, FIRST_ID, high) && Offered(plan, minor) && high <= U64_LIMIT
    ensures Ordered(sent, FIRST_ID, U64_LIMIT) && Offered(sent, minor)
  {
  }

  lemma CutBootstrapIsOrdered<O>(w: World<O>, minor: nat, p: Projection<O>, development: bool)
    requires AfterBootstrap(w, minor, p).error.Some?
    ensures Ordered(Poll(w, minor, p, development).sent, FIRST_ID, U64_LIMIT)
    ensures Offered(Poll(w, minor, p, development).sent, minor)
  {
    var boot := Numbered(FIRST_ID, Bootstrap(minor));
    DriveSendsAPrefix(w, minor, Started(minor, p), boot);
    assert [] + boot == boot;
    BootstrapIsOrdered(minor);
    PrefixIsOrdered(AfterBootstrap(w, minor, p).sent, boot, minor, StatusBase(minor));
  }

  /** A failure response to the authentication read never fails the poll; two codes mark it unavailable. */
  lemma AuthFailureIsNotFatal<O>(w: World<O>, minor: nat, p: Projection<O>, development: bool, id: nat, code: int)
    requires minor >= 6 && AfterSetup(w, minor, p).error.None? && AfterSetup(w, minor, p).projection.provider.Some?
    requires var before := AfterSetup(w, minor, p);
      Exchange(w, minor, |before.sent|, AuthPart(minor, before.projection.provider)[0]) == Ok(Failure(id, code))
    ensures var before, after := AfterSetup(w, minor, p).projection, Poll(w, minor, p, development);
      after.error.None?
      && after.projection
         == if code == -33_007 || code == -33_009 then before.(auth := NoAuth(development)) else before
  {
  }
}
