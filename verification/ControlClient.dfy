/**
 The client's side of one control session: version and limit negotiation, the reconnect cursor that
 survives reconnects, and the ledger that decides which requests may be retried.
 */
module ControlClient {
  import opened Results
  import opened Numbers
  import opened TextRules
  import opened StringOrder
  import Framing

  const MAX_TIMEOUT_MS: nat := 5 * 60 * 1000
  const MAX_PAGE_ITEMS: nat := 256

  datatype ClientError =
    | InvalidLimit(name: string) | UnsupportedVersion | IncompatibleVersion | InvalidIdentity | IdentityChanged
    | InvalidNegotiation | StaleCursor | FutureCursor | InvalidCursor | NonMonotonicCursor | NotNegotiated
    | RequestLimit | UnknownRequest

  // ----- versions

  datatype Version = Version(major: nat, minor: nat)

  function Supported(): set<Version> {
    {Version(1, 0), Version(1, 2), Version(1, 3), Version(1, 4), Version(1, 5)}
  }

  predicate AtMost(a: Version, b: Version) {
    a.major < b.major || (a.major == b.major && a.minor <= b.minor)
  }

  const PREFERENCE: seq<Version> := [Version(1, 5), Version(1, 4), Version(1, 3), Version(1, 2), Version(1, 0)]

  /** The greatest version both sides name, provided neither names an unknown one. */
  method SelectVersion(offered: set<Version>, peer: set<Version>) returns (r: Result<Version, ClientError>)
    ensures r.Ok? <==> offered <= Supported() && peer <= Supported() && offered * peer != {}
    ensures r.Ok? ==> r.value in offered * peer && forall v :: v in offered * peer ==> AtMost(v, r.value)
    ensures r == Err(UnsupportedVersion) <==>
            offered == {} || peer == {} || !(offered <= Supported()) || !(peer <= Supported())
    ensures r.Err? && r.error != UnsupportedVersion ==> r.error == IncompatibleVersion
  {
    if offered == {} || peer == {} || !(offered <= Supported()) || !(peer <= Supported()) {
      return Err(UnsupportedVersion);
    }
    for i := 0 to |PREFERENCE|
      invariant forall j :: 0 <= j < i ==> PREFERENCE[j] !in offered * peer
    {
      if PREFERENCE[i] in offered && PREFERENCE[i] in peer {
        forall v | v in offered * peer
          ensures AtMost(v, PREFERENCE[i])
        {
          SupportedIsListed(v);
        }
        assert PREFERENCE[i] in offered * peer;
        return Ok(PREFERENCE[i]);
      }
    }
    forall v | v in Supported()
      ensures v !in offered * peer
    {
      SupportedIsListed(v);
    }
    return Err(IncompatibleVersion);
  }

  lemma SupportedIsListed(v: Version)
    requires v in Supported()
    ensures exists j :: 0 <= j < |PREFERENCE| && PREFERENCE[j] == v
    ensures forall i, j :: 0 <= i <= j < |PREFERENCE| ==> AtMost(PREFERENCE[j], PREFERENCE[i])
  {
    assert PREFERENCE[0] == Version(1, 5) && PREFERENCE[1] == Version(1, 4) && PREFERENCE[2] == Version(1, 3)
        && PREFERENCE[3] == Version(1, 2) && PREFERENCE[4] == Version(1, 0);
  }

  // ----- limits

  datatype Limits = Limits(maxFrameBytes: nat, maxTimeoutMs: nat, maxPageItems: nat, maxInFlight: nat)

  predicate ValidLimits(l: Limits) {
    0 < l.maxFrameBytes <= Framing.MAX_FRAME_BYTES && 0 < l.maxTimeoutMs <= MAX_TIMEOUT_MS
    && 0 < l.maxPageItems <= MAX_PAGE_ITEMS && 0 < l.maxInFlight
  }

  /** The first limit out of range, in the order they are checked. */
  function LimitFault(l: Limits): (fault: Option<ClientError>)
    ensures fault.None? <==> ValidLimits(l)
  {
    if l.maxFrameBytes == 0 || l.maxFrameBytes > Framing.MAX_FRAME_BYTES then Some(InvalidLimit("max_frame_bytes"))
    else if l.maxTimeoutMs == 0 || l.maxTimeoutMs > MAX_TIMEOUT_MS then Some(InvalidLimit("max_timeout_ms"))
    else if l.maxPageItems == 0 || l.maxPageItems > MAX_PAGE_ITEMS then Some(InvalidLimit("max_page_items"))
    else if l.maxInFlight == 0 then Some(InvalidLimit("max_in_flight"))
    else None
  }

  predicate Within(a: Limits, b: Limits) {
    a.maxFrameBytes <= b.maxFrameBytes && a.maxTimeoutMs <= b.maxTimeoutMs
    && a.maxPageItems <= b.maxPageItems && a.maxInFlight <= b.maxInFlight
  }

  /** The larger of the two promises both peers keep: limits are within the result exactly when within both. */
  function Intersect(a: Limits, b: Limits): (r: Option<Limits>)
    ensures r.Some? <==> ValidLimits(a) && ValidLimits(b)
    ensures r.Some? ==> ValidLimits(r.value) && forall l :: Within(l, r.value) <==> Within(l, a) && Within(l, b)
  {
    if !ValidLimits(a) || !ValidLimits(b) then None
    else
      Some(Limits(Min(a.maxFrameBytes, b.maxFrameBytes), Min(a.maxTimeoutMs, b.maxTimeoutMs),
                  Min(a.maxPageItems, b.maxPageItems), Min(a.maxInFlight, b.maxInFlight)))
  }

  // ----- the negotiated session

  datatype Runner = Runner(uid: nat, pid: nat, serviceGeneration: nat, instanceId: string)

  datatype Channel = Channel(uid: nat, pid: nat, serviceGeneration: nat)

  datatype Session = Session(version: Version, limits: Limits, runner: Runner, oldest: nat, latest: nat)

  predicate ValidRunner(r: Runner) {
    r.pid != 0 && IsSafeId(r.instanceId)
  }

  predicate Authentic(c: Channel, r: Runner) {
    ValidRunner(r) && c == Channel(r.uid, r.pid, r.serviceGeneration)
  }

  predicate ValidSession(s: Session, offered: set<Version>, local: Limits) {
    s.version in Supported() && s.version in offered && s.oldest <= s.latest && ValidRunner(s.runner)
    && ValidLimits(s.limits) && ValidLimits(local) && Within(s.limits, local)
  }

  /** `Negotiated::validate`, fault by fault. */
  function SessionFault(s: Session, offered: set<Version>, local: Limits): (fault: Option<ClientError>)
    ensures fault.None? <==> ValidSession(s, offered, local)
  {
    if s.version !in Supported() || s.version !in offered || s.oldest > s.latest then Some(InvalidNegotiation)
    else if !ValidRunner(s.runner) then Some(InvalidIdentity)
    else if LimitFault(s.limits).Some? then LimitFault(s.limits)
    else if LimitFault(local).Some? then LimitFault(local)
    else if !Within(s.limits, local) then Some(InvalidNegotiation)
    else None
  }

  // ----- cursor and connection

  type Cursor = Option<nat>

  function SaturatingPred(n: nat): nat {
    if n == 0 then 0 else n - 1
  }

  function ResumeAfter(cursor: Cursor, s: Session): Result<Cursor, ClientError> {
    if cursor.Some? && cursor.value < SaturatingPred(s.oldest) then Err(StaleCursor)
    else if cursor.Some? && cursor.value > s.latest then Err(FutureCursor)
    else Ok(cursor)
  }

  function Advance(cursor: Cursor, next: nat, s: Session): Result<Cursor, ClientError> {
    if next < s.oldest || next > s.latest then Err(InvalidCursor)
    else if cursor.Some? && next <= cursor.value then Err(NonMonotonicCursor)
    else Ok(Some(next))
  }

  /** Disconnected when there is no session; the cursor outlives either. */
  datatype State = State(session: Option<Session>, cursor: Cursor)

  datatype Event =
    | Establish(channel: Channel, session: Session, offered: set<Version>, local: Limits)
    | Disconnect
    | AdvanceCursor(revision: nat)

  function Next(s: State, e: Event): (State, Result<(), ClientError>) {
    match e
    case Disconnect => (State(None, s.cursor), Ok(()))
    case AdvanceCursor(revision) =>
      if s.session.None? then (s, Err(NotNegotiated))
      else
        (match Advance(s.cursor, revision, s.session.value)
         case Err(error) => (s, Err(error))
         case Ok(cursor) => (s.(cursor := cursor), Ok(())))
    case Establish(channel, session, offered, local) =>
      if !ValidRunner(session.runner) then (s, Err(InvalidIdentity))
      else if !Authentic(channel, session.runner) then (s, Err(IdentityChanged))
      else if SessionFault(session, offered, local).Some? then (s, Err(SessionFault(session, offered, local).value))
      else
        (match ResumeAfter(s.cursor, session)
         case Err(error) => (s, Err(error))
         case Ok(_) => (State(Some(session), s.cursor), Ok(())))
  }

  function Run(s: State, events: seq<Event>): State
    decreases events
  {
    if events == [] then s else Run(Next(s, events[0]).0, events[1..])
  }

  class Connection {
    var session: Option<Session>
    var cursor: Cursor

    constructor ()
      ensures Value() == State(None, None)
    {
      session := None;
      cursor := None;
    }

    ghost function Value(): State
      reads this
    {
      State(session, cursor)
    }

    method EstablishWith(channel: Channel, negotiated: Session, offered: set<Version>, local: Limits)
      returns (r: Result<(), ClientError>)
      modifies this
      ensures (Value(), r) == Next(old(Value()), Establish(channel, negotiated, offered, local))
    {
      if !ValidRunner(negotiated.runner) {
        return Err(InvalidIdentity);
      }
      if channel.uid != negotiated.runner.uid || channel.pid != negotiated.runner.pid
         || channel.serviceGeneration != negotiated.runner.serviceGeneration {
        return Err(IdentityChanged);
      }
      var fault := SessionFault(negotiated, offered, local);
      if fault.Some? {
        return Err(fault.value);
      }
      if cursor.Some? {
        if cursor.value < SaturatingPred(negotiated.oldest) {
          return Err(StaleCursor);
        }
        if cursor.value > negotiated.latest {
          return Err(FutureCursor);
        }
      }
      session := Some(negotiated);
      return Ok(());
    }

    method Drop()
      modifies this
      ensures Value() == Next(old(Value()), Disconnect).0
    {
      session := None;
    }

    method AdvanceTo(revision: nat) returns (r: Result<(), ClientError>)
      modifies this
      ensures (Value(), r) == Next(old(Value()), AdvanceCursor(revision))
    {
      if session.None? {
        return Err(NotNegotiated);
      }
      if revision < session.value.oldest || revision > session.value.latest {
        return Err(InvalidCursor);
      }
      if cursor.Some? && revision <= cursor.value {
        return Err(NonMonotonicCursor);
      }
      cursor := Some(revision);
      return Ok(());
    }
  }

  predicate NoLater(a: Cursor, b: Cursor) {
    a.Some? ==> b.Some? && a.value <= b.value
  }

  /** Revision r follows the cursor, was published, and the runner no longer holds it. */
  predicate Missed(r: nat, cursor: nat, s: Session) {
    cursor < r <= s.latest && r < s.oldest
  }

  /** The cursor is not ahead of the runner, and the runner still holds every revision after it. */
  ghost predicate NothingMissed(cursor: Cursor, s: Session) {
    cursor.Some? ==> cursor.value <= s.latest && forall r: nat :: !Missed(r, cursor.value, s)
  }

  /** A cursor is resumed exactly when no revision would be skipped. */
  lemma ResumeIsGapFree(cursor: Cursor, s: Session)
    requires s.oldest <= s.latest
    ensures ResumeAfter(cursor, s).Ok? <==> NothingMissed(cursor, s)
    ensures ResumeAfter(cursor, s).Ok? ==> ResumeAfter(cursor, s).value == cursor
  {
    if cursor.Some? && cursor.value < SaturatingPred(s.oldest) {
      assert Missed(cursor.value + 1, cursor.value, s);
    }
  }

  /**
   A session is established exactly when channel, session and cursor are all sound, and then only the session is
   new.
   */
  lemma EstablishedMeansSafe(s: State, channel: Channel, session: Session, offered: set<Version>, local: Limits)
    ensures var (t, outcome) := Next(s, Establish(channel, session, offered, local));
      (outcome.Ok? <==> Authentic(channel, session.runner) && ValidSession(session, offered, local)
                        && NothingMissed(s.cursor, session))
      && t == if outcome.Ok? then State(Some(session), s.cursor) else s
  {
    if session.oldest <= session.latest {
      ResumeIsGapFree(s.cursor, session);
    }
  }

  ghost predicate Sound(s: State) {
    s.session.Some? ==> s.session.value.oldest <= s.session.value.latest && NothingMissed(s.cursor, s.session.value)
  }

  /** Over every run the cursor never decreases, and every connected state can be followed without a gap. */
  lemma {:induction false} CursorNeverDecreases(s: State, events: seq<Event>)
    requires Sound(s)
    ensures NoLater(s.cursor, Run(s, events).cursor) && Sound(Run(s, events))
    decreases events
  {
    if events != [] {
      if events[0].Establish? && events[0].session.oldest <= events[0].session.latest {
        ResumeIsGapFree(s.cursor, events[0].session);
      }
      CursorNeverDecreases(Next(s, events[0]).0, events[1..]);
    }
  }

  /** The revision one step delivers, if it does. */
  function Fresh(s: State, e: Event): Option<nat> {
    if e.AdvanceCursor? && Next(s, e).1.Ok? then Some(e.revision) else None
  }

  lemma StepMovesCursor(s: State, e: Event)
    ensures Next(s, e).0.cursor == if Fresh(s, e).Some? then Fresh(s, e) else s.cursor
    ensures Fresh(s, e).Some? && s.cursor.Some? ==> s.cursor.value < Fresh(s, e).value
  {
  }

  /** The revisions a run delivers, in order. */
  function Delivered(s: State, events: seq<Event>): seq<nat>
    decreases events
  {
    if events == [] then []
    else
      var rest := Delivered(Next(s, events[0]).0, events[1..]);
      if Fresh(s, events[0]).Some? then [Fresh(s, events[0]).value] + rest else rest
  }

  /**
   However often the connection drops and resumes, no revision is delivered twice or out of order,
   and the cursor is the last one delivered.
   */
  lemma {:induction false} DeliveryIsIncreasing(s: State, events: seq<Event>)
    ensures var d := Delivered(s, events);
      (forall i, j :: 0 <= i < j < |d| ==> d[i] < d[j])
      && (s.cursor.Some? ==> forall i :: 0 <= i < |d| ==> s.cursor.value < d[i])
      && Run(s, events).cursor == if d == [] then s.cursor else Some(d[|d| - 1])
    decreases events
  {
    if events != [] {
      StepMovesCursor(s, events[0]);
      var next := Next(s, events[0]).0;
      DeliveryIsIncreasing(next, events[1..]);
      assert Run(s, events) == Run(next, events[1..]);
      var d, rest := Delivered(s, events), Delivered(next, events[1..]);
      if Fresh(s, events[0]).Some? {
        assert d == [Fresh(s, events[0]).value] + rest;
      } else {
        assert d == rest;
      }
    }
  }

  // ----- the request ledger

  datatype Class = ReadOnly | Mutation

  type Id = string

  datatype Plan = Plan(readOnly: seq<Id>, abandoned: seq<Id>)

  datatype Op = Begin(id: Id, cls: Class, limits: Limits) | Complete(of: Id) | Reconnect

  datatype Outcome = Begun | Refused(error: ClientError) | Completed(cls: Class) | Planned(plan: Plan)

  function IdsOf(pending: map<Id, Class>, c: Class): set<Id> {
    set id | id in pending && pending[id] == c
  }

  /** The list of a finite set of ids, smallest first. */
  ghost predicate Lists(ids: seq<Id>, s: set<Id>) {
    AscendingNeighbours(ids) && (forall id :: id in ids <==> id in s)
  }

  ghost predicate IsPlan(p: Plan, pending: map<Id, Class>) {
    Lists(p.readOnly, IdsOf(pending, ReadOnly)) && Lists(p.abandoned, IdsOf(pending, Mutation))
  }

  class RequestLedger {
    var pending: map<Id, Class>

    constructor ()
      ensures pending == map[]
    {
      pending := map[];
    }

    method BeginRequest(id: Id, c: Class, limits: Limits) returns (r: Result<(), ClientError>)
      modifies this
      ensures LedgerStep(old(pending), Begin(id, c, limits), if r.Ok? then Begun else Refused(r.error), pending)
    {
      if LimitFault(limits).Some? {
        return Err(LimitFault(limits).value);
      }
      if |pending| >= limits.maxInFlight || id in pending {
        return Err(RequestLimit);
      }
      pending := pending[id := c];
      return Ok(());
    }

    method CompleteRequest(id: Id) returns (r: Result<Class, ClientError>)
      modifies this
      ensures LedgerStep(old(pending), Complete(id), if r.Ok? then Completed(r.value) else Refused(r.error), pending)
    {
      if id !in pending {
        return Err(UnknownRequest);
      }
      r := Ok(pending[id]);
      pending := pending - {id};
    }

    /** Empties the ledger in key order, sorting the requests by class. */
    method ReconnectPlan() returns (plan: Plan)
      modifies this
      ensures LedgerStep(old(pending), Reconnect, Planned(plan), pending)
    {
      var taken := pending;
      pending := map[];
      plan := Plan([], []);
      ghost var done: set<Id> := {};
      while taken != map[]
        invariant pending == map[]
        invariant forall id :: id in taken ==> id in old(pending) && taken[id] == old(pending)[id]
        invariant forall id :: id in old(pending) <==> id in taken || id in done
        invariant forall a, b :: a in done && b in taken ==> Less(a, b)
        invariant AscendingNeighbours(plan.readOnly) && AscendingNeighbours(plan.abandoned)
        invariant forall id :: id in plan.readOnly <==> id in done && old(pending)[id] == ReadOnly
        invariant forall id :: id in plan.abandoned <==> id in done && old(pending)[id] == Mutation
        invariant forall id :: id in done ==> id in old(pending)
        decreases taken.Keys
      {
        LeastExists(taken.Keys);
        var id :| id in taken.Keys && IsLeast(id, taken.Keys);
        match taken[id] {
          case ReadOnly => plan := plan.(readOnly := plan.readOnly + [id]);
          case Mutation => plan := plan.(abandoned := plan.abandoned + [id]);
        }
        taken := taken - {id};
        done := done + {id};
      }
    }
  }

  ghost predicate LedgerStep(before: map<Id, Class>, op: Op, out: Outcome, after: map<Id, Class>) {
    match op
    case Begin(id, cls, limits) =>
      if ValidLimits(limits) && |before| < limits.maxInFlight && id !in before
      then out == Begun && after == before[id := cls]
      else out == Refused(if ValidLimits(limits) then RequestLimit else LimitFault(limits).value) && after == before
    case Complete(id) =>
      if id in before then out == Completed(before[id]) && after == before - {id}
      else out == Refused(UnknownRequest) && after == before
    case Reconnect =>
      out.Planned? && IsPlan(out.plan, before) && after == map[]
  }

  /** What became of every request begun so far, each occurrence with its class. */
  datatype Books = Books(begun: multiset<(Id, Class)>, completed: multiset<(Id, Class)>,
                         retryable: multiset<(Id, Class)>, abandoned: multiset<(Id, Class)>)

  function Labelled(ids: seq<Id>, c: Class): multiset<(Id, Class)> {
    if ids == [] then multiset{} else multiset{(ids[0], c)} + Labelled(ids[1..], c)
  }

  function Entered(b: Books, op: Op, out: Outcome): Books {
    match (op, out)
    case (Begin(id, cls, _), Begun) => b.(begun := b.begun + multiset{(id, cls)})
    case (Complete(id), Completed(cls)) => b.(completed := b.completed + multiset{(id, cls)})
    case (_, Planned(plan)) =>
      b.(retryable := b.retryable + Labelled(plan.readOnly, ReadOnly),
         abandoned := b.abandoned + Labelled(plan.abandoned, Mutation))
    case _ => b
  }

  /** One operation of a run: its outcome, and the pending requests after it. */
  datatype Entry = Entry(op: Op, out: Outcome, after: map<Id, Class>)

  ghost predicate IsRun(pending: map<Id, Class>, run: seq<Entry>)
    decreases run
  {
    run == [] || (LedgerStep(pending, run[0].op, run[0].out, run[0].after) && IsRun(run[0].after, run[1..]))
  }

  function Account(b: Books, run: seq<Entry>): Books
    decreases run
  {
    if run == [] then b else Account(Entered(b, run[0].op, run[0].out), run[1..])
  }

  function Last(pending: map<Id, Class>, run: seq<Entry>): map<Id, Class> {
    if run == [] then pending else run[|run| - 1].after
  }

  /** Every request begun is exactly one of completed, retryable, abandoned and pending, and classes never cross. */
  ghost predicate Balanced(b: Books, pending: map<Id, Class>) {
    Sums(b, multiset(pending.Items))
    && (forall id :: b.retryable[(id, Mutation)] == 0 && b.abandoned[(id, ReadOnly)] == 0)
  }

  lemma {:induction false} LabelledCount(ids: seq<Id>, c: Class, id: Id, d: Class)
    requires Distinct(ids)
    ensures Labelled(ids, c)[(id, d)] == if id in ids && d == c then 1 else 0
  {
    if ids != [] {
      var rest := ids[1..];
      assert forall i :: 0 <= i < |rest| ==> rest[i] == ids[i + 1];
      LabelledCount(rest, c, id, d);
      assert id in ids <==> id == ids[0] || id in rest;
    }
  }

  lemma PlanCoversPending(p: Plan, pending: map<Id, Class>)
    requires IsPlan(p, pending)
    ensures Labelled(p.readOnly, ReadOnly) + Labelled(p.abandoned, Mutation) == multiset(pending.Items)
    ensures forall id :: Labelled(p.readOnly, ReadOnly)[(id, Mutation)] == 0
    ensures forall id :: Labelled(p.abandoned, Mutation)[(id, ReadOnly)] == 0
  {
    AscendingIsDistinct(p.readOnly);
    AscendingIsDistinct(p.abandoned);
    forall id, c
      ensures Labelled(p.readOnly, ReadOnly)[(id, c)] == if (id, c) in pending.Items && c == ReadOnly then 1 else 0
      ensures Labelled(p.abandoned, Mutation)[(id, c)] == if (id, c) in pending.Items && c == Mutation then 1 else 0
    {
      LabelledCount(p.readOnly, ReadOnly, id, c);
      LabelledCount(p.abandoned, Mutation, id, c);
    }
    var planned := Labelled(p.readOnly, ReadOnly) + Labelled(p.abandoned, Mutation);
    forall q: (Id, Class)
      ensures planned[q] == multiset(pending.Items)[q]
    {
      assert q == (q.0, q.1);
    }
  }

  lemma ItemsWithout(m: map<Id, Class>, id: Id)
    requires id in m
    ensures multiset(m.Items) == multiset((m - {id}).Items) + multiset{(id, m[id])}
  {
    var rest := m - {id};
    forall q: (Id, Class)
      ensures q in m.Items <==> q in rest.Items || q == (id, m[id])
    {
      assert q == (q.0, q.1);
      assert q in rest.Items <==> q.0 in rest && rest[q.0] == q.1;
    }
    assert m.Items == rest.Items + {(id, m[id])};
    assert (id, m[id]) !in rest.Items;
  }

  lemma ItemsWith(m: map<Id, Class>, id: Id, c: Class)
    requires id !in m
    ensures multiset(m[id := c].Items) == multiset(m.Items) + multiset{(id, c)}
  {
    var more := m[id := c];
    assert more - {id} == m;
    ItemsWithout(more, id);
  }

  /** The first half of the balance, as plain multisets. */
  predicate Sums(b: Books, items: multiset<(Id, Class)>) {
    b.begun == b.completed + b.retryable + b.abandoned + items
  }

  lemma OneMoreBegun(b: Books, items: multiset<(Id, Class)>, left: multiset<(Id, Class)>, one: multiset<(Id, Class)>)
    requires Sums(b, items) && left == items + one
    ensures Sums(b.(begun := b.begun + one), left)
  {
  }

  lemma OneMoreCompleted(b: Books, items: multiset<(Id, Class)>, left: multiset<(Id, Class)>,
                         one: multiset<(Id, Class)>)
    requires Sums(b, items) && items == left + one
    ensures Sums(b.(completed := b.completed + one), left)
  {
  }

  lemma AllMoved(b: Books, items: multiset<(Id, Class)>, r: multiset<(Id, Class)>, a: multiset<(Id, Class)>)
    requires Sums(b, items) && r + a == items
    ensures Sums(b.(retryable := b.retryable + r, abandoned := b.abandoned + a), multiset{})
  {
  }

  lemma BeginSums(b: Books, pending: map<Id, Class>, e: Entry)
    requires e.op.Begin? && Sums(b, multiset(pending.Items)) && LedgerStep(pending, e.op, e.out, e.after)
    ensures Sums(Entered(b, e.op, e.out), multiset(e.after.Items))
  {
    if e.out.Begun? {
      var one := multiset{(e.op.id, e.op.cls)};
      ItemsWith(pending, e.op.id, e.op.cls);
      OneMoreBegun(b, multiset(pending.Items), multiset(e.after.Items), one);
    }
  }

  lemma CompleteSums(b: Books, pending: map<Id, Class>, e: Entry)
    requires e.op.Complete? && Sums(b, multiset(pending.Items)) && LedgerStep(pending, e.op, e.out, e.after)
    ensures Sums(Entered(b, e.op, e.out), multiset(e.after.Items))
  {
    if e.op.of in pending {
      var one := multiset{(e.op.of, pending[e.op.of])};
      ItemsWithout(pending, e.op.of);
      OneMoreCompleted(b, multiset(pending.Items), multiset(e.after.Items), one);
    }
  }

  lemma ReconnectSums(b: Books, pending: map<Id, Class>, e: Entry)
    requires e.op.Reconnect? && Sums(b, multiset(pending.Items)) && LedgerStep(pending, e.op, e.out, e.after)
    ensures Sums(Entered(b, e.op, e.out), multiset(e.after.Items))
  {
    var plan := e.out.plan;
    PlanCoversPending(plan, pending);
    AllMoved(b, multiset(pending.Items), Labelled(plan.readOnly, ReadOnly), Labelled(plan.abandoned, Mutation));
    assert e.after.Items == {};
  }

  lemma StepBalances(b: Books, pending: map<Id, Class>, e: Entry)
    requires Balanced(b, pending) && LedgerStep(pending, e.op, e.out, e.after)
    ensures Balanced(Entered(b, e.op, e.out), e.after)
  {
    match e.op {
      case Begin(_, _, _) => BeginSums(b, pending, e);
      case Complete(_) => CompleteSums(b, pending, e);
      case Reconnect =>
        ReconnectSums(b, pending, e);
        PlanCoversPending(e.out.plan, pending);
    }
  }

  /** Over every run of begin, complete and reconnect the books balance. */
  lemma {:induction false} EveryRequestIsAccountedFor(b: Books, pending: map<Id, Class>, run: seq<Entry>)
    requires Balanced(b, pending) && IsRun(pending, run)
    ensures Balanced(Account(b, run), Last(pending, run))
    decreases run
  {
    if run != [] {
      StepBalances(b, pending, run[0]);
      EveryRequestIsAccountedFor(Entered(b, run[0].op, run[0].out), run[0].after, run[1..]);
    }
  }

  /** From an empty ledger, then: a mutation begun and not completed is pending or abandoned, and is never retryable. */
  lemma MutationsAreNeverRetried(run: seq<Entry>, id: Id)
    requires IsRun(map[], run)
    ensures var nothing := multiset{};
      var b, pending := Account(Books(nothing, nothing, nothing, nothing), run), Last(map[], run);
      b.retryable[(id, Mutation)] == 0
      && b.begun[(id, Mutation)]
         == b.completed[(id, Mutation)] + b.abandoned[(id, Mutation)]
            + (if id in pending && pending[id] == Mutation then 1 else 0)
  {
    var nothing := multiset{};
    var none: map<Id, Class> := map[];
    assert none.Items == {};
    EveryRequestIsAccountedFor(Books(nothing, nothing, nothing, nothing), none, run);
  }

  /** While every begin carries the same limit, no more requests are ever pending than it allows. */
  lemma {:induction false} InFlightIsBounded(pending: map<Id, Class>, run: seq<Entry>, limit: nat)
    requires IsRun(pending, run) && |pending| <= limit
    requires forall i :: 0 <= i < |run| && run[i].op.Begin? ==> run[i].op.limits.maxInFlight <= limit
    ensures |Last(pending, run)| <= limit
    decreases run
  {
    if run != [] {
      var e := run[0];
      if e.op.Complete? && e.op.of in pending {
        assert pending.Keys == e.after.Keys + {e.op.of};
        assert |pending.Keys| == |pending| && |e.after.Keys| == |e.after|;
      }
      assert forall i :: 0 <= i < |run[1..]| ==> run[1..][i] == run[i + 1];
      InFlightIsBounded(e.after, run[1..], limit);
    }
  }
}
