/** The dispatch protocol: any number of offer loops compete for drivers while riders cancel, drivers
    move, connect and vanish, and the clock runs. One step is one uninterrupted stretch of the program. */
module Dispatch {
  import opened Geometry
  import opened Candidates
  import opened RegistryModel
  import opened TripModel

  const MAX_MATCH_WAIT_MS := 30000
  const MIN_OFFER_BUDGET_MS := 1000
  const LOCK_SAFETY_MARGIN_MS := 3000

  datatype Config = Config(k: int, radius: real, offerTimeoutMs: int)

  datatype Outcome = Accepted | Rejected | TimedOut | Withdrawn

  /** One turn of an offer loop: its driver, and when the budget was read and the lease taken. */
  datatype Attempt = Attempt(driver: Id, timeoutMs: int, readAt: int, lockedAt: int)

  /** Where an offer loop stands between two awaits. */
  datatype Pc =
    | Ready
    | Locked(attempt: Attempt)
    | Waiting(attempt: Attempt, publishedAt: int)
    | Revoking(attempt: Attempt, actor: Role, why: Option<string>)
    | Resumed(attempt: Attempt, outcome: Outcome)
    | Unwinding(attempt: Attempt)
    | Committed(attempt: Attempt)

  /** `offered`, the drivers offers went out to, is not stored by the program, only spoken about. */
  datatype Loop = Loop(
    tripId: Id, pickup: Pos, config: Config, i: nat, tried: set<Id>, deadline: int, hadCandidates: bool, pc: Pc,
      offered: seq<Id>)

  datatype Offer = Offer(driver: Id, expiresAt: int)

  datatype State = State(
    metric: Metric, reg: Registry, m: Machine, loops: map<Id, Loop>, offers: map<Id, Offer>, aborted: set<Id>, now: int)

  // ---- The offer loop ----

  function MinInt(a: int, b: int): int { if a <= b then a else b }

  function NewLoop(tripId: Id, pickup: Pos, config: Config, now: int): Loop {
    Loop(tripId, pickup, config, 0, {}, now + MAX_MATCH_WAIT_MS, false, Ready, [])
  }

  function QueryOf(s: State, l: Loop): Query {
    Query(s.metric, l.pickup, l.config.k, l.config.radius)
  }

  /** The first candidate not tried before. */
  function FirstUntried(candidates: seq<Candidate>, tried: set<Id>): Option<Candidate> {
    if candidates == [] then None
    else if candidates[0].id !in tried then Some(candidates[0])
    else FirstUntried(candidates[1..], tried)
  }

  function EndLoop(s: State, r: Id): State {
    s.(loops := s.loops - {r}, aborted := s.aborted - {r})
  }

  function GiveUpReason(l: Loop): string {
    if l.hadCandidates then "All candidate drivers declined or timed out" else "No available drivers in search radius"
  }

  /** The loop ran out of turns, time or candidates. */
  function GiveUp(s: State, r: Id): State
    requires r in s.loops
  {
    if r in s.aborted then EndLoop(s, r)
    else EndLoop(CancelByLoop(s, s.loops[r].tripId, GiveUpReason(s.loops[r])), r)
  }

  function CancelByLoop(s: State, tripId: Id, reason: string): State {
    s.(m := Transition(s.m, tripId, TripStatus.Cancelled, System, Some(reason), None, s.now).0)
  }

  function NextTurn(s: State, r: Id): State
    requires r in s.loops
  {
    s.(loops := s.loops[r := s.loops[r].(i := s.loops[r].i + 1, pc := Ready)])
  }

  function WithPc(s: State, r: Id, pc: Pc): State
    requires r in s.loops
  {
    s.(loops := s.loops[r := s.loops[r].(pc := pc)])
  }

  function BudgetLeft(s: State, l: Loop): bool {
    MinInt(MIN_OFFER_BUDGET_MS, l.config.offerTimeoutMs) <= l.deadline - s.now
  }

  /** One turn of the loop, up to the await of the lease; the lease is stamped at `lockAt`. */
  function Top(s: State, r: Id, candidates: seq<Candidate>, lockAt: int): State
    requires r in s.loops
  {
    var l := s.loops[r];
    if l.config.k <= l.i then GiveUp(s, r)
    else if r in s.aborted then EndLoop(s, r)
    else if !BudgetLeft(s, l) || FirstUntried(candidates, l.tried) == None then GiveUp(s, r)
    else TryDriver(s, r, FirstUntried(candidates, l.tried).value.id, lockAt)
  }

  function TryDriver(s: State, r: Id, d: Id, lockAt: int): State
    requires r in s.loops
  {
    var l := s.loops[r];
    var a := Attempt(d, MinInt(l.config.offerTimeoutMs, l.deadline - s.now), s.now, lockAt);
    var (reg, locked) := AcquireLock(s.reg, d, r, a.timeoutMs + LOCK_SAFETY_MARGIN_MS, lockAt);
    s.(reg := reg, now := lockAt, loops := s.loops[r := AfterTry(l, a, locked)])
  }

  function AfterTry(l: Loop, a: Attempt, locked: bool): Loop {
    var tried := l.(tried := l.tried + {a.driver}, hadCandidates := true);
    if locked then tried.(pc := Locked(a)) else tried.(i := l.i + 1)
  }

  function Publish(s: State, r: Id): State
    requires r in s.loops && s.loops[r].pc.Locked?
  {
    var l, a := s.loops[r], s.loops[r].pc.attempt;
    s.(offers := s.offers[r := Offer(a.driver, s.now + a.timeoutMs)],
       loops := s.loops[r := l.(pc := Waiting(a, s.now), offered := l.offered + [a.driver])])
  }

  /** The offer's promise is resolved. */
  function Settle(s: State, r: Id, outcome: Outcome): State
    requires r in s.loops && s.loops[r].pc.Waiting?
  {
    WithPc(s.(offers := s.offers - {r}), r, Resumed(s.loops[r].pc.attempt, outcome))
  }

  function Respond(s: State, r: Id, driver: Id, accept: bool): State {
    if r !in s.offers || s.offers[r].driver != driver || r !in s.loops || !s.loops[r].pc.Waiting? then s
    else if s.offers[r].expiresAt <= s.now then Settle(s, r, TimedOut)
    else Settle(s, r, if accept then Accepted else Rejected)
  }

  function Release(s: State, r: Id, d: Id): State {
    s.(reg := ReleaseLock(s.reg, d, r).0)
  }

  function Resume(s: State, r: Id): State
    requires r in s.loops && s.loops[r].pc.Resumed?
  {
    var l, a := s.loops[r], s.loops[r].pc.attempt;
    if r in s.aborted || StatusOf(s.m, l.tripId) != Some(Matching) then EndLoop(Release(s, r, a.driver), r)
    else
      match l.pc.outcome
      case Accepted =>
        var (reg, committed) := CommitTrip(s.reg, a.driver, r, s.now);
        WithPc(s.(reg := reg), r, if committed then Committed(a) else Unwinding(a))
      case Withdrawn => EndLoop(s, r)
      case _ => NextTurn(Release(s, r, a.driver), r)
  }

  function Unwind(s: State, r: Id): State
    requires r in s.loops && s.loops[r].pc.Unwinding?
  {
    NextTurn(Release(s, r, s.loops[r].pc.attempt.driver), r)
  }

  /** The assignment after a commit, or the rollback of the commit. */
  function Assign(s: State, r: Id): State
    requires r in s.loops && s.loops[r].pc.Committed?
  {
    var d := s.loops[r].pc.attempt.driver;
    var (m, res) := Transition(s.m, s.loops[r].tripId, Matched, System, None, Some(d), s.now);
    if res.Success() then EndLoop(s.(m := m), r)
    else NextTurn(s.(m := m, reg := CompleteTrip(s.reg, d, s.now).0), r)
  }

  // ---- Riders ----

  function Request(s: State, r: Id, rider: Id, pickup: Pos, dropoff: Pos, config: Config, newId: Id): State {
    var (m, res) := CreateTrip(s.m, r, rider, pickup, dropoff, newId, s.now);
    if !res.Success() || res.tripId !in m.trips || m.trips[res.tripId].status != Requested then s.(m := m)
    else StartLoop(s.(m := m), r, res.tripId, m.trips[res.tripId].pickup, None, config)
  }

  /** Sends a trip to matching and starts its offer loop. */
  function StartLoop(s: State, r: Id, tripId: Id, pickup: Pos, reason: Option<string>, config: Config): State {
    var (m, res) := Transition(s.m, tripId, Matching, System, reason, None, s.now);
    if !res.Success() then s.(m := m)
    else s.(m := m, aborted := s.aborted - {r}, loops := s.loops[r := NewLoop(tripId, pickup, config, s.now)])
  }

  function Rematch(s: State, tripId: Id, reason: Option<string>, config: Config): State {
    if tripId !in s.m.trips || s.m.trips[tripId].status == Matching then s
    else StartLoop(s, s.m.trips[tripId].requestId, tripId, s.m.trips[tripId].pickup, reason, config)
  }

  function CancelStart(s: State, r: Id, actor: Role, reason: Option<string>): State {
    var s1 := s.(aborted := s.aborted + {r});
    if r in s.offers && r in s.loops && s.loops[r].pc.Waiting? then
      var a := s.loops[r].pc.attempt;
      WithPc(Release(s1.(offers := s.offers - {r}), r, s.offers[r].driver), r, Revoking(a, actor, reason))
    else FinishCancel(s1, r, actor, reason)
  }

  function CancelFinish(s: State, r: Id): State
    requires r in s.loops && s.loops[r].pc.Revoking?
  {
    var pc := s.loops[r].pc;
    FinishCancel(WithPc(s, r, Resumed(pc.attempt, Withdrawn)), r, pc.actor, pc.why)
  }

  function FinishCancel(s: State, r: Id, actor: Role, reason: Option<string>): State {
    match TripByRequest(s.m, r)
    case None => s
    case Some(tripId) => EndTrip(s, tripId, TripStatus.Cancelled, actor, reason)
  }

  /** Cancels or completes a trip and, if the machine reports success, frees its driver. */
  function EndTrip(s: State, tripId: Id, to: TripStatus, actor: Role, reason: Option<string>): State
    requires tripId in s.m.trips
  {
    var d := s.m.trips[tripId].driverId;
    var (m, res) := Transition(s.m, tripId, to, actor, reason, None, s.now);
    var reg := if res.Success() && d.Some? then CompleteTrip(s.reg, d.value, s.now).0 else s.reg;
    s.(m := m, reg := reg)
  }

  // ---- Drivers ----

  function ReachMilestone(s: State, tripId: Id, d: Id, to: TripStatus): State {
    if tripId !in s.m.trips || s.m.trips[tripId].driverId != Some(d) then s
    else if to == Completed then EndTrip(s, tripId, Completed, Driving, None)
    else if to in {EnRoute, Arrived, InProgress} then s.(m := Transition(s.m, tripId, to, Driving, None, None, s.now).0)
    else s
  }

  predicate OnTrip(m: Machine, d: Id) {
    d in m.activeDrivers && m.activeDrivers[d] in m.trips
  }

  function Telemetry(s: State, d: Id, pos: Pos): State {
    if !ValidGeoPoint(pos) then s
    else if d !in s.reg.drivers then s.(reg := RegisterDriver(s.reg, d, pos, Available, s.now))
    else
      var (reg, ok) := UpdateLocation(s.reg, d, pos, s.now);
      if ok && !OnTrip(s.m, d) && d in reg.drivers && reg.drivers[d].status == Offline then
        s.(reg := SetStatus(reg, d, Available, s.now).0)
      else s.(reg := reg)
  }

  function SocketClose(s: State, d: Id): State {
    if OnTrip(s.m, d) then s else s.(reg := SetStatus(s.reg, d, Offline, s.now).0)
  }

  // ---- Steps and runs ----

  datatype Step =
    | RequestStep(r: Id, rider: Id, pickup: Pos, dropoff: Pos, config: Config, newId: Id)
    | TopStep(r: Id, candidates: seq<Candidate>, lockAt: int)
    | PublishStep(r: Id)
    | RespondStep(r: Id, driver: Id, accept: bool)
    | TimerStep(r: Id)
    | ResumeStep(r: Id)
    | UnwindStep(r: Id)
    | AssignStep(r: Id)
    | CancelStartStep(r: Id, actor: Role, reason: Option<string>)
    | CancelFinishStep(r: Id)
    | RematchStep(tripId: Id, reason: Option<string>, config: Config)
    | MilestoneStep(tripId: Id, driver: Id, to: TripStatus)
    | TelemetryStep(driver: Id, pos: Pos)
    | SocketCloseStep(driver: Id)
    | RegisterStep(driver: Id, pos: Pos, status: Status)
    | EvictStep(order: seq<Id>, timeoutMs: int)
    | TickStep(ms: nat)

  ghost predicate Fresh(s: State, tripId: Id) {
    tripId !in s.m.trips && Replay(s.m.history, tripId) == None && forall r | r in s.loops ::
      s.loops[r].tripId != tripId
  }

  predicate NoneCommitted(s: State) {
    forall r | r in s.loops :: !s.loops[r].pc.Committed?
  }

  /** When the program can take a step. A socket message cannot arrive between a commit and its assignment,
      which are two continuations of one turn of the event loop. */
  ghost predicate Enabled(s: State, step: Step) {
    match step
    case RequestStep(r, _, _, _, _, newId) => Fresh(s, newId) && (r in s.loops ==> r in s.m.requestToTrip)
    case TopStep(r, candidates, lockAt) =>
      && r in s.loops && s.loops[r].pc.Ready? && s.now <= lockAt
      && Sound(s.reg.index, QueryOf(s, s.loops[r]), candidates)
    case PublishStep(r) => r in s.loops && s.loops[r].pc.Locked?
    case TimerStep(r) => r in s.loops && s.loops[r].pc.Waiting?
    case ResumeStep(r) => r in s.loops && s.loops[r].pc.Resumed?
    case UnwindStep(r) => r in s.loops && s.loops[r].pc.Unwinding?
    case AssignStep(r) => r in s.loops && s.loops[r].pc.Committed?
    case CancelFinishStep(r) => r in s.loops && s.loops[r].pc.Revoking?
    case TelemetryStep(_, _) => NoneCommitted(s)
    case _ => true
  }

  ghost function Apply(s: State, step: Step): State
    requires Enabled(s, step)
  {
    match step
    case RequestStep(r, rider, pickup, dropoff, config, newId) => Request(s, r, rider, pickup, dropoff, config, newId)
    case TopStep(r, candidates, lockAt) => Top(s, r, candidates, lockAt)
    case PublishStep(r) => Publish(s, r)
    case RespondStep(r, driver, accept) => Respond(s, r, driver, accept)
    case TimerStep(r) => Settle(s, r, TimedOut)
    case ResumeStep(r) => Resume(s, r)
    case UnwindStep(r) => Unwind(s, r)
    case AssignStep(r) => Assign(s, r)
    case CancelStartStep(r, actor, reason) => CancelStart(s, r, actor, reason)
    case CancelFinishStep(r) => CancelFinish(s, r)
    case RematchStep(tripId, reason, config) => Rematch(s, tripId, reason, config)
    case MilestoneStep(tripId, driver, to) => ReachMilestone(s, tripId, driver, to)
    case TelemetryStep(driver, pos) => Telemetry(s, driver, pos)
    case SocketCloseStep(driver) => SocketClose(s, driver)
    case RegisterStep(driver, pos, status) => s.(reg := RegisterDriver(s.reg, driver, pos, status, s.now))
    case EvictStep(order, timeoutMs) => s.(reg := EvictStale(s.reg, order, timeoutMs, s.now))
    case TickStep(ms) => s.(now := s.now + ms)
  }

  predicate Init(s: State) {
    && s.reg.drivers == map[] && s.reg.index == map[] && s.reg.sent == []
    && s.m == EMPTY && s.loops == map[] && s.offers == map[] && s.aborted == {}
  }
}
