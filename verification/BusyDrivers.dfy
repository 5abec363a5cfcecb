/** No driver is kept busy for nothing: while a driver is busy, somebody has it. */
module BusyDrivers {
  import opened Geometry
  import opened Candidates
  import opened RegistryModel
  import opened TripModel
  import opened TripLaws
  import opened Dispatch
  import opened DispatchSafety
  import opened DispatchTheorems
  import opened DispatchEffects
  import opened DispatchCounterexample

  predicate IsBusy(reg: Registry, d: Id) {
    d in reg.drivers && reg.drivers[d].status == Busy
  }

  /** Every busy driver is on a trip, or committed to a loop about to assign it. */
  ghost predicate BusyOwned(s: State) {
    forall d {:trigger IsBusy(s.reg, d)} | IsBusy(s.reg, d) :: Engaged(s, d)
  }

  /** The two steps after which a busy driver belongs to nobody: a rematch, which does not free the driver it takes off
      the trip, and a registration as busy. */
  predicate Strays(s: State, step: Step) {
    match step
    case RematchStep(tripId, _, _) =>
      && tripId in s.m.trips && s.m.trips[tripId].status in {EnRoute, Arrived}
      && s.m.trips[tripId].driverId.Some? && IsBusy(s.reg, s.m.trips[tripId].driverId.value)
    case RegisterStep(d, _, status) => d !in s.reg.drivers && status == Busy
    case _ => false
  }

  // ---- Nobody new is busy, and nobody is let go ----

  ghost predicate NotBusier(reg: Registry, reg': Registry) {
    forall d {:trigger IsBusy(reg', d)} | IsBusy(reg', d) :: IsBusy(reg, d)
  }

  ghost predicate CommitsKept(s: State, s': State, d: Id) {
    forall q {:trigger s.loops[q]} | q in s.loops && s.loops[q].pc.Committed? && s.loops[q].pc.attempt.driver != d ::
      q in s'.loops && s'.loops[q].pc == s.loops[q].pc
  }

  /** Driver `d` apart, whoever had a driver still has it. */
  lemma OwnersKept(s: State, s': State, d: Id)
    requires BusyOwned(s) && CommitsKept(s, s', d) && s.m.activeDrivers.Keys - {d} <= s'.m.activeDrivers.Keys
    requires (forall e | e != d && IsBusy(s'.reg, e) :: IsBusy(s.reg, e)) && (IsBusy(s'.reg, d) ==> Engaged(s', d))
    ensures BusyOwned(s')
  {
    forall e | IsBusy(s'.reg, e) ensures Engaged(s', e) {
      if e != d && e !in s.m.activeDrivers {
        var r :| r in s.loops && CommitsTo(s.loops[r], e);
        assert CommitsTo(s'.loops[r], e);
      }
    }
  }

  ghost predicate LoopsKept(s: State, s': State) {
    forall q {:trigger s.loops[q]} | q in s.loops && s.loops[q].pc.Committed? ::
      q in s'.loops && s'.loops[q].pc == s.loops[q].pc
  }

  lemma QuietKeeps(s: State, s': State)
    requires BusyOwned(s) && NotBusier(s.reg, s'.reg) && LoopsKept(s, s')
    requires s.m.activeDrivers.Keys <= s'.m.activeDrivers.Keys
    ensures BusyOwned(s')
  {
    forall e | IsBusy(s'.reg, e) ensures Engaged(s', e) {
      if e !in s.m.activeDrivers {
        var r :| r in s.loops && CommitsTo(s.loops[r], e);
        assert CommitsTo(s'.loops[r], e);
      }
    }
  }

  lemma OneLoopKept(s: State, s': State, r: Id)
    requires s'.loops - {r} == s.loops - {r} && (r in s.loops ==> !s.loops[r].pc.Committed?)
    ensures LoopsKept(s, s')
  {
    forall q | q in s.loops && s.loops[q].pc.Committed? ensures q in s'.loops && s'.loops[q].pc == s.loops[q].pc {
      SameLoop(s.loops, s'.loops, r, q);
    }
  }

  // ---- The registry's operations ----

  lemma LeasingMakesNobodyBusy(reg: Registry, d: Id, r: Id, ttlMs: int, now: int)
    ensures NotBusier(reg, AcquireLock(reg, d, r, ttlMs, now).0) && NotBusier(reg, ReleaseLock(reg, d, r).0)
  {
  }

  lemma StatusMakesNobodyBusy(reg: Registry, d: Id, status: Status, now: int)
    requires status != Busy
    ensures NotBusier(reg, SetStatus(reg, d, status, now).0) && !IsBusy(SetStatus(reg, d, status, now).0, d)
  {
  }

  lemma TelemetryMakesNobodyBusy(s: State, d: Id, pos: Pos)
    ensures NotBusier(s.reg, Telemetry(s, d, pos).reg)
  {
    LocationMakesNobodyBusy(s.reg, d, pos, s.now);
    StatusMakesNobodyBusy(UpdateLocation(s.reg, d, pos, s.now).0, d, Available, s.now);
  }

  lemma LocationMakesNobodyBusy(reg: Registry, d: Id, pos: Pos, now: int)
    ensures NotBusier(reg, UpdateLocation(reg, d, pos, now).0)
  {
  }

  lemma {:induction false} EvictionMakesNobodyBusy(reg: Registry, order: seq<Id>, timeoutMs: int, now: int)
    ensures NotBusier(reg, EvictStale(reg, order, timeoutMs, now))
    decreases |order|
  {
    if order != [] {
      var one := if order[0] in reg.drivers && IsStale(reg.drivers[order[0]], timeoutMs, now) then
        EvictOne(reg, order[0])
        else reg;
      EvictionMakesNobodyBusy(one, order[1..], timeoutMs, now);
      forall d | IsBusy(EvictStale(reg, order, timeoutMs, now), d) ensures IsBusy(reg, d) {
        assert IsBusy(one, d);
      }
    }
  }

  // ---- Steps of the loops ----

  lemma TurnOwns(s: State, r: Id, candidates: seq<Candidate>, lockAt: int)
    requires Inv(s) && BusyOwned(s) && Enabled(s, TopStep(r, candidates, lockAt))
    ensures BusyOwned(Top(s, r, candidates, lockAt))
  {
    TurnChanges(s, r, candidates, lockAt);
    OneLoopKept(s, Top(s, r, candidates, lockAt), r);
    QuietKeeps(s, Top(s, r, candidates, lockAt));
  }

  lemma TurnChanges(s: State, r: Id, candidates: seq<Candidate>, lockAt: int)
    requires Core(s) && r in s.loops && s.loops[r].pc.Ready?
    ensures
      var s' := Top(s, r, candidates, lockAt);
      && s'.loops - {r} == s.loops - {r} && s'.m.activeDrivers == s.m.activeDrivers && NotBusier(s.reg, s'.reg)
  {
    GivingUpDrops(s, r);
    if FirstUntried(candidates, s.loops[r].tried).Some? {
      TryingChanges(s, r, FirstUntried(candidates, s.loops[r].tried).value.id, lockAt);
    }
  }

  lemma TryingChanges(s: State, r: Id, d: Id, lockAt: int)
    requires r in s.loops
    ensures
      var s' := TryDriver(s, r, d, lockAt);
      s'.loops - {r} == s.loops - {r} && s'.m == s.m && NotBusier(s.reg, s'.reg)
  {
    var l := s.loops[r];
    LeasingMakesNobodyBusy(s.reg, d, r, MinInt(l.config.offerTimeoutMs, l.deadline - s.now) + LOCK_SAFETY_MARGIN_MS,
                           lockAt);
  }

  lemma GivingUpDrops(s: State, r: Id)
    requires Core(s) && r in s.loops
    ensures GiveUp(s, r).m.activeDrivers == s.m.activeDrivers && GiveUp(s, r).reg == s.reg
    ensures GiveUp(s, r).loops == s.loops - {r}
  {
    assert LoopInv(s, r);
    DriverlessMove(s.m, s.loops[r].tripId, TripStatus.Cancelled, System, Some(GiveUpReason(s.loops[r])), s.now);
  }

  /** A trip without a driver leaves every driver where it is, wherever it moves without one. */
  lemma DriverlessMove(m: Machine, tripId: Id, to: TripStatus, actor: Role, reason: Option<string>, now: int)
    requires tripId in m.trips ==> m.trips[tripId].driverId == None
    requires to != Matched
    ensures Transition(m, tripId, to, actor, reason, None, now).0.activeDrivers == m.activeDrivers
  {
  }

  lemma ResumeOwns(s: State, r: Id)
    requires Inv(s) && BusyOwned(s) && r in s.loops && s.loops[r].pc.Resumed?
    ensures BusyOwned(Resume(s, r))
  {
    var s', d := Resume(s, r), s.loops[r].pc.attempt.driver;
    OneLoopKept(s, s', r);
    CommitBusies(s, r);
    forall q | q in s.loops && s.loops[q].pc.Committed? && s.loops[q].pc.attempt.driver != d
      ensures q in s'.loops && s'.loops[q].pc == s.loops[q].pc
    {
    }
    assert IsBusy(s'.reg, d) && !IsBusy(s.reg, d) ==> CommitsTo(s'.loops[r], d);
    if IsBusy(s'.reg, d) && IsBusy(s.reg, d) && d !in s.m.activeDrivers {
      var q :| q in s.loops && CommitsTo(s.loops[q], d);
      assert CommitsTo(s'.loops[q], d);
    }
    OwnersKept(s, s', d);
  }

  /** Only a commit makes a driver busy, and then the loop has it. */
  lemma CommitBusies(s: State, r: Id)
    requires r in s.loops && s.loops[r].pc.Resumed?
    ensures
      var s', d := Resume(s, r), s.loops[r].pc.attempt.driver;
      && s'.m == s.m && s'.loops - {r} == s.loops - {r}
      && (forall e | e != d && IsBusy(s'.reg, e) :: IsBusy(s.reg, e))
      && (IsBusy(s'.reg, d) ==> IsBusy(s.reg, d) || (r in s'.loops && CommitsTo(s'.loops[r], d)))
  {
  }

  lemma UnwindOwns(s: State, r: Id)
    requires BusyOwned(s) && r in s.loops && s.loops[r].pc.Unwinding?
    ensures BusyOwned(Unwind(s, r))
  {
    OneLoopKept(s, Unwind(s, r), r);
    LeasingMakesNobodyBusy(s.reg, s.loops[r].pc.attempt.driver, r, 0, 0);
    QuietKeeps(s, Unwind(s, r));
  }

  lemma AssignOwns(s: State, r: Id)
    requires Inv(s) && BusyOwned(s) && r in s.loops && s.loops[r].pc.Committed?
    ensures BusyOwned(Assign(s, r))
  {
    var s', d, id := Assign(s, r), s.loops[r].pc.attempt.driver, s.loops[r].tripId;
    StatusMakesNobodyBusy(s.reg, d, Available, s.now);
    AssignSucceeds(s, r);
    if Transition(s.m, id, Matched, System, None, Some(d), s.now).1.Success() {
      AssignedWrites(s.m, id, d, s.now);
    }
    forall q | q in s.loops && s.loops[q].pc.Committed? && s.loops[q].pc.attempt.driver != d
      ensures q in s'.loops && s'.loops[q].pc == s.loops[q].pc
    {
      SameLoop(s.loops, s'.loops, r, q);
    }
    OwnersKept(s, s', d);
  }

  // ---- Steps of riders and drivers ----

  lemma RequestOwns(s: State, r: Id, rider: Id, pickup: Pos, dropoff: Pos, config: Config, newId: Id)
    requires Inv(s) && BusyOwned(s) && Enabled(s, RequestStep(r, rider, pickup, dropoff, config, newId))
    ensures BusyOwned(Request(s, r, rider, pickup, dropoff, config, newId))
  {
    var s' := Request(s, r, rider, pickup, dropoff, config, newId);
    RequestLeaves(s, r, rider, pickup, dropoff, config, newId);
    RequestTakesNobody(s, r, rider, pickup, dropoff, config, newId);
    QuietKeeps(s, s');
  }

  lemma RequestTakesNobody(s: State, r: Id, rider: Id, pickup: Pos, dropoff: Pos, config: Config, newId: Id)
    requires Inv(s) && Fresh(s, newId)
    ensures
      var s' := Request(s, r, rider, pickup, dropoff, config, newId);
      s'.m.activeDrivers == s.m.activeDrivers && s'.reg == s.reg
  {
    var (m, res) := CreateTrip(s.m, r, rider, pickup, dropoff, newId, s.now);
    CreatesIff(s.m, r, rider, pickup, dropoff, newId, s.now);
    if res.Created? {
      StartTakesNobody(s.(m := m), r, newId, pickup, config);
    } else {
      ReplayFinds(s.m, r, rider, pickup, dropoff, newId, s.now);
    }
  }

  lemma StartTakesNobody(s: State, r: Id, tripId: Id, pickup: Pos, config: Config)
    requires tripId in s.m.trips && s.m.trips[tripId].driverId == None
    ensures
      var s' := StartLoop(s, r, tripId, pickup, None, config);
      s'.m.activeDrivers == s.m.activeDrivers && s'.reg == s.reg
  {
    DriverlessMove(s.m, tripId, Matching, System, None, s.now);
  }

  /** Ending a trip, again or not, leaves its driver not busy if it succeeds, and touches nobody else. */
  lemma EndOwns(s: State, s0: State, tripId: Id, to: TripStatus, actor: Role, reason: Option<string>)
    requires Core(s0) && BusyOwned(s0) && tripId in s.m.trips && (to == Completed || to == TripStatus.Cancelled)
    requires s0.reg == s.reg && s0.m == s.m && LoopsKept(s0, s)
    ensures BusyOwned(EndTrip(s, tripId, to, actor, reason))
  {
    var s', t := EndTrip(s, tripId, to, actor, reason), s.m.trips[tripId];
    EndLetsGo(s.m, tripId, to, actor, reason, s.now);
    if t.driverId.Some? && Transition(s.m, tripId, to, actor, reason, None, s.now).1.Success() {
      StatusMakesNobodyBusy(s.reg, t.driverId.value, Available, s.now);
      EndTripParts(s, tripId, to, actor, reason);
      OwnersKept(s0, s', t.driverId.value);
    } else {
      EndTripElse(s, tripId, to, actor, reason);
      QuietKeeps(s0, s');
    }
  }

  lemma EndTripElse(s: State, tripId: Id, to: TripStatus, actor: Role, reason: Option<string>)
    requires tripId in s.m.trips
    requires s.m.trips[tripId].driverId == None || !Transition(s.m, tripId, to, actor, reason, None, s.now).1.Success()
    ensures EndTrip(s, tripId, to, actor, reason) ==
              s.(m := Transition(s.m, tripId, to, actor, reason, None, s.now).0)
  {
  }

  lemma EndLetsGo(m: Machine, tripId: Id, to: TripStatus, actor: Role, reason: Option<string>, now: int)
    requires MachineOk(m) && tripId in m.trips && (to == Completed || to == TripStatus.Cancelled)
    ensures
      var (m', res) := Transition(m, tripId, to, actor, reason, None, now);
      var d := m.trips[tripId].driverId;
      && (!res.Success() || d == None ==> m'.activeDrivers == m.activeDrivers)
      && (d.Some? ==> m.activeDrivers.Keys - {d.value} <= m'.activeDrivers.Keys)
  {
    MovedOrNot(m, tripId, to, actor, reason, None, now);
    if Transition(m, tripId, to, actor, reason, None, now).1.Moved? {
      MoveWrites(m, tripId, to, actor, reason, None, now);
    }
  }

  lemma FinishOwns(s: State, s0: State, r: Id, actor: Role, reason: Option<string>)
    requires Core(s0) && BusyOwned(s0) && s0.reg == s.reg && s0.m == s.m && LoopsKept(s0, s)
    ensures BusyOwned(FinishCancel(s, r, actor, reason))
  {
    if TripByRequest(s.m, r).Some? {
      EndOwns(s, s0, TripByRequest(s.m, r).value, TripStatus.Cancelled, actor, reason);
    } else {
      QuietKeeps(s0, s);
    }
  }

  lemma CancelOwns(s: State, r: Id, actor: Role, reason: Option<string>)
    requires Inv(s) && BusyOwned(s)
    ensures BusyOwned(CancelStart(s, r, actor, reason))
  {
    var s1 := s.(aborted := s.aborted + {r});
    if r in s.offers && r in s.loops && s.loops[r].pc.Waiting? {
      LeasingMakesNobodyBusy(s.reg, s.offers[r].driver, r, 0, 0);
      OneLoopKept(s, CancelStart(s, r, actor, reason), r);
      QuietKeeps(s, CancelStart(s, r, actor, reason));
    } else {
      FinishOwns(s1, s, r, actor, reason);
    }
  }

  lemma CancelFinishOwns(s: State, r: Id)
    requires Inv(s) && BusyOwned(s) && r in s.loops && s.loops[r].pc.Revoking?
    ensures BusyOwned(CancelFinish(s, r))
  {
    var pc := s.loops[r].pc;
    var s1 := WithPc(s, r, Resumed(pc.attempt, Withdrawn));
    OneLoopKept(s, s1, r);
    FinishOwns(s1, s, r, pc.actor, pc.why);
  }

  lemma MilestoneOwns(s: State, tripId: Id, d: Id, to: TripStatus)
    requires Inv(s) && BusyOwned(s)
    ensures BusyOwned(ReachMilestone(s, tripId, d, to))
  {
    if tripId in s.m.trips && s.m.trips[tripId].driverId == Some(d) {
      if to == Completed {
        EndOwns(s, s, tripId, Completed, Driving, None);
      } else if to in {EnRoute, Arrived, InProgress} {
        MilestoneIff(s, tripId, d, to);
        StepIsMilestone(s, tripId, d, to);
        QuietKeeps(s, ReachMilestone(s, tripId, d, to));
      }
    }
  }

  lemma RematchOwnsIff(s: State, tripId: Id, reason: Option<string>, config: Config)
    requires Inv(s) && BusyOwned(s)
    ensures BusyOwned(Rematch(s, tripId, reason, config)) <==> !Strays(s, RematchStep(tripId, reason, config))
  {
    if tripId in s.m.trips && s.m.trips[tripId].status in {EnRoute, Arrived} {
      RematchIff(s, tripId, reason, config);
      StepIsRematch(s, tripId, reason, config);
      OnTripNoLoop(s, tripId);
      DriverLetGo(s, Rematch(s, tripId, reason, config), tripId, config);
    } else if tripId in s.m.trips {
      RematchIff(s, tripId, reason, config);
      StepIsRematch(s, tripId, reason, config);
    }
  }

  /** The driver a rematch takes off a trip belongs to nobody. */
  lemma LetGo(s: State, s': State, tripId: Id, config: Config)
    requires Inv(s) && tripId in s.m.trips && s.m.trips[tripId].status in {EnRoute, Arrived}
    requires s.m.trips[tripId].driverId.Some? && s.m.trips[tripId].requestId !in s.loops
    requires SearchesAgain(s, s', tripId, config)
    ensures !Engaged(s', s.m.trips[tripId].driverId.value)
  {
    var d, r := s.m.trips[tripId].driverId.value, s.m.trips[tripId].requestId;
    assert TripOk(s.m, tripId);
    forall q | q in s'.loops ensures !CommitsTo(s'.loops[q], d) {
      if q != r {
        assert s'.loops[q] == s.loops[q] && LoopInv(s, q);
      }
    }
  }

  lemma DriverLetGo(s: State, s': State, tripId: Id, config: Config)
    requires Inv(s) && BusyOwned(s) && tripId in s.m.trips && s.m.trips[tripId].status in {EnRoute, Arrived}
    requires s.m.trips[tripId].driverId.Some? && s.m.trips[tripId].requestId !in s.loops
    requires SearchesAgain(s, s', tripId, config)
    ensures BusyOwned(s') <==> !IsBusy(s.reg, s.m.trips[tripId].driverId.value)
  {
    var d := s.m.trips[tripId].driverId.value;
    LetGo(s, s', tripId, config);
    if !IsBusy(s.reg, d) {
      OwnersKept(s, s', d);
    } else {
      assert IsBusy(s'.reg, d);
    }
  }

  lemma RegisterOwnsIff(s: State, d: Id, pos: Pos, status: Status)
    requires Inv(s) && BusyOwned(s)
    ensures
      BusyOwned(s.(reg := RegisterDriver(s.reg, d, pos, status, s.now))) <==> !Strays(s, RegisterStep(d, pos, status))
  {
    var s' := s.(reg := RegisterDriver(s.reg, d, pos, status, s.now));
    Registered(s.reg, d, pos, status, s.now);
    if Strays(s, RegisterStep(d, pos, status)) {
      if Engaged(s, d) {
        EngagedOffMarket(s, d);
      }
      assert Engaged(s', d) ==> Engaged(s, d);
      assert IsBusy(s'.reg, d);
    } else {
      QuietKeeps(s, s');
    }
  }

  lemma Registered(reg: Registry, d: Id, pos: Pos, status: Status, now: int)
    ensures
      var reg' := RegisterDriver(reg, d, pos, status, now);
      if d !in reg.drivers && status == Busy then IsBusy(reg', d) else NotBusier(reg, reg')
  {
  }

  // ---- Every step, every run ----

  /** A step leaves every busy driver with an owner if and only if it is neither a rematch of a trip with a busy driver
      nor the registration of a new driver as busy. */
  lemma StepOwnsIff(s: State, step: Step)
    requires Inv(s) && Enabled(s, step) && BusyOwned(s)
    ensures BusyOwned(Apply(s, step)) <==> !Strays(s, step)
  {
    match step
    case RequestStep(r, rider, pickup, dropoff, config, newId) =>
      RequestOwns(s, r, rider, pickup, dropoff, config, newId);
    case TopStep(r, candidates, lockAt) => StepIsTop(s, r, candidates, lockAt); TurnOwns(s, r, candidates, lockAt);
    case ResumeStep(r) => StepIsResume(s, r); ResumeOwns(s, r);
    case UnwindStep(r) => UnwindOwns(s, r);
    case AssignStep(r) => StepIsAssign(s, r); AssignOwns(s, r);
    case CancelStartStep(r, actor, reason) => StepIsCancel(s, r, actor, reason); CancelOwns(s, r, actor, reason);
    case CancelFinishStep(r) => StepIsFinish(s, r); CancelFinishOwns(s, r);
    case RematchStep(tripId, reason, config) =>
      StepIsRematch(s, tripId, reason, config);
      RematchOwnsIff(s, tripId, reason, config);
    case MilestoneStep(tripId, d, to) => StepIsMilestone(s, tripId, d, to); MilestoneOwns(s, tripId, d, to);
    case RegisterStep(d, pos, status) => RegisterOwnsIff(s, d, pos, status);
    case TelemetryStep(d, pos) => StepIsTelemetry(s, d, pos); TelemetryOwns(s, d, pos);
    case SocketCloseStep(d) => SocketCloseOwns(s, d);
    case EvictStep(order, timeoutMs) => EvictOwns(s, order, timeoutMs);
    case TickStep(ms) => QuietKeeps(s, s.(now := s.now + ms));
    case _ => OfferOwns(s, step);
  }

  lemma OfferOwns(s: State, step: Step)
    requires Enabled(s, step) && BusyOwned(s) && (step.PublishStep? || step.RespondStep? || step.TimerStep?)
    ensures BusyOwned(Apply(s, step))
  {
    var s' := Apply(s, step);
    if s' != s {
      assert step.r in s.loops && !s.loops[step.r].pc.Committed? && s'.loops - {step.r} == s.loops - {step.r};
      OneLoopKept(s, s', step.r);
      QuietKeeps(s, s');
    }
  }

  lemma TelemetryOwns(s: State, d: Id, pos: Pos)
    requires BusyOwned(s)
    ensures BusyOwned(Telemetry(s, d, pos))
  {
    TelemetryMakesNobodyBusy(s, d, pos);
    QuietKeeps(s, Telemetry(s, d, pos));
  }

  lemma SocketCloseOwns(s: State, d: Id)
    requires BusyOwned(s)
    ensures BusyOwned(SocketClose(s, d))
  {
    StatusMakesNobodyBusy(s.reg, d, Offline, s.now);
    QuietKeeps(s, SocketClose(s, d));
  }

  lemma EvictOwns(s: State, order: seq<Id>, timeoutMs: int)
    requires BusyOwned(s)
    ensures BusyOwned(s.(reg := EvictStale(s.reg, order, timeoutMs, s.now)))
  {
    EvictionMakesNobodyBusy(s.reg, order, timeoutMs, s.now);
    QuietKeeps(s, s.(reg := EvictStale(s.reg, order, timeoutMs, s.now)));
  }

  ghost predicate StraysNowhere(states: seq<State>, steps: seq<Step>) {
    |steps| < |states| && forall n {:trigger Strays(states[n], steps[n])} | 0 <= n < |steps| ::
      !Strays(states[n], steps[n])
  }

  /** In a run without such steps, in every state: whoever is busy is on a trip or about to be. */
  lemma {:induction false} EveryBusyOwned(states: seq<State>, steps: seq<Step>, i: nat)
    requires IsRun(states, steps) && StraysNowhere(states, steps) && i < |states|
    ensures BusyOwned(states[i])
  {
    if i > 0 {
      EveryBusyOwned(states, steps, i - 1);
      RunInv(states, steps, i - 1);
      RunStep(states, steps, i - 1);
      assert !Strays(states[i - 1], steps[i - 1]);
      StepOwnsIff(states[i - 1], steps[i - 1]);
    }
  }

  // ---- A driver lost ----

  /** One ride, whose driver sets out: a rematch then leaves the driver busy and with nobody. */
  lemma RematchLosesDriver() returns (s: State, step: Step)
    ensures Reachable(s) && Enabled(s, step) && Careful(s, step) && step.RematchStep? && Strays(s, step)
    ensures IsBusy(Apply(s, step).reg, D) && !Engaged(Apply(s, step), D)
  {
    var t := Id("t");
    var s0 := OneDriver();
    var s1 := Serve(s0, Id("r"), Id("a"), t, D);
    ReachableInv(s1);
    MilestoneIff(s1, t, D, EnRoute);
    ReachableStep(s1, MilestoneStep(t, D, EnRoute));
    s := Apply(s1, MilestoneStep(t, D, EnRoute));
    step := RematchStep(t, None, CONFIG);
    ReachableInv(s);
    RematchIff(s, t, None, CONFIG);
    LetGo(s, Apply(s, step), t, CONFIG);
  }

  /** Neither its reports nor connecting again make such a driver available. */
  lemma ReportsDoNotHelp(s: State, d: Id, pos: Pos, status: Status)
    requires Inv(s) && IsBusy(s.reg, d)
    ensures NoneCommitted(s) ==> IsBusy(Apply(s, TelemetryStep(d, pos)).reg, d)
    ensures IsBusy(Apply(s, RegisterStep(d, pos, status)).reg, d)
  {
    if NoneCommitted(s) {
      TelemetryIff(s, d, pos);
    }
  }
}
