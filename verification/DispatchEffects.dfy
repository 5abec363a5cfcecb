/** What each step of the dispatch protocol does for riders and drivers, about the state it leads to. */
module DispatchEffects {
  import opened Geometry
  import opened Candidates
  import opened RegistryModel
  import opened TripModel
  import opened Dispatch
  import opened DispatchSafety
  import opened TripLaws

  /** The driver takes riders, nobody has reserved it, and searches find it here. */
  predicate FreeAt(reg: Registry, d: Id, pos: Pos) {
    && d in reg.drivers && reg.drivers[d].status == Available && reg.drivers[d].lock == None
    && reg.drivers[d].pos == pos && d in reg.index && reg.index[d] == pos
  }

  // ---- Which function a step is ----

  lemma StepIsResume(s: State, r: Id)
    requires r in s.loops && s.loops[r].pc.Resumed?
    ensures Apply(s, ResumeStep(r)) == Resume(s, r)
  {
  }

  lemma StepIsAssign(s: State, r: Id)
    requires r in s.loops && s.loops[r].pc.Committed?
    ensures Apply(s, AssignStep(r)) == Assign(s, r)
  {
  }

  lemma StepIsCancel(s: State, r: Id, actor: Role, reason: Option<string>)
    ensures Apply(s, CancelStartStep(r, actor, reason)) == CancelStart(s, r, actor, reason)
  {
  }

  lemma StepIsFinish(s: State, r: Id)
    requires r in s.loops && s.loops[r].pc.Revoking?
    ensures Apply(s, CancelFinishStep(r)) == CancelFinish(s, r)
  {
  }

  lemma StepIsMilestone(s: State, tripId: Id, d: Id, to: TripStatus)
    ensures Apply(s, MilestoneStep(tripId, d, to)) == ReachMilestone(s, tripId, d, to)
  {
  }

  lemma StepIsRematch(s: State, tripId: Id, reason: Option<string>, config: Config)
    ensures Apply(s, RematchStep(tripId, reason, config)) == Rematch(s, tripId, reason, config)
  {
  }

  lemma StepIsTelemetry(s: State, d: Id, pos: Pos)
    requires NoneCommitted(s)
    ensures Apply(s, TelemetryStep(d, pos)) == Telemetry(s, d, pos)
  {
  }

  lemma StepIsTick(s: State, ms: nat)
    ensures Apply(s, TickStep(ms)) == s.(now := s.now + ms)
  {
  }

  lemma StepIsTop(s: State, r: Id, candidates: seq<Candidate>, lockAt: int)
    requires Enabled(s, TopStep(r, candidates, lockAt))
    ensures Apply(s, TopStep(r, candidates, lockAt)) == Top(s, r, candidates, lockAt)
  {
  }

  // ---- Answers to an offer ----

  /** The answer of the offer's driver decides the offer as given, if it comes before the deadline; the offer is then
      closed, and nothing else has changed. */
  lemma ResponseDecides(s: State, r: Id, driver: Id, accept: bool)
    requires Inv(s) && r in s.offers && s.offers[r].driver == driver
    ensures
      var s' := Apply(s, RespondStep(r, driver, accept));
      && r in s.loops && s.loops[r].pc.Waiting? && r in s'.loops && s'.loops[r].pc.Resumed?
      && s'.loops[r].pc.attempt == s.loops[r].pc.attempt
      && (s'.loops[r].pc.outcome == Accepted <==> accept && s.now < s.offers[r].expiresAt)
      && (s'.loops[r].pc.outcome == Rejected <==> !accept && s.now < s.offers[r].expiresAt)
      && (s'.loops[r].pc.outcome == TimedOut <==> s.offers[r].expiresAt <= s.now)
      && s'.offers == s.offers - {r} && s'.reg == s.reg && s'.m == s.m && s'.aborted == s.aborted && s'.now == s.now
      && s'.loops == s.loops[r := s.loops[r].(pc := s'.loops[r].pc)]
  {
    assert LoopInv(s, r);
  }

  /** Nobody else's answer, and no answer to a closed offer, does anything. */
  lemma StrangersIgnored(s: State, r: Id, driver: Id, accept: bool)
    requires r !in s.offers || s.offers[r].driver != driver
    ensures Apply(s, RespondStep(r, driver, accept)) == s
  {
  }

  /** The timer closes the offer as not answered. */
  lemma TimerTimesOut(s: State, r: Id)
    requires Inv(s) && r in s.loops && s.loops[r].pc.Waiting?
    ensures
      var s' := Apply(s, TimerStep(r));
      && s'.loops == s.loops[r := s.loops[r].(pc := Resumed(s.loops[r].pc.attempt, TimedOut))]
      && r in s.offers && s'.offers == s.offers - {r} && s'.reg == s.reg && s'.m == s.m
  {
    assert LoopInv(s, r);
  }

  /** Giving back a lease makes its driver free where it is; without the lease nothing changes for the driver. */
  lemma ReleaseFrees(reg: Registry, d: Id, r: Id)
    requires RegistryOk(reg) && d in reg.drivers
    ensures
      var reg' := ReleaseLock(reg, d, r).0;
      && (Holder(reg, d) == Some(r) ==> FreeAt(reg', d, reg.drivers[d].pos))
      && (Holder(reg, d) != Some(r) ==> reg'.drivers == reg.drivers && reg'.index == reg.index)
  {
    assert DriverOk(reg, d);
  }

  /** After a rejection or a timeout the driver is free again, if its lease had not gone otherwise; the loop goes on
      to its next turn, and the trip still waits. */
  lemma DeclinedGoesOn(s: State, r: Id)
    requires Inv(s) && r in s.loops && s.loops[r].pc.Resumed? && r !in s.aborted
    requires s.loops[r].pc.outcome == Rejected || s.loops[r].pc.outcome == TimedOut
    ensures
      var s', d := Apply(s, ResumeStep(r)), s.loops[r].pc.attempt.driver;
      && d in s.reg.drivers && s'.m == s.m && StatusOf(s'.m, s.loops[r].tripId) == Some(Matching)
      && s'.loops == s.loops[r := s.loops[r].(i := s.loops[r].i + 1, pc := Ready)]
      && (Holder(s.reg, d) == Some(r) ==> FreeAt(s'.reg, d, s.reg.drivers[d].pos) && d !in s'.m.activeDrivers)
      && (Holder(s.reg, d) != Some(r) ==> s'.reg.drivers == s.reg.drivers && s'.reg.index == s.reg.index)
  {
    StepIsResume(s, r);
    var d := s.loops[r].pc.attempt.driver;
    assert LoopInv(s, r) && DriverInv(s, d) && DriverOk(s.reg, d);
    ReleaseFrees(s.reg, d, r);
  }

  /** The loop has gone on to its next turn, its trip still waits, and the driver is free and on no trip. */
  predicate BackOnMarket(s: State, s': State, r: Id, d: Id)
    requires r in s.loops && d in s.reg.drivers
  {
    && s'.loops == s.loops[r := s.loops[r].(i := s.loops[r].i + 1, pc := Ready)]
    && StatusOf(s'.m, s.loops[r].tripId) == Some(Matching)
    && FreeAt(s'.reg, d, s.reg.drivers[d].pos) && d !in s'.m.activeDrivers
    && forall id | id in s'.m.trips && Active(s'.m.trips[id]) :: s'.m.trips[id].driverId != Some(d)
  }

  /** A driver that says no is free again, and on no trip, as soon as the loop hears of it. */
  lemma RejectionFrees(s: State, r: Id, driver: Id)
    requires Inv(s) && r in s.offers && s.offers[r].driver == driver && s.now < s.offers[r].expiresAt
    requires r in s.loops && r !in s.aborted && Holder(s.reg, driver) == Some(r)
    ensures
      var s1 := Apply(s, RespondStep(r, driver, false));
      Enabled(s1, ResumeStep(r)) && BackOnMarket(s, Apply(s1, ResumeStep(r)), r, driver)
  {
    assert LoopInv(s, r);
    RespondKeeps(s, r, driver, false);
    ResponseDecides(s, r, driver, false);
    var s1 := Apply(s, RespondStep(r, driver, false));
    DeclinedGoesOn(s1, r);
    Declined(s, s1, Apply(s1, ResumeStep(r)), r, driver);
  }

  lemma Declined(s: State, s1: State, s': State, r: Id, d: Id)
    requires Core(s) && r in s.loops && d in s.reg.drivers && r in s1.loops
    requires s1.loops == s.loops[r := s.loops[r].(pc := s1.loops[r].pc)]
    requires s'.loops == s1.loops[r := s1.loops[r].(i := s1.loops[r].i + 1, pc := Ready)]
    requires s'.m == s.m && StatusOf(s.m, s.loops[r].tripId) == Some(Matching)
    requires FreeAt(s'.reg, d, s.reg.drivers[d].pos) && d !in s.m.activeDrivers
    ensures BackOnMarket(s, s', r, d)
  {
    NobodysDriver(s.m, d);
  }

  lemma NobodysDriver(m: Machine, d: Id)
    requires IndexesOk(m) && d !in m.activeDrivers
    ensures forall id | id in m.trips && Active(m.trips[id]) :: m.trips[id].driverId != Some(d)
  {
    forall id | id in m.trips && Active(m.trips[id]) ensures m.trips[id].driverId != Some(d) {
      assert TripOk(m, id);
    }
  }

  /** A yes is committed exactly while the lease lasts; otherwise the loop unwinds, and a driver whose lease ran out
      is free again. */
  lemma AcceptedCommitsIff(s: State, r: Id)
    requires Inv(s) && r in s.loops && s.loops[r].pc.Resumed? && s.loops[r].pc.outcome == Accepted && r !in s.aborted
    ensures
      var s', a := Apply(s, ResumeStep(r)), s.loops[r].pc.attempt;
      var d := a.driver;
      && d in s.reg.drivers && r in s'.loops && s'.m == s.m
      && s'.loops == s.loops[r := s.loops[r].(pc := s'.loops[r].pc)] && s'.aborted == s.aborted && s'.now == s.now
      && (if Holder(s.reg, d) == Some(r) && s.now < s.reg.drivers[d].lock.value.expiresAt then
            && s'.loops[r].pc == Committed(a) && d !in s'.reg.index
            && s'.reg.drivers[d] == s.reg.drivers[d].(status := Busy, lock := None)
          else
            && s'.loops[r].pc == Unwinding(a)
            && (Holder(s.reg, d) == Some(r) ==> FreeAt(s'.reg, d, s.reg.drivers[d].pos)))
  {
    StepIsResume(s, r);
    var d := s.loops[r].pc.attempt.driver;
    assert LoopInv(s, r) && DriverOk(s.reg, d);
    CommitExact(s.reg, d, r, s.now);
    ReleaseFrees(s.reg, d, r);
  }

  /** The trip has the driver, and the loop and its offer are over. */
  predicate MatchedWith(s: State, s': State, r: Id, d: Id)
    requires r in s.loops
  {
    var id := s.loops[r].tripId;
    && id in s.m.trips
    && s'.m.trips == s.m.trips[id := s.m.trips[id].(status := Matched, driverId := Some(d), matchedAt := Some(s.now))]
    && s'.m.activeDrivers == s.m.activeDrivers[d := id]
    && s'.loops == s.loops - {r} && r !in s'.offers
  }

  /** The trip a commit is for gets the driver, unless the driver's id is blank; then the driver is free again. */
  lemma CommitMatches(s: State, r: Id)
    requires Inv(s) && r in s.loops && s.loops[r].pc.Committed? && r !in s.aborted
    ensures
      var s', d := Apply(s, AssignStep(r)), s.loops[r].pc.attempt.driver;
      && d in s.reg.drivers && (!Blank(d) ==> MatchedWith(s, s', r, d) && s'.reg == s.reg)
      && (Blank(d) ==> BackOnMarket(s, s', r, d) && s'.m == s.m)
  {
    StepIsAssign(s, r);
    var d, id := s.loops[r].pc.attempt.driver, s.loops[r].tripId;
    assert LoopInv(s, r) && DriverOk(s.reg, d);
    AssignSucceeds(s, r);
    if Blank(d) {
      MadeFree(s.reg, d, s.now);
      NobodysDriver(s.m, d);
    } else {
      AssignedWrites(s.m, id, d, s.now);
    }
  }

  lemma AssignedWrites(m: Machine, id: Id, d: Id, now: int)
    requires MachineOk(m) && Transition(m, id, Matched, System, None, Some(d), now).1.Moved?
    ensures
      var m' := Transition(m, id, Matched, System, None, Some(d), now).0;
      id in m.trips && m'.activeDrivers == m.activeDrivers[d := id]
        && m'.trips == m.trips[id := m.trips[id].(status := Matched, driverId := Some(d), matchedAt := Some(now))]
  {
    MoveWrites(m, id, Matched, System, None, Some(d), now);
  }

  /** An answer in time to an offer whose publication took less than three seconds: the trip is matched with the
      driver, who is busy and not found, and the loop is over. */
  lemma AcceptanceMatches(s: State, r: Id, driver: Id)
    requires Inv(s) && r in s.offers && s.offers[r].driver == driver && s.now < s.offers[r].expiresAt
    requires r !in s.aborted && Holder(s.reg, driver) == Some(r) && !Blank(driver) && r in s.loops
    requires s.loops[r].pc.Waiting? && s.loops[r].pc.publishedAt - s.loops[r].pc.attempt.lockedAt < 3000
    ensures
      var s1 := Apply(s, RespondStep(r, driver, true));
      Enabled(s1, ResumeStep(r)) &&
      var s2 := Apply(s1, ResumeStep(r));
      Enabled(s2, AssignStep(r)) &&
      var s' := Apply(s2, AssignStep(r));
      && MatchedWith(s, s', r, driver) && driver in s.reg.drivers && driver in s'.reg.drivers
      && s'.reg.drivers[driver] == s.reg.drivers[driver].(status := Busy, lock := None) && driver !in s'.reg.index
  {
    AcceptanceCommits(s, r, driver);
    var s2 := Apply(Apply(s, RespondStep(r, driver, true)), ResumeStep(r));
    CommitMatches(s2, r);
    MatchedSince(s, s2, Apply(s2, AssignStep(r)), r, driver);
  }

  /** Such an answer takes the driver off the market for this loop. */
  lemma AcceptanceCommits(s: State, r: Id, driver: Id)
    requires Inv(s) && r in s.offers && s.offers[r].driver == driver && s.now < s.offers[r].expiresAt
    requires r !in s.aborted && Holder(s.reg, driver) == Some(r) && r in s.loops
    requires s.loops[r].pc.Waiting? && s.loops[r].pc.publishedAt - s.loops[r].pc.attempt.lockedAt < 3000
    ensures
      var s1 := Apply(s, RespondStep(r, driver, true));
      Enabled(s1, ResumeStep(r)) &&
      var s2, a := Apply(s1, ResumeStep(r)), s.loops[r].pc.attempt;
      && Inv(s2) && s2.m == s.m && s2.now == s.now && s2.aborted == s.aborted && a.driver == driver
      && s2.loops == s.loops[r := s.loops[r].(pc := Committed(a))]
      && driver in s.reg.drivers && driver in s2.reg.drivers && driver !in s2.reg.index
      && s2.reg.drivers[driver] == s.reg.drivers[driver].(status := Busy, lock := None)
  {
    assert LoopInv(s, r) && DriverInv(s, driver);
    RespondKeeps(s, r, driver, true);
    ResponseDecides(s, r, driver, true);
    var s1 := Apply(s, RespondStep(r, driver, true));
    AcceptedCommitsIff(s1, r);
    ResumeKeeps(s1, r);
    StepIsResume(s1, r);
  }

  lemma MatchedSince(s: State, s2: State, s': State, r: Id, d: Id)
    requires r in s.loops && s2.loops.Keys == s.loops.Keys && s2.loops - {r} == s.loops - {r}
    requires s2.loops[r].tripId == s.loops[r].tripId && s2.m == s.m && s2.now == s.now
    requires MatchedWith(s2, s', r, d)
    ensures MatchedWith(s, s', r, d)
  {
  }

  // ---- The end of a trip ----

  lemma MadeFree(reg: Registry, d: Id, now: int)
    requires RegistryOk(reg) && OffMarket(reg, d)
    ensures FreeAt(CompleteTrip(reg, d, now).0, d, reg.drivers[d].pos) && CompleteTrip(reg, d, now).1
    ensures OnlyTouches(reg, CompleteTrip(reg, d, now).0, d)
  {
    assert DriverOk(reg, d);
    SetStatusOk(reg, d, Available, now);
  }

  /** The trip has ended, and its driver is free where it is. */
  ghost predicate Ends(s: State, s': State, tripId: Id, to: TripStatus, actor: Role)
    requires tripId in s.m.trips && s.m.trips[tripId].driverId.Some?
  {
    var d := s.m.trips[tripId].driverId.value;
    && TripOver(s.m, s'.m, tripId, to, actor)
    && d in s.reg.drivers && FreeAt(s'.reg, d, s.reg.drivers[d].pos) && OnlyTouches(s.reg, s'.reg, d)
  }

  lemma EndFrees(s: State, tripId: Id, to: TripStatus, actor: Role, reason: Option<string>)
    requires Core(s) && tripId in s.m.trips && s.m.trips[tripId].driverId.Some?
    requires to == Completed || to == TripStatus.Cancelled
    requires MayMove(s.m.trips[tripId].status, to, actor)
    ensures Ends(s, EndTrip(s, tripId, to, actor, reason), tripId, to, actor)
  {
    EndsTrip(s.m, tripId, to, actor, reason, s.now);
    RidersDriver(s, tripId);
    MadeFree(s.reg, s.m.trips[tripId].driverId.value, s.now);
    EndTripParts(s, tripId, to, actor, reason);
  }

  lemma EndTripParts(s: State, tripId: Id, to: TripStatus, actor: Role, reason: Option<string>)
    requires tripId in s.m.trips && s.m.trips[tripId].driverId.Some?
    requires Transition(s.m, tripId, to, actor, reason, None, s.now).1.Success()
    ensures
      var s' := EndTrip(s, tripId, to, actor, reason);
      && s'.m == Transition(s.m, tripId, to, actor, reason, None, s.now).0
      && s'.reg == CompleteTrip(s.reg, s.m.trips[tripId].driverId.value, s.now).0
  {
  }

  lemma RidersDriver(s: State, tripId: Id)
    requires Core(s) && tripId in s.m.trips && s.m.trips[tripId].driverId.Some? && Active(s.m.trips[tripId])
    ensures OffMarket(s.reg, s.m.trips[tripId].driverId.value)
  {
    assert TripOk(s.m, tripId);
    assert DriverInv(s, s.m.trips[tripId].driverId.value);
  }

  /** When its driver completes a trip in progress, the trip is over and the driver free. */
  lemma CompletionFrees(s: State, tripId: Id, d: Id)
    requires Inv(s) && tripId in s.m.trips && s.m.trips[tripId].status == InProgress
    requires s.m.trips[tripId].driverId == Some(d)
    ensures Ends(s, Apply(s, MilestoneStep(tripId, d, Completed)), tripId, Completed, Driving)
  {
    StepIsMilestone(s, tripId, d, Completed);
    EndFrees(s, tripId, Completed, Driving, None);
  }

  /** Whoever cancels a trip that has a driver but has not begun: the trip is over and the driver free. */
  lemma CancellationFrees(s: State, tripId: Id, actor: Role, reason: Option<string>)
    requires Inv(s) && tripId in s.m.trips && s.m.trips[tripId].status in {Matched, EnRoute, Arrived}
    ensures
      s.m.trips[tripId].driverId.Some?
      && Ends(s, Apply(s, CancelStartStep(s.m.trips[tripId].requestId, actor, reason)), tripId, TripStatus.Cancelled,
              actor)
  {
    var r := s.m.trips[tripId].requestId;
    OnTripNoLoop(s, tripId);
    EndFreesAborted(s, r, tripId, actor, reason);
    CancelEnds(s, r, tripId, actor, reason);
    StepIsCancel(s, r, actor, reason);
  }

  lemma OnTripNoLoop(s: State, tripId: Id)
    requires Core(s) && tripId in s.m.trips && s.m.trips[tripId].status in {Matched, EnRoute, Arrived}
    ensures s.m.trips[tripId].driverId.Some?
    ensures var r := s.m.trips[tripId].requestId;
            r !in s.loops && r in s.m.requestToTrip && s.m.requestToTrip[r] == tripId
  {
    assert TripOk(s.m, tripId);
    if s.m.trips[tripId].requestId in s.loops {
      LiveLoopsTrip(s, s.m.trips[tripId].requestId, tripId);
    }
  }

  lemma EndFreesAborted(s: State, r: Id, tripId: Id, actor: Role, reason: Option<string>)
    requires Inv(s) && tripId in s.m.trips && s.m.trips[tripId].driverId.Some?
    requires s.m.trips[tripId].status in {Matched, EnRoute, Arrived}
    ensures
      Ends(s, EndTrip(s.(aborted := s.aborted + {r}), tripId, TripStatus.Cancelled, actor, reason), tripId,
           TripStatus.Cancelled, actor)
  {
    AbortKeeps(s, r);
    EndFrees(s.(aborted := s.aborted + {r}), tripId, TripStatus.Cancelled, actor, reason);
  }

  /** Without an open offer a cancellation is the end of the request's trip. */
  lemma CancelEnds(s: State, r: Id, tripId: Id, actor: Role, reason: Option<string>)
    requires r in s.m.requestToTrip && s.m.requestToTrip[r] == tripId && tripId in s.m.trips
    requires r !in s.loops || !s.loops[r].pc.Waiting?
    ensures CancelStart(s, r, actor, reason) ==
              EndTrip(s.(aborted := s.aborted + {r}), tripId, TripStatus.Cancelled, actor, reason)
  {
  }

  /** A trip without a driver ends without touching the registry. */
  lemma EndSearch(s: State, r: Id, tripId: Id, actor: Role, reason: Option<string>)
    requires Core(s) && tripId in s.m.trips && s.m.trips[tripId].status == Matching && actor != Driving
    ensures
      var s' := EndTrip(s.(aborted := s.aborted + {r}), tripId, TripStatus.Cancelled, actor, reason);
      TripOver(s.m, s'.m, tripId, TripStatus.Cancelled, actor) && s' == s.(m := s'.m, aborted := s.aborted + {r})
  {
    assert TripOk(s.m, tripId);
    EndsTrip(s.m, tripId, TripStatus.Cancelled, actor, reason, s.now);
  }

  lemma SearchingTrip(s: State, r: Id)
    requires Core(s) && r in s.loops && StatusOf(s.m, s.loops[r].tripId) == Some(Matching)
    ensures
      var id := s.loops[r].tripId;
      && r in s.m.requestToTrip && s.m.requestToTrip[r] == id && s.m.trips[id].driverId == None
      && (s.loops[r].pc.Waiting? <==> r in s.offers)
  {
    assert LoopInv(s, r) && TripOk(s.m, s.loops[r].tripId);
  }

  // ---- Cancelling a search ----

  /** Cancelling while an offer is open closes the offer and frees its driver at once. */
  lemma CancelRevokesOffer(s: State, r: Id, actor: Role, reason: Option<string>)
    requires Inv(s) && r in s.offers
    ensures
      var s', d := Apply(s, CancelStartStep(r, actor, reason)), s.offers[r].driver;
      && r in s.loops && s'.offers == s.offers - {r} && r in s'.aborted && s'.m == s.m && d in s.reg.drivers
      && s'.loops == s.loops[r := s.loops[r].(pc := Revoking(s.loops[r].pc.attempt, actor, reason))]
      && (Holder(s.reg, d) == Some(r) ==> FreeAt(s'.reg, d, s.reg.drivers[d].pos))
  {
    StepIsCancel(s, r, actor, reason);
    assert LoopInv(s, r);
    ReleaseFrees(s.reg, s.offers[r].driver, r);
  }

  /** Then the trip is cancelled in the canceller's name, if that is not a driver. */
  lemma RevokedTripCancelled(s: State, r: Id)
    requires Inv(s) && r in s.loops && s.loops[r].pc.Revoking? && s.loops[r].pc.actor != Driving
    requires StatusOf(s.m, s.loops[r].tripId) == Some(Matching)
    ensures
      var s', pc := Apply(s, CancelFinishStep(r)), s.loops[r].pc;
      && TripOver(s.m, s'.m, s.loops[r].tripId, TripStatus.Cancelled, pc.actor) && s'.reg == s.reg
      && s'.loops == s.loops[r := s.loops[r].(pc := Resumed(pc.attempt, Withdrawn))]
  {
    StepIsFinish(s, r);
    var id, pc := s.loops[r].tripId, s.loops[r].pc;
    SearchingTrip(s, r);
    EndsTrip(s.m, id, TripStatus.Cancelled, pc.actor, pc.why, s.now);
    FinishEnds(WithPc(s, r, Resumed(pc.attempt, Withdrawn)), r, id, pc.actor, pc.why);
  }

  lemma FinishEnds(s: State, r: Id, tripId: Id, actor: Role, reason: Option<string>)
    requires TripByRequest(s.m, r) == Some(tripId) && s.m.trips[tripId].driverId == None
    ensures FinishCancel(s, r, actor, reason) ==
              s.(m := Transition(s.m, tripId, TripStatus.Cancelled, actor, reason, None, s.now).0)
  {
  }

  /** Cancelling while no offer is open cancels the trip at once. */
  lemma CancelStopsSearch(s: State, r: Id, actor: Role, reason: Option<string>)
    requires Inv(s) && r in s.loops && r !in s.offers && actor != Driving
    requires StatusOf(s.m, s.loops[r].tripId) == Some(Matching)
    ensures
      var s' := Apply(s, CancelStartStep(r, actor, reason));
      && TripOver(s.m, s'.m, s.loops[r].tripId, TripStatus.Cancelled, actor)
      && s' == s.(m := s'.m, aborted := s.aborted + {r})
  {
    StepIsCancel(s, r, actor, reason);
    SearchingTrip(s, r);
    EndSearch(s, r, s.loops[r].tripId, actor, reason);
    CancelEnds(s, r, s.loops[r].tripId, actor, reason);
  }

  /** And the loop ends when it next looks, giving back what it still holds. */
  lemma AbortedLoopEnds(s: State, r: Id)
    requires Inv(s) && r in s.loops && r in s.aborted
    ensures s.loops[r].pc.Ready? ==>
              forall candidates, lockAt | Enabled(s, TopStep(r, candidates, lockAt)) ::
                Apply(s, TopStep(r, candidates, lockAt)) == s.(loops := s.loops - {r}, aborted := s.aborted - {r})
    ensures s.loops[r].pc.Resumed? ==>
              var s', d := Apply(s, ResumeStep(r)), s.loops[r].pc.attempt.driver;
              && s'.loops == s.loops - {r} && s'.aborted == s.aborted - {r} && s'.m == s.m && d in s.reg.drivers
              && (Holder(s.reg, d) == Some(r) ==> FreeAt(s'.reg, d, s.reg.drivers[d].pos))
  {
    assert LoopInv(s, r);
    if s.loops[r].pc.Resumed? {
      ReleaseFrees(s.reg, s.loops[r].pc.attempt.driver, r);
    }
  }

  // ---- A turn of the loop ----

  predicate AllTried(candidates: seq<Candidate>, tried: set<Id>) {
    forall c | c in candidates :: c.id in tried
  }

  predicate TurnsOver(s: State, r: Id, candidates: seq<Candidate>)
    requires r in s.loops
  {
    var l := s.loops[r];
    || l.config.k <= l.i || r in s.aborted || AllTried(candidates, l.tried)
    || l.deadline - s.now < MinInt(1000, l.config.offerTimeoutMs)
  }

  /** The loop has reserved the first untried candidate for the time of its offer and three seconds. */
  ghost predicate Reserved(s: State, s': State, r: Id, candidates: seq<Candidate>, lockAt: int)
    requires r in s.loops && r in s'.loops && s'.loops[r].pc.Locked?
  {
    var l, l', a := s.loops[r], s'.loops[r], s'.loops[r].pc.attempt;
    && a == Attempt(a.driver, MinInt(l.config.offerTimeoutMs, l.deadline - s.now), s.now, lockAt)
    && a.driver !in l.tried && l'.tried == l.tried + {a.driver} && l'.i == l.i
    && (exists n :: 0 <= n < |candidates| && candidates[n].id == a.driver && AllTried(candidates[..n], l.tried))
    && a.driver in s'.reg.drivers && a.driver !in s'.reg.index
    && s'.reg.drivers[a.driver].lock == Some(Lock(r, lockAt + a.timeoutMs + 3000))
  }

  /** A turn ends the loop exactly when its turns, its 30 seconds or its candidates are used up or it was cancelled;
      otherwise it reserves the first untried candidate. */
  lemma TurnLeasesIff(s: State, r: Id, candidates: seq<Candidate>, lockAt: int)
    requires Inv(s) && Enabled(s, TopStep(r, candidates, lockAt))
    ensures
      var s' := Apply(s, TopStep(r, candidates, lockAt));
      && (r !in s'.loops <==> TurnsOver(s, r, candidates))
      && (r in s'.loops ==>
            s'.m == s.m && s'.now == lockAt && s'.loops[r].pc.Locked? && Reserved(s, s', r, candidates, lockAt))
  {
    StepIsTop(s, r, candidates, lockAt);
    var l := s.loops[r];
    UntriedCandidate(candidates, l.tried);
    if !TurnsOver(s, r, candidates) {
      var d := FirstUntried(candidates, l.tried).value.id;
      FirstInOrder(candidates, l.tried);
      assert DriverOk(s.reg, d);
      TriedReserves(s, r, d, candidates, lockAt);
    }
  }

  lemma TriedReserves(s: State, r: Id, d: Id, candidates: seq<Candidate>, lockAt: int)
    requires r in s.loops && d in s.reg.drivers && s.reg.drivers[d].status == Available && s.reg.drivers[d].lock == None
    requires d !in s.loops[r].tried
    requires exists n :: 0 <= n < |candidates| && candidates[n].id == d && AllTried(candidates[..n], s.loops[r].tried)
    ensures
      var s' := TryDriver(s, r, d, lockAt);
      && r in s'.loops && s'.m == s.m && s'.now == lockAt && s'.loops[r].pc.Locked?
      && Reserved(s, s', r, candidates, lockAt)
  {
    var l := s.loops[r];
    LeasedNow(s.reg, d, r, MinInt(l.config.offerTimeoutMs, l.deadline - s.now) + 3000, lockAt);
  }

  lemma LeasedNow(reg: Registry, d: Id, r: Id, ttlMs: int, now: int)
    requires d in reg.drivers && reg.drivers[d].status == Available && reg.drivers[d].lock == None
    ensures
      var (reg', ok) := AcquireLock(reg, d, r, ttlMs, now);
      && ok && d in reg'.drivers && d !in reg'.index && reg'.drivers[d].lock == Some(Lock(r, now + ttlMs))
  {
  }

  lemma {:induction false} FirstInOrder(candidates: seq<Candidate>, tried: set<Id>)
    requires FirstUntried(candidates, tried).Some?
    ensures
      exists n ::
        0 <= n < |candidates| && candidates[n] == FirstUntried(candidates, tried).value
        && AllTried(candidates[..n], tried)
  {
    if candidates[0].id !in tried {
      assert AllTried(candidates[..0], tried);
    } else {
      FirstInOrder(candidates[1..], tried);
      var n :| 0 <= n < |candidates[1..]| && candidates[1..][n] == FirstUntried(candidates[1..], tried).value
        && AllTried(candidates[1..][..n], tried);
      assert candidates[..n + 1] == [candidates[0]] + candidates[1..][..n];
    }
  }

  /** The offer goes to the reserved driver and is open for the time the turn had left. */
  lemma OfferOpens(s: State, r: Id)
    requires Inv(s) && r in s.loops && s.loops[r].pc.Locked?
    ensures
      var s', l, a := Apply(s, PublishStep(r)), s.loops[r], s.loops[r].pc.attempt;
      && s'.offers == s.offers[r := Offer(a.driver, s.now + a.timeoutMs)] && s'.reg == s.reg && s'.m == s.m
      && s'.loops == s.loops[r := l.(pc := Waiting(a, s.now), offered := l.offered + [a.driver])]
      && a.driver !in l.offered && 0 <= l.i < l.config.k
  {
    assert LoopInv(s, r);
  }

  // ---- Rematching ----

  /** A rematch takes the driver off a trip that it is on the way to, or has reached, and starts a search around the
      pickup point with 30 seconds; on any other trip it does nothing. The driver's record stays as it is. */
  lemma RematchIff(s: State, tripId: Id, reason: Option<string>, config: Config)
    requires Inv(s) && tripId in s.m.trips
    ensures
      var s', t := Apply(s, RematchStep(tripId, reason, config)), s.m.trips[tripId];
      if t.status == EnRoute || t.status == Arrived then
        t.driverId.Some? && t.requestId !in s.loops && SearchesAgain(s, s', tripId, config)
      else s' == s
  {
    StepIsRematch(s, tripId, reason, config);
    var t := s.m.trips[tripId];
    if t.status == EnRoute || t.status == Arrived {
      OnTripNoLoop(s, tripId);
      BackToMatching(s.m, tripId, System, reason, s.now);
      Restarted(s, tripId, reason, config);
    } else if t.status != Matching {
      NoRematch(s.m, tripId, reason, s.now);
    }
  }

  lemma Restarted(s: State, tripId: Id, reason: Option<string>, config: Config)
    requires tripId in s.m.trips && s.m.trips[tripId].driverId.Some? && s.m.trips[tripId].status != Matching
    requires
      var (m', res) := Transition(s.m, tripId, Matching, System, reason, None, s.now);
      res.Moved? && TakenOff(s.m, m', tripId)
    ensures SearchesAgain(s, Rematch(s, tripId, reason, config), tripId, config)
  {
  }

  ghost predicate SearchesAgain(s: State, s': State, tripId: Id, config: Config)
    requires tripId in s.m.trips && s.m.trips[tripId].driverId.Some?
  {
    var t := s.m.trips[tripId];
    && TakenOff(s.m, s'.m, tripId)
    && s'.loops == s.loops[t.requestId := Loop(tripId, t.pickup, config, 0, {}, s.now + 30000, false, Ready, [])]
    && s'.aborted == s.aborted - {t.requestId} && s'.offers == s.offers && s'.reg == s.reg
  }

  lemma NoRematch(m: Machine, tripId: Id, reason: Option<string>, now: int)
    requires IndexesOk(m) && tripId in m.trips && m.trips[tripId].status !in {Requested, Matching, EnRoute, Arrived}
    ensures Transition(m, tripId, Matching, System, reason, None, now) == (m, Invalid)
  {
    RefusalIff(m, tripId, Matching, System, reason, None, now);
    MovesIff(m, tripId, Matching, System, reason, None, now);
  }

  // ---- Drivers ----

  /** A report of the trip's own driver moves the trip on exactly along the ride; everybody else's is refused. */
  lemma MilestoneIff(s: State, tripId: Id, d: Id, to: TripStatus)
    requires Inv(s) && tripId in s.m.trips && to in {EnRoute, Arrived, InProgress}
    ensures
      var s', t := Apply(s, MilestoneStep(tripId, d, to)), s.m.trips[tripId];
      if t.driverId == Some(d) && t.status in Origins(to) then
        s' == s.(m := s'.m) && Drove(s.m, s'.m, tripId, to, s.now)
      else s' == s
  {
    StepIsMilestone(s, tripId, d, to);
    if s.m.trips[tripId].status in Origins(to) {
      Driven(s.m, tripId, to, s.now);
    } else {
      MovesIff(s.m, tripId, to, Driving, None, None, s.now);
    }
  }

  predicate GoodReading(s: State, pos: Pos) {
    -90.0 <= pos.lat <= 90.0 && -180.0 <= pos.lng <= 180.0 && InBox(s.reg.region, pos)
  }

  /** A driver's position is taken if it lies in the region; an unknown driver is registered with it, and one that was
      offline without a trip is free again. A position outside the region registers an unknown driver as offline. */
  lemma TelemetryIff(s: State, d: Id, pos: Pos)
    requires Inv(s) && NoneCommitted(s)
    ensures
      var s' := Apply(s, TelemetryStep(d, pos));
      && s' == s.(reg := s'.reg)
      && (!(-90.0 <= pos.lat <= 90.0 && -180.0 <= pos.lng <= 180.0) ==> s' == s)
      && (d in s.reg.drivers && !GoodReading(s, pos) ==> s' == s)
      && (GoodReading(s, pos) ==>
            && d in s'.reg.drivers && s'.reg.drivers[d].pos == pos && s'.reg.drivers[d].lastSeen == s.now
            && (d in s'.reg.index ==> s'.reg.index[d] == pos)
            && (d !in s.reg.drivers ==> FreeAt(s'.reg, d, pos))
            && (d in s.reg.drivers && s.reg.drivers[d].status == Offline && d !in s.m.activeDrivers ==>
              FreeAt(s'.reg, d, pos))
            && (d in s.reg.drivers && (s.reg.drivers[d].status != Offline || d in s.m.activeDrivers) ==>
              s'.reg.drivers[d].status == s.reg.drivers[d].status))
      && (d !in s.reg.drivers && -90.0 <= pos.lat <= 90.0 && -180.0 <= pos.lng <= 180.0 && !GoodReading(s, pos) ==>
            d in s'.reg.drivers && s'.reg.drivers[d].status == Offline && d !in s'.reg.index)
  {
    StepIsTelemetry(s, d, pos);
    if d in s.reg.drivers {
      assert DriverOk(s.reg, d);
      if d in s.m.activeDrivers {
        assert DriverOf(s.m, d);
      }
      if GoodReading(s, pos) {
        UpdateLocationOk(s.reg, d, pos, s.now);
        LocationRecorded(s.reg, d, pos, s.now);
      }
    }
  }

  /** A driver whose connection closes goes offline and loses its lease, unless it is on a trip. */
  lemma SocketCloseIff(s: State, d: Id)
    requires Inv(s)
    ensures
      var s' := Apply(s, SocketCloseStep(d));
      if d in s.reg.drivers && d !in s.m.activeDrivers then
        && s' == s.(reg := s'.reg) && d !in s'.reg.index && OnlyTouches(s.reg, s'.reg, d)
        && s'.reg.drivers[d] == s.reg.drivers[d].(status := Offline, lock := None, lastSeen := s.now)
      else s' == s
  {
    if d in s.m.activeDrivers {
      assert DriverOf(s.m, d);
    }
    if d in s.reg.drivers {
      assert DriverOk(s.reg, d);
      SetStatusOk(s.reg, d, Offline, s.now);
    }
  }

  /** Eviction takes a scanned driver that was silent for too long offline and ends its lease; its trip, if it has one,
      and everybody else are left alone. */
  lemma EvictionIff(s: State, order: seq<Id>, timeoutMs: int, d: Id)
    requires Inv(s) && d in s.reg.drivers
    ensures
      var s', was := Apply(s, EvictStep(order, timeoutMs)), s.reg.drivers[d];
      && s' == s.(reg := s'.reg) && d in s'.reg.drivers
      && (if d in order && was.status != Offline && timeoutMs < s.now - was.lastSeen then
            s'.reg.drivers[d] == was.(status := Offline, lock := None) && d !in s'.reg.index
          else s'.reg.drivers[d] == was && (d in s'.reg.index <==> d in s.reg.index))
  {
    EvictStaleExact(s.reg, order, timeoutMs, s.now, d);
  }

  /** A driver that connects for the first time gets the status it asks for, and is found if that is available; outside
      the region it is offline instead. One that is known is only heard from. */
  lemma ConnectionIff(s: State, d: Id, pos: Pos, status: Status)
    requires Inv(s)
    ensures
      var s' := Apply(s, RegisterStep(d, pos, status));
      && s' == s.(reg := s'.reg) && d in s'.reg.drivers && s'.reg.drivers[d].lastSeen == s.now
      && (d in s.reg.drivers ==>
            s'.reg.drivers[d] == s.reg.drivers[d].(lastSeen := s.now) && s'.reg.index == s.reg.index)
      && (d !in s.reg.drivers && status == Available && InBox(s.reg.region, pos) ==> FreeAt(s'.reg, d, pos))
      && (d !in s.reg.drivers && !(status == Available && InBox(s.reg.region, pos)) ==>
            d !in s'.reg.index && s'.reg.drivers[d].status == (if status == Available then Offline else status))
  {
  }

  /** A lease that nobody gives back does not hide its driver for ever: the first position the driver reports once the
      clock has passed the lease's end makes it free there. */
  lemma ExpiredLeaseReturns(s: State, d: Id, pos: Pos, ms: nat)
    requires Inv(s) && NoneCommitted(s) && d in s.reg.drivers && s.reg.drivers[d].lock.Some? && GoodReading(s, pos)
    ensures
      var s1 := Apply(s, TickStep(ms));
      && Enabled(s1, TelemetryStep(d, pos))
      && (FreeAt(Apply(s1, TelemetryStep(d, pos)).reg, d, pos) <==> s.reg.drivers[d].lock.value.expiresAt <= s.now + ms)
  {
    StepIsTick(s, ms);
    assert DriverOk(s.reg, d);
    ReportEndsLease(s.(now := s.now + ms), d, pos);
    StepIsTelemetry(s.(now := s.now + ms), d, pos);
  }

  lemma ReportEndsLease(s: State, d: Id, pos: Pos)
    requires RegistryOk(s.reg) && d in s.reg.drivers && s.reg.drivers[d].status == Available && GoodReading(s, pos)
    requires s.reg.drivers[d].lock.Some?
    ensures FreeAt(Telemetry(s, d, pos).reg, d, pos) <==> s.reg.drivers[d].lock.value.expiresAt <= s.now
  {
    AvailableReports(s, d, pos);
    LocationRecorded(s.reg, d, pos, s.now);
  }

  lemma AvailableReports(s: State, d: Id, pos: Pos)
    requires RegistryOk(s.reg) && d in s.reg.drivers && s.reg.drivers[d].status == Available && GoodReading(s, pos)
    ensures UpdateLocation(s.reg, d, pos, s.now).1
    ensures Telemetry(s, d, pos) == s.(reg := UpdateLocation(s.reg, d, pos, s.now).0)
  {
    UpdateLocationOk(s.reg, d, pos, s.now);
    LocationRecorded(s.reg, d, pos, s.now);
  }
}
