/** What the dispatch protocol guarantees, step by step and over whole runs. */
module DispatchTheorems {
  import opened Geometry
  import opened Candidates
  import opened RegistryModel
  import opened TripModel
  import opened Dispatch
  import opened DispatchSafety

  // ---- Ownership ----

  /** Who may hold a driver: the request in its lease, the loop that committed it, or a trip under way. */
  datatype Owner = ByLease(r: Id) | ByCommit(r: Id) | ByTrip(tripId: Id)

  predicate Owns(s: State, o: Owner, d: Id) {
    match o
    case ByLease(r) => Holder(s.reg, d) == Some(r)
    case ByCommit(r) => r in s.loops && CommitsTo(s.loops[r], d)
    case ByTrip(id) => id in s.m.trips && Active(s.m.trips[id]) && s.m.trips[id].driverId == Some(d)
  }

  /** At most one owner, and no owned driver in the search index. */
  ghost predicate SafeDriver(s: State, d: Id) {
    && (forall o1, o2 :: Owns(s, o1, d) && Owns(s, o2, d) ==> o1 == o2)
    && (forall o :: Owns(s, o, d) ==> d !in s.reg.index)
  }

  ghost predicate Safe(s: State) {
    forall d :: SafeDriver(s, d)
  }

  /** What an owner says about the driver's record. */
  lemma OwnedRecord(s: State, o: Owner, d: Id)
    requires Inv(s) && Owns(s, o, d)
    ensures o.ByLease? ==> d in s.reg.drivers && s.reg.drivers[d].status == Available
    ensures !o.ByLease? ==> OffMarket(s.reg, d)
    ensures o.ByTrip? ==> d in s.m.activeDrivers && s.m.activeDrivers[d] == o.tripId
    ensures o.ByCommit? ==> SoleCommit(s, o.r, d)
    ensures d !in s.reg.index
  {
    match o
    case ByLease(r) => assert DriverOk(s.reg, d);
    case ByCommit(r) => assert LoopInv(s, r) && DriverOk(s.reg, d);
    case ByTrip(id) =>
      assert TripOk(s.m, id);
      assert d in s.reg.drivers && DriverInv(s, d) && DriverOk(s.reg, d);
  }

  lemma InvSafe(s: State)
    requires Inv(s)
    ensures Safe(s)
  {
    forall d ensures SafeDriver(s, d) {
      forall o1, o2 | Owns(s, o1, d) && Owns(s, o2, d) ensures o1 == o2 {
        OwnedRecord(s, o1, d);
        OwnedRecord(s, o2, d);
      }
      forall o | Owns(s, o, d) ensures d !in s.reg.index {
        OwnedRecord(s, o, d);
      }
    }
  }

  /** A driver somebody holds is back in the index as soon as it is freed. */
  lemma FreedEngaged(s: State, d: Id, s': State)
    requires Inv(s) && Engaged(s, d) && s'.m == s.m && s'.loops == s.loops && s'.reg == CompleteTrip(s.reg, d, s.now).0
    ensures !Safe(s')
  {
    EngagedOffMarket(s, d);
    assert DriverOk(s.reg, d);
    assert d in s'.reg.index;
    if d in s.m.activeDrivers {
      assert DriverOf(s.m, d);
      assert Owns(s', ByTrip(s.m.activeDrivers[d]), d);
    } else {
      var r :| r in s.loops && CommitsTo(s.loops[r], d);
      assert Owns(s', ByCommit(r), d);
    }
    assert !SafeDriver(s', d);
  }

  lemma CarelessCancel(s: State, r: Id, actor: Role, reason: Option<string>)
    requires Inv(s) && TripByRequest(s.m, r).Some? && FreesAgain(s, TripByRequest(s.m, r).value, TripStatus.Cancelled)
    ensures !Safe(CancelStart(s, r, actor, reason))
  {
    var tripId := TripByRequest(s.m, r).value;
    assert RequestOk(s.m, r);
    if r in s.loops {
      LiveLoopsTrip(s, r, tripId);
    }
    FreedEngaged(s, s.m.trips[tripId].driverId.value, CancelStart(s, r, actor, reason));
  }

  /** A step keeps drivers safe exactly when it does not cancel or complete a trip a second time
      while somebody else has the driver of that trip. */
  lemma StepSafeIffCareful(s: State, step: Step)
    requires Inv(s) && Enabled(s, step)
    ensures Safe(Apply(s, step)) <==> Careful(s, step)
    ensures Careful(s, step) ==> Inv(Apply(s, step))
  {
    if Careful(s, step) {
      StepKeeps(s, step);
      InvSafe(Apply(s, step));
    } else if step.CancelStartStep? {
      CarelessCancel(s, step.r, step.actor, step.reason);
    } else {
      FreedEngaged(s, step.driver, Apply(s, step));
    }
  }

  // ---- Whole runs ----

  ghost predicate IsRun(states: seq<State>, steps: seq<Step>) {
    && |states| == |steps| + 1 && Init(states[0])
    && forall i {:trigger steps[i]} | 0 <= i < |steps| ::
         Enabled(states[i], steps[i]) && Careful(states[i], steps[i]) && states[i + 1] == Apply(states[i], steps[i])
  }

  lemma InitInv(s: State)
    requires Init(s)
    ensures Inv(s)
  {
  }

  lemma {:induction false} RunInv(states: seq<State>, steps: seq<Step>, i: nat)
    requires IsRun(states, steps) && i < |states|
    ensures Inv(states[i])
  {
    if i == 0 {
      InitInv(states[0]);
    } else {
      RunInv(states, steps, i - 1);
      assert states[i] == Apply(states[i - 1], steps[i - 1]);
      StepKeeps(states[i - 1], steps[i - 1]);
    }
  }

  /** In every interleaving every driver has at most one owner, and no owned driver can be found by a search. */
  lemma EveryStateSafe(states: seq<State>, steps: seq<Step>, i: nat)
    requires IsRun(states, steps) && i < |states|
    ensures Safe(states[i])
  {
    RunInv(states, steps, i);
    InvSafe(states[i]);
  }

  ghost predicate Reachable(s: State) {
    exists states: seq<State>, steps: seq<Step> :: IsRun(states, steps) && states[|states| - 1] == s
  }

  lemma ReachableInv(s: State)
    requires Reachable(s)
    ensures Inv(s) && Safe(s)
  {
    var states, steps :| IsRun(states, steps) && states[|states| - 1] == s;
    RunInv(states, steps, |states| - 1);
    InvSafe(s);
  }

  lemma InitReachable(s: State)
    requires Init(s)
    ensures Reachable(s)
  {
    assert IsRun([s], []);
    assert [s][|[s]| - 1] == s;
  }

  lemma ReachableStep(s: State, step: Step)
    requires Reachable(s) && Enabled(s, step) && Careful(s, step)
    ensures Reachable(Apply(s, step))
  {
    var states, steps :| IsRun(states, steps) && states[|states| - 1] == s;
    RunExtends(states, steps, step, Apply(s, step));
    var states' := states + [Apply(s, step)];
    assert states'[|states'| - 1] == Apply(s, step);
  }

  lemma RunExtends(states: seq<State>, steps: seq<Step>, step: Step, s': State)
    requires IsRun(states, steps) && Enabled(states[|steps|], step) && Careful(states[|steps|], step)
    requires s' == Apply(states[|steps|], step)
    ensures IsRun(states + [s'], steps + [step])
  {
    var states', steps' := states + [s'], steps + [step];
    forall i | 0 <= i < |steps'|
      ensures Enabled(states'[i], steps'[i]) && Careful(states'[i], steps'[i])
      ensures states'[i + 1] == Apply(states'[i], steps'[i])
    {
      assert states'[i] == states[i];
      if i < |steps| {
        assert steps'[i] == steps[i] && states'[i + 1] == states[i + 1];
      }
    }
  }

  // ---- A commit is followed by its assignment ----

  lemma AbortedOnlyByCancel(s: State, step: Step, r: Id)
    requires Enabled(s, step) && r !in s.aborted && r in Apply(s, step).aborted
    ensures step.CancelStartStep? && step.r == r
  {
  }

  lemma {:induction false} NotAbortedBetween(states: seq<State>, steps: seq<Step>, i: nat, j: nat, r: Id)
    requires IsRun(states, steps) && i <= j < |states| && r !in states[i].aborted
    requires forall n | i <= n < j :: !(steps[n].CancelStartStep? && steps[n].r == r)
    ensures r !in states[j].aborted
    decreases j
  {
    if i < j {
      NotAbortedBetween(states, steps, i, j - 1, r);
      assert states[j] == Apply(states[j - 1], steps[j - 1]);
      if r in states[j].aborted {
        AbortedOnlyByCancel(states[j - 1], steps[j - 1], r);
      }
    }
  }

  /** Unless the rider cancels in between, a commit is followed by an assignment that succeeds. */
  lemma CommitThenMatched(states: seq<State>, steps: seq<Step>, i: nat, j: nat, r: Id)
    requires IsRun(states, steps) && i < j < |steps|
    requires steps[i] == ResumeStep(r) && r in states[i + 1].loops && states[i + 1].loops[r].pc.Committed?
    requires steps[j] == AssignStep(r) && forall n | i < n < j :: !(steps[n].CancelStartStep? && steps[n].r == r)
    requires !Blank(states[j].loops[r].pc.attempt.driver)
    ensures
      var l := states[j].loops[r];
      && l.tripId in states[j + 1].m.trips && r !in states[j + 1].loops
      && states[j + 1].m.trips[l.tripId].status == Matched
      && states[j + 1].m.trips[l.tripId].driverId == Some(l.pc.attempt.driver)
  {
    assert states[i + 1] == Apply(states[i], steps[i]);
    assert r !in states[i + 1].aborted;
    NotAbortedBetween(states, steps, i + 1, j, r);
    RunInv(states, steps, j);
    assert Enabled(states[j], steps[j]) && states[j + 1] == Apply(states[j], steps[j]);
    AssignNotAborted(states[j], r);
  }

  lemma AssignNotAborted(s: State, r: Id)
    requires Inv(s) && r in s.loops && s.loops[r].pc.Committed? && r !in s.aborted
    requires !Blank(s.loops[r].pc.attempt.driver)
    ensures
      var l, m := s.loops[r], Assign(s, r).m;
      r !in Assign(s, r).loops && l.tripId in m.trips && m.trips[l.tripId].status == Matched
        && m.trips[l.tripId].driverId == Some(l.pc.attempt.driver)
  {
    assert LoopInv(s, r);
    AssignSucceeds(s, r);
  }

  /** When the assignment fails after all, the driver the rollback frees is on no trip and in no other commit. */
  lemma RollbackFreesNobodysDriver(s: State, r: Id, o: Owner)
    requires Inv(s) && r in s.loops && s.loops[r].pc.Committed? && Owns(s, o, s.loops[r].pc.attempt.driver)
    ensures o == ByCommit(r)
  {
    InvSafe(s);
    assert SafeDriver(s, s.loops[r].pc.attempt.driver);
    assert Owns(s, ByCommit(r), s.loops[r].pc.attempt.driver);
  }

  // ---- Leases ----

  /** No lease outlives the offer loop it names. */
  lemma NoLeaseLeak(s: State, r: Id, d: Id)
    requires Inv(s) && Holder(s.reg, d) == Some(r)
    ensures r in s.loops && HoldsLease(s.loops[r].pc) && s.loops[r].pc.attempt.driver == d
  {
    assert DriverInv(s, d);
  }

  /** The steps that may end the lease of request `q` on driver `d`. */
  predicate MayEndLease(s: State, step: Step, q: Id, d: Id)
    requires Holder(s.reg, d) == Some(q)
  {
    var expiresAt := s.reg.drivers[d].lock.value.expiresAt;
    match step
    case ResumeStep(r) => r == q
    case CancelStartStep(r, _, _) => r == q
    case SocketCloseStep(e) => e == d
    case EvictStep(_, timeoutMs) => IsStale(s.reg.drivers[d], timeoutMs, s.now)
    case TopStep(_, _, lockAt) => expiresAt <= lockAt
    case TelemetryStep(e, _) => e == d && expiresAt <= s.now
    case _ => false
  }

  lemma {:induction false} EvictKeepsLease(reg: Registry, order: seq<Id>, timeoutMs: int, now: int, d: Id)
    requires d in reg.drivers && !IsStale(reg.drivers[d], timeoutMs, now)
    ensures d in EvictStale(reg, order, timeoutMs, now).drivers
    ensures EvictStale(reg, order, timeoutMs, now).drivers[d] == reg.drivers[d]
    decreases |order|
  {
    if order != [] {
      var first := order[0];
      var one := if first in reg.drivers && IsStale(reg.drivers[first], timeoutMs, now) then EvictOne(reg, first)
        else reg;
      assert one.drivers[d] == reg.drivers[d];
      EvictKeepsLease(one, order[1..], timeoutMs, now, d);
    }
  }

  lemma CompleteTripKeepsLease(reg: Registry, e: Id, now: int, d: Id)
    ensures Holder(CompleteTrip(reg, e, now).0, d) == Holder(reg, d)
  {
  }

  /** A lease ends only by its own loop, its own cancellation, its driver's absence, or its expiry:
      no other request's step takes it away. */
  lemma LeaseKept(s: State, step: Step, q: Id, d: Id)
    requires Inv(s) && Enabled(s, step) && Holder(s.reg, d) == Some(q) && !MayEndLease(s, step, q, d)
    ensures Holder(Apply(s, step).reg, d) == Some(q)
  {
    if OutsideStep(step) {
      OutsideKeepsLease(s, step, q, d);
    } else {
      InsideKeepsLease(s, step, q, d);
    }
  }

  lemma OutsideKeepsLease(s: State, step: Step, q: Id, d: Id)
    requires Inv(s) && Enabled(s, step) && OutsideStep(step)
    requires Holder(s.reg, d) == Some(q) && !MayEndLease(s, step, q, d)
    ensures Holder(Apply(s, step).reg, d) == Some(q)
  {
    match step
    case EvictStep(order, timeoutMs) => EvictKeepsLease(s.reg, order, timeoutMs, s.now, d);
    case TelemetryStep(e, pos) => TelemetryKeepsLease(s, e, pos, q, d);
    case MilestoneStep(tripId, e, to) => MilestoneKeepsLease(s, tripId, e, to, d);
    case SocketCloseStep(e) => OthersStatusKeepsLease(s.reg, e, Offline, s.now, d);
    case RegisterStep(e, pos, status) => RegistrationKeepsLease(s.reg, e, pos, status, s.now, d);
    case TickStep(_) =>
  }

  lemma OthersStatusKeepsLease(reg: Registry, e: Id, status: Status, now: int, d: Id)
    requires e != d
    ensures Holder(SetStatus(reg, e, status, now).0, d) == Holder(reg, d)
  {
  }

  lemma RegistrationKeepsLease(reg: Registry, e: Id, pos: Pos, status: Status, now: int, d: Id)
    requires d in reg.drivers
    ensures Holder(RegisterDriver(reg, e, pos, status, now), d) == Holder(reg, d)
  {
  }

  lemma InsideKeepsLease(s: State, step: Step, q: Id, d: Id)
    requires Inv(s) && Enabled(s, step) && !OutsideStep(step)
    requires Holder(s.reg, d) == Some(q) && !MayEndLease(s, step, q, d)
    ensures Holder(Apply(s, step).reg, d) == Some(q)
  {
    match step
    case TopStep(r, candidates, lockAt) => TopKeepsLease(s, r, candidates, lockAt, q, d);
    case ResumeStep(r) => ResumeKeepsLease(s, r, q, d);
    case UnwindStep(r) => UnwindKeepsLease(s, r, q, d);
    case AssignStep(r) => AssignKeepsLease(s, r, d);
    case CancelStartStep(r, _, _) => CancelKeepsLease(s, step, q, d);
    case CancelFinishStep(r) =>
      var pc := s.loops[r].pc;
      FinishKeepsLease(WithPc(s, r, Resumed(pc.attempt, Withdrawn)), r, pc.actor, pc.why, d);
    case _ =>
  }

  lemma AssignKeepsLease(s: State, r: Id, d: Id)
    requires r in s.loops && s.loops[r].pc.Committed?
    ensures Holder(Assign(s, r).reg, d) == Holder(s.reg, d)
  {
    CompleteTripKeepsLease(s.reg, s.loops[r].pc.attempt.driver, s.now, d);
  }

  lemma MilestoneKeepsLease(s: State, tripId: Id, e: Id, to: TripStatus, d: Id)
    ensures Holder(ReachMilestone(s, tripId, e, to).reg, d) == Holder(s.reg, d)
  {
    CompleteTripKeepsLease(s.reg, e, s.now, d);
  }

  lemma TopKeepsLease(s: State, r: Id, candidates: seq<Candidate>, lockAt: int, q: Id, d: Id)
    requires r in s.loops && Holder(s.reg, d) == Some(q) && lockAt < s.reg.drivers[d].lock.value.expiresAt
    ensures Holder(Top(s, r, candidates, lockAt).reg, d) == Some(q)
  {
  }

  lemma ResumeKeepsLease(s: State, r: Id, q: Id, d: Id)
    requires r in s.loops && s.loops[r].pc.Resumed? && r != q && Holder(s.reg, d) == Some(q)
    ensures Holder(Resume(s, r).reg, d) == Some(q)
  {
    NoTheft(s.reg, s.loops[r].pc.attempt.driver, r, q, d, s.now);
  }

  lemma LocationKeepsLock(reg: Registry, e: Id, pos: Pos, now: int, d: Id)
    requires d in reg.drivers && reg.drivers[d].lock.Some? && (e == d ==> now < reg.drivers[d].lock.value.expiresAt)
    ensures Holder(UpdateLocation(reg, e, pos, now).0, d) == Holder(reg, d)
  {
  }

  lemma TelemetryKeepsLease(s: State, e: Id, pos: Pos, q: Id, d: Id)
    requires Holder(s.reg, d) == Some(q) && (e == d ==> s.now < s.reg.drivers[d].lock.value.expiresAt)
    ensures Holder(Telemetry(s, e, pos).reg, d) == Some(q)
  {
    LocationKeepsLock(s.reg, e, pos, s.now, d);
    CompleteTripKeepsLease(UpdateLocation(s.reg, e, pos, s.now).0, e, s.now, d);
  }

  lemma UnwindKeepsLease(s: State, r: Id, q: Id, d: Id)
    requires Inv(s) && r in s.loops && s.loops[r].pc.Unwinding? && Holder(s.reg, d) == Some(q)
    ensures Holder(Unwind(s, r).reg, d) == Some(q)
  {
    assert DriverInv(s, d);
    NoTheft(s.reg, s.loops[r].pc.attempt.driver, r, q, d, s.now);
  }

  lemma FinishKeepsLease(s: State, r: Id, actor: Role, reason: Option<string>, d: Id)
    ensures Holder(FinishCancel(s, r, actor, reason).reg, d) == Holder(s.reg, d)
  {
    if TripByRequest(s.m, r).Some? && s.m.trips[TripByRequest(s.m, r).value].driverId.Some? {
      CompleteTripKeepsLease(s.reg, s.m.trips[TripByRequest(s.m, r).value].driverId.value, s.now, d);
    }
  }

  lemma CancelKeepsLease(s: State, step: Step, q: Id, d: Id)
    requires Inv(s) && step.CancelStartStep? && step.r != q && Holder(s.reg, d) == Some(q)
    ensures Holder(CancelStart(s, step.r, step.actor, step.reason).reg, d) == Some(q)
  {
    FinishKeepsLease(s.(aborted := s.aborted + {step.r}), step.r, step.actor, step.reason, d);
    if step.r in s.offers {
      NoTheft(s.reg, s.offers[step.r].driver, step.r, q, d, s.now);
    }
  }

  // ---- How a loop begins and ends ----

  /** A request with a new id starts a loop exactly when its coordinates are valid and its rider is free;
      the loop searches around the pickup point for at most 30 seconds. */
  lemma RequestStartsLoopIff(s: State, r: Id, rider: Id, pickup: Pos, dropoff: Pos, config: Config, newId: Id)
    requires Inv(s) && Fresh(s, newId) && r !in s.m.requestToTrip && r !in s.loops
    ensures
      var s' := Request(s, r, rider, pickup, dropoff, config, newId);
      && (r in s'.loops <==> ValidGeoPoint(pickup) && ValidGeoPoint(dropoff) && rider !in s.m.activeRiders)
      && (r !in s'.loops ==> s' == s)
      && (r in s'.loops ==>
            && s'.loops[r] == NewLoop(newId, pickup, config, s.now) && s'.loops[r].deadline == s.now + 30000
            && r !in s'.aborted
            && newId in s'.m.trips && s'.m.trips[newId].riderId == rider && s'.m.trips[newId].requestId == r
            && s'.m.trips[newId].pickup == pickup && s'.m.trips[newId].dropoff == dropoff
            && s'.m.trips[newId].status == Matching)
  {
    var (m, res) := CreateTrip(s.m, r, rider, pickup, dropoff, newId, s.now);
    if res.Created? {
      StartedMatching(s.(m := m), NewTrip(newId, r, rider, pickup, dropoff, s.now), config);
    }
  }

  lemma StartedMatching(s: State, t: Trip, config: Config)
    requires t.id in s.m.trips && s.m.trips[t.id] == t && t.status == Requested && t.driverId == None
    requires t.matchedAt == None && t.arrivedAt == None
    ensures
      var s' := StartLoop(s, t.requestId, t.id, t.pickup, None, config);
      && s'.loops == s.loops[t.requestId := NewLoop(t.id, t.pickup, config, s.now)]
      && s'.aborted == s.aborted - {t.requestId}
      && t.id in s'.m.trips && s'.m.trips[t.id] == t.(status := Matching)
  {
  }

  /** A matching trip can always be cancelled in the system's name. */
  lemma CancelsMatching(m: Machine, tripId: Id, reason: string, now: int)
    requires tripId in m.trips && m.trips[tripId].status == Matching && reason != ""
    ensures
      var (m', res) := Transition(m, tripId, TripStatus.Cancelled, System, Some(reason), None, now);
      && res.Moved? && tripId in m'.trips && m'.trips[tripId].status == TripStatus.Cancelled
      && m'.trips[tripId].cancelledBy == Some(System) && m'.trips[tripId].reason == Some(reason)
  {
  }

  /** A loop that gives up cancels its trip in the system's name, and says whether it ever found a candidate. */
  lemma GiveUpCancels(s: State, r: Id)
    requires Inv(s) && r in s.loops && s.loops[r].pc.Ready? && r !in s.aborted
    ensures
      var l, m := s.loops[r], GiveUp(s, r).m;
      && r !in GiveUp(s, r).loops && l.tripId in m.trips
      && m.trips[l.tripId].status == TripStatus.Cancelled && m.trips[l.tripId].cancelledBy == Some(System)
      && m.trips[l.tripId].reason == Some(
           if l.tried == {} then "No available drivers in search radius"
           else "All candidate drivers declined or timed out")
  {
    assert LoopInv(s, r);
    CancelsMatching(s.m, s.loops[r].tripId, GiveUpReason(s.loops[r]), s.now);
  }

  // ---- Offers ----

  lemma {:induction false} DistinctFit(xs: seq<Id>, all: set<Id>)
    requires (forall i, j | 0 <= i < j < |xs| :: xs[i] != xs[j]) && forall x | x in xs :: x in all
    ensures |xs| <= |all|
    decreases |xs|
  {
    if xs != [] {
      var last := xs[|xs| - 1];
      DistinctFit(xs[..|xs| - 1], all - {last});
    }
  }

  /** A loop makes at most `k` offers, each to another driver it tried. */
  lemma OffersBounded(s: State, r: Id)
    requires Inv(s) && r in s.loops
    ensures
      var l := s.loops[r];
      && (forall i, j | 0 <= i < j < |l.offered| :: l.offered[i] != l.offered[j])
      && (forall x | x in l.offered :: x in l.tried)
      && |l.offered| <= |l.tried| && (|l.tried| <= l.config.k || l.tried == {})
  {
    assert LoopInv(s, r);
    DistinctFit(s.loops[r].offered, s.loops[r].tried);
  }

  lemma {:induction false} UntriedInOrder(candidates: seq<Candidate>, tried: set<Id>, n: nat)
    requires FirstUntried(candidates, tried).Some? && n < |candidates| && candidates[n].id !in tried
    requires Sorted(candidates)
    ensures FirstUntried(candidates, tried).value.distance <= candidates[n].distance
    decreases |candidates|
  {
    if candidates[0].id in tried {
      UntriedInOrder(candidates[1..], tried, n - 1);
    }
  }

  lemma FirstUntriedNearest(s: State, r: Id, candidates: seq<Candidate>, d: Id)
    requires r in s.loops && IsKnn(s.reg.index, QueryOf(s, s.loops[r]), candidates)
    requires FirstUntried(candidates, s.loops[r].tried).Some?
    requires d !in s.loops[r].tried && InRadius(s.reg.index, QueryOf(s, s.loops[r]), d)
    ensures
      var c := FirstUntried(candidates, s.loops[r].tried).value;
      && c.id in s.reg.index && c.id !in s.loops[r].tried
      && c.distance == s.metric(s.loops[r].pickup, s.reg.index[c.id])
      && c.distance <= s.metric(s.loops[r].pickup, s.reg.index[d])
  {
    var l := s.loops[r];
    UntriedCandidate(candidates, l.tried);
    var c := FirstUntried(candidates, l.tried).value;
    if d in Ids(candidates) {
      var n :| 0 <= n < |candidates| && candidates[n].id == d;
      assert candidates[n] in candidates;
      UntriedInOrder(candidates, l.tried, n);
    } else {
      assert candidates[|candidates| - 1].distance <= s.metric(l.pickup, s.reg.index[d]);
      var n :| 0 <= n < |candidates| && candidates[n] == c;
    }
  }

  /** A loop that finds no candidate before its `k` turns are over has tried every driver in the radius. */
  lemma ExhaustedMeansAllTried(s: State, r: Id, candidates: seq<Candidate>)
    requires Inv(s) && r in s.loops && s.loops[r].pc.Ready? && s.loops[r].i < s.loops[r].config.k
    requires IsKnn(s.reg.index, QueryOf(s, s.loops[r]), candidates)
    requires FirstUntried(candidates, s.loops[r].tried) == None
    ensures DriversInRadius(s.reg.index, QueryOf(s, s.loops[r])) <= s.loops[r].tried
  {
    var l := s.loops[r];
    assert LoopInv(s, r);
    UntriedCandidate(candidates, l.tried);
    IdsCardinality(candidates);
    SubsetSmaller(Ids(candidates), l.tried);
    assert !Beaten(candidates, l.config.k, 0.0);
  }

  /** While some driver in the radius is untried, a turn of the loop leases one, and no other such one is nearer. */
  lemma LeasesNearestUntried(s: State, r: Id, candidates: seq<Candidate>, lockAt: int)
    requires Inv(s) && Enabled(s, TopStep(r, candidates, lockAt))
    requires IsKnn(s.reg.index, QueryOf(s, s.loops[r]), candidates)
    requires s.loops[r].i < s.loops[r].config.k && r !in s.aborted && BudgetLeft(s, s.loops[r])
    requires DriversInRadius(s.reg.index, QueryOf(s, s.loops[r])) - s.loops[r].tried != {}
    ensures
      var l, s' := s.loops[r], Apply(s, TopStep(r, candidates, lockAt));
      && r in s'.loops && s'.loops[r].pc.Locked?
      && var d := s'.loops[r].pc.attempt.driver;
         && InRadius(s.reg.index, QueryOf(s, l), d) && d !in l.tried && Holder(s'.reg, d) == Some(r)
         && d !in s'.reg.index
         && s'.loops[r].tried == l.tried + {d}
         && forall e | InRadius(s.reg.index, QueryOf(s, l), e) && e !in l.tried ::
              s.metric(l.pickup, s.reg.index[d]) <= s.metric(l.pickup, s.reg.index[e])
  {
    var l := s.loops[r];
    if FirstUntried(candidates, l.tried) == None {
      ExhaustedMeansAllTried(s, r, candidates);
      assert false;
    }
    UntriedCandidate(candidates, l.tried);
    var d := FirstUntried(candidates, l.tried).value.id;
    LeasesIndexed(s, r, d, lockAt);
    forall e | InRadius(s.reg.index, QueryOf(s, l), e) && e !in l.tried
      ensures s.metric(l.pickup, s.reg.index[d]) <= s.metric(l.pickup, s.reg.index[e])
    {
      FirstUntriedNearest(s, r, candidates, e);
    }
  }

  /** A driver of the index can be leased. */
  lemma LeasesIndexed(s: State, r: Id, d: Id, lockAt: int)
    requires Inv(s) && r in s.loops && d in s.reg.index
    ensures
      var s' := TryDriver(s, r, d, lockAt);
      && r in s'.loops && s'.loops[r].pc.Locked? && s'.loops[r].pc.attempt.driver == d
      && s'.loops[r].tried == s.loops[r].tried + {d} && Holder(s'.reg, d) == Some(r) && d !in s'.reg.index
  {
    assert DriverOk(s.reg, d);
  }

  /** How far a turn of the loop has come. */
  function Progress(pc: Pc): nat {
    match pc
    case Ready => 0
    case Locked(_) => 1
    case Waiting(_, _) => 2
    case Revoking(_, _, _) => 3
    case Resumed(_, _) => 4
    case _ => 5
  }

  /** What a loop still has to do. */
  function Work(l: Loop): int {
    6 * (if l.i < l.config.k then l.config.k - l.i else 0) - Progress(l.pc)
  }

  /** The steps that a loop itself takes. */
  predicate StepOf(step: Step, r: Id) {
    match step
    case TopStep(q, _, _) => q == r
    case PublishStep(q) => q == r
    case TimerStep(q) => q == r
    case ResumeStep(q) => q == r
    case UnwindStep(q) => q == r
    case AssignStep(q) => q == r
    case CancelFinishStep(q) => q == r
    case _ => false
  }

  /** Every step of a loop ends it or leaves it less to do, and no other step gives it more:
      a loop is over after at most `6 * k + 1` steps of its own. */
  lemma LoopsMakeProgress(s: State, step: Step, r: Id)
    requires Inv(s) && Enabled(s, step) && r in s.loops
    ensures
      var s' := Apply(s, step);
      r in s'.loops ==>
        && s'.loops[r].tripId == s.loops[r].tripId && 0 <= Work(s.loops[r]) && Work(s'.loops[r]) <= Work(s.loops[r])
        && (StepOf(step, r) ==> Work(s'.loops[r]) < Work(s.loops[r]))
  {
    assert LoopInv(s, r);
    if StepOf(step, r) {
      OwnStepWorks(s, step, r);
    } else {
      OtherStepLeaves(s, step, r);
    }
  }

  /** The steps of drivers and of the clock do not touch any loop. */
  predicate OutsideStep(step: Step) {
    step.MilestoneStep? || step.TelemetryStep? || step.SocketCloseStep? || step.RegisterStep? || step.EvictStep?
      || step.TickStep?
  }

  lemma OutsideLeaves(s: State, step: Step)
    requires Enabled(s, step) && OutsideStep(step)
    ensures Apply(s, step).loops == s.loops && Apply(s, step).aborted == s.aborted
    ensures !step.MilestoneStep? ==> Apply(s, step).m == s.m
  {
  }

  lemma OtherLoopLeaves(s: State, step: Step, q: Id, r: Id)
    requires Core(s) && Enabled(s, step) && r in s.loops && q != r && StepOf(step, q)
    ensures r in Apply(s, step).loops && Apply(s, step).loops[r] == s.loops[r]
  {
    match step
    case TopStep(_, candidates, lockAt) => TopLeaves(s, q, candidates, lockAt, r);
    case ResumeStep(_) => ResumeLeaves(s, q, r);
    case _ =>
  }

  lemma TopLeaves(s: State, q: Id, candidates: seq<Candidate>, lockAt: int, r: Id)
    requires q in s.loops && r in s.loops && r != q
    ensures r in Top(s, q, candidates, lockAt).loops && Top(s, q, candidates, lockAt).loops[r] == s.loops[r]
  {
  }

  lemma ResumeLeaves(s: State, q: Id, r: Id)
    requires q in s.loops && s.loops[q].pc.Resumed? && r in s.loops && r != q
    ensures r in Resume(s, q).loops && Resume(s, q).loops[r] == s.loops[r]
  {
  }

  lemma OtherStepLeaves(s: State, step: Step, r: Id)
    requires Inv(s) && Enabled(s, step) && r in s.loops && !StepOf(step, r)
    ensures
      var s' := Apply(s, step);
      r in s'.loops && s'.loops[r].tripId == s.loops[r].tripId && Work(s'.loops[r]) <= Work(s.loops[r])
  {
    match step
    case RequestStep(q, rider, pickup, dropoff, config, newId) =>
      RequestLeaves(s, q, rider, pickup, dropoff, config, newId);
    case RematchStep(tripId, reason, config) => RematchLeaves(s, tripId, reason, config);
    case RespondStep(q, driver, accept) => RespondLeaves(s, q, driver, accept, r);
    case CancelStartStep(q, actor, reason) => CancelLeaves(s, q, actor, reason, r);
    case TopStep(q, _, _) => OtherLoopLeaves(s, step, q, r);
    case PublishStep(q) => OtherLoopLeaves(s, step, q, r);
    case TimerStep(q) => OtherLoopLeaves(s, step, q, r);
    case ResumeStep(q) => OtherLoopLeaves(s, step, q, r);
    case UnwindStep(q) => OtherLoopLeaves(s, step, q, r);
    case AssignStep(q) => OtherLoopLeaves(s, step, q, r);
    case CancelFinishStep(q) => OtherLoopLeaves(s, step, q, r);
    case _ => OutsideLeaves(s, step);
  }

  lemma OwnStepWorks(s: State, step: Step, r: Id)
    requires Core(s) && Enabled(s, step) && r in s.loops && StepOf(step, r)
    ensures
      var s' := Apply(s, step);
      r in s'.loops ==> s'.loops[r].tripId == s.loops[r].tripId && Work(s'.loops[r]) < Work(s.loops[r])
  {
    assert LoopInv(s, r);
    match step
    case TopStep(_, candidates, lockAt) => TopWorks(s, r, candidates, lockAt);
    case ResumeStep(_) => ResumeWorks(s, r);
    case AssignStep(_) => AssignWorks(s, r);
    case PublishStep(_) => assert Publish(s, r).loops[r].i == s.loops[r].i;
    case TimerStep(_) => assert Settle(s, r, TimedOut).loops[r].i == s.loops[r].i;
    case UnwindStep(_) => assert Unwind(s, r).loops[r].i == s.loops[r].i + 1;
    case CancelFinishStep(_) => FinishWorks(s, r);
  }

  lemma FinishWorks(s: State, r: Id)
    requires r in s.loops && s.loops[r].pc.Revoking?
    ensures
      var s' := CancelFinish(s, r);
      r in s'.loops && s'.loops[r].tripId == s.loops[r].tripId && Work(s'.loops[r]) < Work(s.loops[r])
  {
  }

  lemma AssignWorks(s: State, r: Id)
    requires r in s.loops && s.loops[r].pc.Committed? && s.loops[r].i < s.loops[r].config.k
    ensures
      var s' := Assign(s, r);
      r in s'.loops ==> s'.loops[r].tripId == s.loops[r].tripId && Work(s'.loops[r]) < Work(s.loops[r])
  {
  }

  lemma ResumeWorks(s: State, r: Id)
    requires r in s.loops && s.loops[r].pc.Resumed?
    ensures
      var s' := Resume(s, r);
      r in s'.loops ==>
        && s'.loops[r].tripId == s.loops[r].tripId
        && (s.loops[r].i < s.loops[r].config.k ==> Work(s'.loops[r]) < Work(s.loops[r]))
  {
  }

  lemma TopWorks(s: State, r: Id, candidates: seq<Candidate>, lockAt: int)
    requires r in s.loops && s.loops[r].pc.Ready?
    ensures
      var s' := Top(s, r, candidates, lockAt);
      r in s'.loops ==> s'.loops[r].tripId == s.loops[r].tripId && Work(s'.loops[r]) < Work(s.loops[r])
  {
  }

  lemma RespondLeaves(s: State, q: Id, driver: Id, accept: bool, r: Id)
    requires r in s.loops
    ensures
      var s' := Respond(s, q, driver, accept);
      r in s'.loops && s'.loops[r].tripId == s.loops[r].tripId && Work(s'.loops[r]) <= Work(s.loops[r])
  {
  }

  lemma CancelLeaves(s: State, q: Id, actor: Role, reason: Option<string>, r: Id)
    requires r in s.loops
    ensures
      var s' := CancelStart(s, q, actor, reason);
      r in s'.loops && s'.loops[r].tripId == s.loops[r].tripId && Work(s'.loops[r]) <= Work(s.loops[r])
  {
  }

  lemma RequestLeaves(s: State, q: Id, rider: Id, pickup: Pos, dropoff: Pos, config: Config, newId: Id)
    requires Inv(s) && (q in s.loops ==> q in s.m.requestToTrip)
    ensures forall r | r in s.loops ::
        var s' := Request(s, q, rider, pickup, dropoff, config, newId); r in s'.loops && s'.loops[r] == s.loops[r]
  {
    if q in s.m.requestToTrip {
      assert RequestOk(s.m, q);
      assert Request(s, q, rider, pickup, dropoff, config, newId).loops == s.loops;
    }
  }

  lemma RematchLeaves(s: State, tripId: Id, reason: Option<string>, config: Config)
    requires Inv(s)
    ensures forall r | r in s.loops ::
        var s' := Rematch(s, tripId, reason, config); r in s'.loops && s'.loops[r] == s.loops[r]
  {
    if tripId in s.m.trips && s.m.trips[tripId].status != Matching && s.m.trips[tripId].requestId in s.loops {
      LiveLoopsTrip(s, s.m.trips[tripId].requestId, tripId);
    }
  }

  // ---- Time ----

  /** An offer is open for at least the smallest budget and never outruns the trip's deadline by more than
      the time its publication took; its lease outlives it exactly when that took less than the margin. */
  lemma OfferTiming(s: State, r: Id)
    requires Inv(s) && r in s.offers
    ensures
      r in s.loops && s.loops[r].pc.Waiting? &&
      var l, pc, o := s.loops[r], s.loops[r].pc, s.offers[r];
      && MinInt(MIN_OFFER_BUDGET_MS, l.config.offerTimeoutMs) <= o.expiresAt - pc.publishedAt
      && o.expiresAt - l.deadline <= pc.publishedAt - pc.attempt.readAt
      && (Holder(s.reg, o.driver) == Some(r) ==>
            (o.expiresAt < s.reg.drivers[o.driver].lock.value.expiresAt <==>
              pc.publishedAt - pc.attempt.lockedAt < LOCK_SAFETY_MARGIN_MS))
  {
    assert LoopInv(s, r);
    assert DriverInv(s, s.offers[r].driver);
  }

  /** An answer taken before the offer's deadline finds the lease unexpired, if publication took less than
      the margin and nothing took the lease away; a later answer counts as a timeout. */
  lemma AcceptFindsLease(s: State, r: Id, driver: Id)
    requires Inv(s) && r in s.offers && s.offers[r].driver == driver && Holder(s.reg, driver) == Some(r)
    requires r in s.loops && s.loops[r].pc.Waiting?
    requires s.loops[r].pc.publishedAt - s.loops[r].pc.attempt.lockedAt < LOCK_SAFETY_MARGIN_MS
    ensures
      var s' := Respond(s, r, driver, true);
      if s.now < s.offers[r].expiresAt then
        && s'.loops[r].pc == Resumed(s.loops[r].pc.attempt, Accepted)
        && s.now < s'.reg.drivers[driver].lock.value.expiresAt && CommitTrip(s'.reg, driver, r, s.now).1
      else s'.loops[r].pc == Resumed(s.loops[r].pc.attempt, TimedOut)
  {
    OfferTiming(s, r);
  }

  // ---- Nobody waits for ever ----

  /** A trip that is being matched has a loop working on it, which nothing but a pending cancellation can stop. */
  predicate Attended(s: State, tripId: Id)
    requires tripId in s.m.trips
  {
    var t := s.m.trips[tripId];
    t.status == Matching ==>
      && t.requestId in s.loops && s.loops[t.requestId].tripId == tripId
      && (t.requestId in s.aborted ==> s.loops[t.requestId].pc.Revoking? && s.loops[t.requestId].pc.actor != Driving)
  }

  ghost predicate AllAttended(s: State) {
    forall id {:trigger Attended(s, id)} | id in s.m.trips :: Attended(s, id)
  }

  /** The cancellation that strands a trip: in the driver's name, while nobody has been assigned. */
  predicate Strands(s: State, step: Step) {
    && step.CancelStartStep? && step.actor == Driving && TripByRequest(s.m, step.r).Some?
    && s.m.trips[TripByRequest(s.m, step.r).value].status == Matching
    && step.r in s.loops && !s.loops[step.r].pc.Revoking?
  }

  /** One loop moves on without being cancelled. */
  lemma LoopAttends(s: State, s': State, r: Id)
    requires Inv(s) && AllAttended(s) && r in s.loops && !s.loops[r].pc.Revoking?
    requires s'.m == s.m && s'.loops - {r} == s.loops - {r} && s'.aborted - {r} == s.aborted - {r}
    requires if r in s'.loops then s'.loops[r].tripId == s.loops[r].tripId && (r in s'.aborted ==> r in s.aborted) else
               r in s.aborted || StatusOf(s.m, s.loops[r].tripId) != Some(Matching)
    ensures AllAttended(s')
  {
    forall id | id in s'.m.trips ensures Attended(s', id) {
      assert Attended(s, id);
      var q := s.m.trips[id].requestId;
      if q != r {
        SameLoop(s.loops, s'.loops, r, q);
        assert q in s'.aborted <==> q in s'.aborted - {r};
        assert q in s.aborted <==> q in s.aborted - {r};
      }
    }
  }

  /** A trip moves elsewhere than to matching. */
  lemma MoveAttends(s: State, tripId: Id, to: TripStatus, actor: Role, reason: Option<string>, driver: Option<Id>)
    requires Inv(s) && to != Matching && (forall id | id in s.m.trips && id != tripId :: Attended(s, id))
    requires tripId in s.m.trips && !Attended(s, tripId) ==>
        Transition(s.m, tripId, to, actor, reason, driver, s.now).1.Moved?
    ensures AllAttended(s.(m := Transition(s.m, tripId, to, actor, reason, driver, s.now).0))
  {
    MoveSpares(s.m, tripId, to, actor, reason, driver, s.now);
    MovedAwayAttends(s, Transition(s.m, tripId, to, actor, reason, driver, s.now).0, tripId);
  }

  lemma MoveSpares(
      m: Machine, tripId: Id, to: TripStatus, actor: Role, reason: Option<string>, driver: Option<Id>, now: int)
    requires IndexesOk(m) && to != Matching
    ensures
      var (m', res) := Transition(m, tripId, to, actor, reason, driver, now);
      && (forall id | id in m'.trips && id != tripId :: id in m.trips && m'.trips[id] == m.trips[id])
      && (tripId in m'.trips && m'.trips[tripId].status == Matching ==>
        !res.Moved? && tripId in m.trips && m'.trips[tripId] == m.trips[tripId])
  {
    if Transition(m, tripId, to, actor, reason, driver, now).1.Moved? {
      MovedShape(m, tripId, to, actor, reason, driver, now);
    }
  }

  lemma MovedAwayAttends(s: State, m: Machine, tripId: Id)
    requires forall id | id in s.m.trips && id != tripId :: Attended(s, id)
    requires forall id | id in m.trips && id != tripId :: id in s.m.trips && m.trips[id] == s.m.trips[id]
    requires tripId in m.trips && m.trips[tripId].status == Matching ==>
        tripId in s.m.trips && m.trips[tripId] == s.m.trips[tripId] && Attended(s, tripId)
    ensures AllAttended(s.(m := m))
  {
    forall id | id in m.trips ensures Attended(s.(m := m), id) {
      if m.trips[id].status == Matching {
        SameTripAttends(s, s.(m := m), id);
      }
    }
  }

  lemma SameTripAttends(s: State, s': State, id: Id)
    requires id in s.m.trips && id in s'.m.trips && s'.m.trips[id] == s.m.trips[id] && Attended(s, id)
    requires s'.loops == s.loops && s'.aborted == s.aborted
    ensures Attended(s', id)
  {
  }

  lemma TopAttends(s: State, r: Id, candidates: seq<Candidate>, lockAt: int)
    requires Inv(s) && AllAttended(s) && r in s.loops && s.loops[r].pc.Ready?
    ensures AllAttended(Top(s, r, candidates, lockAt))
  {
    var l := s.loops[r];
    if l.config.k <= l.i || (r !in s.aborted && (!BudgetLeft(s, l) || FirstUntried(candidates, l.tried) == None)) {
      GiveUpAttends(s, r);
    } else {
      var s' := Top(s, r, candidates, lockAt);
      LoopAttends(s, s', r);
    }
  }

  lemma GiveUpAttends(s: State, r: Id)
    requires Inv(s) && AllAttended(s) && r in s.loops && s.loops[r].pc.Ready?
    ensures AllAttended(GiveUp(s, r))
  {
    if r in s.aborted {
      LoopAttends(s, EndLoop(s, r), r);
    } else {
      assert LoopInv(s, r);
      CancelsMatching(s.m, s.loops[r].tripId, GiveUpReason(s.loops[r]), s.now);
      EndedAttends(s, r, TripStatus.Cancelled, Some(GiveUpReason(s.loops[r])), None);
    }
  }

  /** A loop ends together with the matching of its trip. */
  lemma EndedAttends(s: State, r: Id, to: TripStatus, reason: Option<string>, driver: Option<Id>)
    requires Inv(s) && AllAttended(s) && r in s.loops && to != Matching
    requires Transition(s.m, s.loops[r].tripId, to, System, reason, driver, s.now).1.Moved?
    ensures AllAttended(EndLoop(s.(m := Transition(s.m, s.loops[r].tripId, to, System, reason, driver, s.now).0), r))
  {
    var tripId := s.loops[r].tripId;
    MovedShape(s.m, tripId, to, System, reason, driver, s.now);
    var s' := EndLoop(s.(m := Transition(s.m, tripId, to, System, reason, driver, s.now).0), r);
    forall id | id in s'.m.trips ensures Attended(s', id) {
      assert Attended(s, id) && TripOk(s.m, id);
    }
  }

  lemma ResumeAttends(s: State, r: Id)
    requires Inv(s) && AllAttended(s) && r in s.loops && s.loops[r].pc.Resumed?
    ensures AllAttended(Resume(s, r))
  {
    assert LoopInv(s, r);
    ResumedLoop(s, r);
    LoopAttends(s, Resume(s, r), r);
  }

  /** What resuming does to the loops and the aborted requests. */
  lemma ResumedLoop(s: State, r: Id)
    requires r in s.loops && s.loops[r].pc.Resumed? && (s.loops[r].pc.outcome == Withdrawn ==> r in s.aborted)
    ensures
      var s' := Resume(s, r);
      && s'.m == s.m && s'.loops - {r} == s.loops - {r} && s'.aborted - {r} == s.aborted - {r}
      && if r in s'.loops then s'.loops[r].tripId == s.loops[r].tripId && s'.aborted == s.aborted
         else r in s.aborted || StatusOf(s.m, s.loops[r].tripId) != Some(Matching)
  {
  }

  lemma AssignAttends(s: State, r: Id)
    requires Inv(s) && AllAttended(s) && r in s.loops && s.loops[r].pc.Committed?
    ensures AllAttended(Assign(s, r))
  {
    var l, d := s.loops[r], s.loops[r].pc.attempt.driver;
    AssignSucceeds(s, r);
    var (m, res) := Transition(s.m, l.tripId, Matched, System, None, Some(d), s.now);
    if res.Success() {
      EndedAttends(s, r, Matched, None, Some(d));
    } else {
      LoopAttends(s, Assign(s, r), r);
    }
  }

  lemma StartLoopAttends(s: State, r: Id, tripId: Id, pickup: Pos, reason: Option<string>, config: Config)
    requires Core(s) && AllAttended(s) && tripId in s.m.trips && s.m.trips[tripId].requestId == r
    requires s.m.trips[tripId].status != Matching
    ensures AllAttended(StartLoop(s, r, tripId, pickup, reason, config))
  {
    var (m, res) := Transition(s.m, tripId, Matching, System, reason, None, s.now);
    var s' := StartLoop(s, r, tripId, pickup, reason, config);
    if res.Moved? {
      MovedShape(s.m, tripId, Matching, System, reason, None, s.now);
    }
    forall id | id in s'.m.trips ensures Attended(s', id) {
      assert Attended(s, id) && TripOk(s.m, id) && TripOk(s.m, tripId);
    }
  }

  lemma RequestAttends(s: State, r: Id, rider: Id, pickup: Pos, dropoff: Pos, config: Config, newId: Id)
    requires Inv(s) && AllAttended(s) && Fresh(s, newId) && (r in s.loops ==> r in s.m.requestToTrip)
    ensures AllAttended(Request(s, r, rider, pickup, dropoff, config, newId))
  {
    var (m, res) := CreateTrip(s.m, r, rider, pickup, dropoff, newId, s.now);
    if res.Created? {
      CreateTripOk(s.m, r, rider, pickup, dropoff, newId, s.now);
      CreatedTrips(s.m, r, rider, pickup, dropoff, newId, s.now);
      CreateKeeps(s, m, NewTrip(newId, r, rider, pickup, dropoff, s.now));
      var s1 := s.(m := m);
      forall id | id in m.trips ensures Attended(s1, id) {
        assert id != newId ==> Attended(s, id);
      }
      StartLoopAttends(s1, r, newId, pickup, None, config);
    } else {
      assert Request(s, r, rider, pickup, dropoff, config, newId) == s;
    }
  }

  lemma EndTripAttends(s: State, tripId: Id, to: TripStatus, actor: Role, reason: Option<string>)
    requires Inv(s) && Terminal(to) && tripId in s.m.trips
    requires forall id | id in s.m.trips && id != tripId :: Attended(s, id)
    requires !Attended(s, tripId) ==>
        to == TripStatus.Cancelled && s.m.trips[tripId].status == Matching && actor != Driving
    ensures AllAttended(EndTrip(s, tripId, to, actor, reason))
  {
    MoveAttends(s, tripId, to, actor, reason, None);
    var s1, s' := s.(m := Transition(s.m, tripId, to, actor, reason, None, s.now).0),
      EndTrip(s, tripId, to, actor, reason);
    forall id | id in s'.m.trips ensures Attended(s', id) {
      assert Attended(s1, id);
    }
  }

  lemma WaitingCancelAttends(s: State, r: Id, actor: Role, reason: Option<string>)
    requires Inv(s) && AllAttended(s) && r in s.offers && r in s.loops && s.loops[r].pc.Waiting?
    ensures AllAttended(CancelStart(s, r, actor, reason)) <==> !Strands(s, CancelStartStep(r, actor, reason))
  {
    var s', tripId := CancelStart(s, r, actor, reason), s.loops[r].tripId;
    assert LoopInv(s, r);
    if TripByRequest(s.m, r).Some? {
      assert RequestOk(s.m, r);
      LiveLoopsTrip(s, r, TripByRequest(s.m, r).value);
    }
    if tripId in s.m.trips {
      assert TripOk(s.m, tripId);
      assert Attended(s', tripId) <==> (s.m.trips[tripId].status == Matching ==> actor != Driving);
    }
    forall id | id in s.m.trips && id != tripId ensures Attended(s', id) {
      assert Attended(s, id) && TripOk(s.m, id);
    }
  }

  lemma FinishCancelAttends(s: State, r: Id, actor: Role, reason: Option<string>)
    requires Inv(s) && r in s.aborted && actor != Driving
    requires forall id | id in s.m.trips && s.m.trips[id].requestId != r :: Attended(s, id)
    ensures AllAttended(FinishCancel(s, r, actor, reason))
  {
    if TripByRequest(s.m, r).Some? {
      var tripId := TripByRequest(s.m, r).value;
      assert RequestOk(s.m, r);
      forall id | id in s.m.trips && id != tripId ensures Attended(s, id) {
        assert TripOk(s.m, id);
      }
      EndTripAttends(s, tripId, TripStatus.Cancelled, actor, reason);
    } else {
      forall id | id in s.m.trips ensures Attended(s, id) {
        assert TripOk(s.m, id);
      }
    }
  }

  lemma OthersAttended(s: State, s1: State, r: Id)
    requires Inv(s) && AllAttended(s) && s1.m == s.m && s1.aborted == s.aborted + {r} && s1.loops - {r} == s.loops - {r}
    ensures forall id | id in s1.m.trips && s1.m.trips[id].requestId != r :: Attended(s1, id)
  {
    forall id | id in s1.m.trips && s1.m.trips[id].requestId != r ensures Attended(s1, id) {
      assert Attended(s, id);
      SameLoop(s.loops, s1.loops, r, s.m.trips[id].requestId);
    }
  }

  /** A driver-role cancellation of an unassigned trip is refused by the machine, after its loop was told to stop. */
  lemma DriverCancelAttends(s: State, r: Id, reason: Option<string>)
    requires Inv(s) && AllAttended(s) && !(r in s.offers && r in s.loops && s.loops[r].pc.Waiting?)
    ensures AllAttended(CancelStart(s, r, Driving, reason)) <==> !Strands(s, CancelStartStep(r, Driving, reason))
  {
    var s1 := s.(aborted := s.aborted + {r});
    var s' := CancelStart(s, r, Driving, reason);
    AbortKeeps(s, r);
    OthersAttended(s, s1, r);
    if TripByRequest(s.m, r).Some? {
      var tripId := TripByRequest(s.m, r).value;
      assert RequestOk(s.m, r) && Attended(s, tripId);
      forall id | id in s.m.trips && id != tripId ensures Attended(s1, id) {
        assert TripOk(s.m, id);
      }
      if s.m.trips[tripId].status == Matching {
        assert s'.m == s.m && s'.loops == s.loops && s'.aborted == s1.aborted;
        assert LoopInv(s, r);
        assert Attended(s', tripId) <==> s.loops[r].pc.Revoking?;
        forall id | id in s.m.trips && id != tripId ensures Attended(s', id) {
          assert Attended(s1, id);
        }
      } else {
        EndTripAttends(s1, tripId, TripStatus.Cancelled, Driving, reason);
      }
    } else {
      forall id | id in s.m.trips ensures Attended(s', id) {
        assert TripOk(s.m, id);
      }
    }
  }

  lemma CancelStartAttends(s: State, r: Id, actor: Role, reason: Option<string>)
    requires Inv(s) && AllAttended(s)
    ensures AllAttended(CancelStart(s, r, actor, reason)) <==> !Strands(s, CancelStartStep(r, actor, reason))
  {
    if r in s.offers && r in s.loops && s.loops[r].pc.Waiting? {
      WaitingCancelAttends(s, r, actor, reason);
    } else if actor == Driving {
      DriverCancelAttends(s, r, reason);
    } else {
      var s1 := s.(aborted := s.aborted + {r});
      AbortKeeps(s, r);
      OthersAttended(s, s1, r);
      FinishCancelAttends(s1, r, actor, reason);
    }
  }

  lemma CancelFinishAttends(s: State, r: Id)
    requires Inv(s) && AllAttended(s) && r in s.loops && s.loops[r].pc.Revoking?
    ensures AllAttended(CancelFinish(s, r))
  {
    var pc := s.loops[r].pc;
    var s1 := WithPc(s, r, Resumed(pc.attempt, Withdrawn));
    assert LoopInv(s, r);
    NoLease(s, r);
    assert LoopInv(s1, r);
    LoopStep(s, s1, r);
    OthersAttended(s, s1, r);
    if pc.actor != Driving {
      FinishCancelAttends(s1, r, pc.actor, pc.why);
    } else {
      forall id | id in s1.m.trips ensures Attended(s1, id) {
        assert Attended(s, id);
      }
      if TripByRequest(s1.m, r).Some? {
        EndTripAttends(s1, TripByRequest(s1.m, r).value, TripStatus.Cancelled, pc.actor, pc.why);
      }
    }
  }

  lemma SameMatchingAttends(s: State, s': State)
    requires AllAttended(s) && s'.m == s.m && s'.loops == s.loops && s'.aborted == s.aborted
    ensures AllAttended(s')
  {
    forall id | id in s'.m.trips ensures Attended(s', id) {
      assert Attended(s, id);
    }
  }

  lemma MilestoneAttends(s: State, tripId: Id, d: Id, to: TripStatus)
    requires Inv(s) && AllAttended(s)
    ensures AllAttended(ReachMilestone(s, tripId, d, to))
  {
    if tripId in s.m.trips && s.m.trips[tripId].driverId == Some(d) {
      assert Attended(s, tripId);
      if to == Completed {
        EndTripAttends(s, tripId, Completed, Driving, None);
      } else if to in {EnRoute, Arrived, InProgress} {
        MoveAttends(s, tripId, to, Driving, None, None);
      }
    }
  }

  lemma RespondAttends(s: State, r: Id, driver: Id, accept: bool)
    requires Inv(s) && AllAttended(s)
    ensures AllAttended(Respond(s, r, driver, accept))
  {
    if r in s.loops && s.loops[r].pc.Waiting? {
      LoopAttends(s, Respond(s, r, driver, accept), r);
    }
  }

  lemma RematchAttends(s: State, tripId: Id, reason: Option<string>, config: Config)
    requires Inv(s) && AllAttended(s)
    ensures AllAttended(Rematch(s, tripId, reason, config))
  {
    if tripId in s.m.trips && s.m.trips[tripId].status != Matching {
      StartLoopAttends(s, s.m.trips[tripId].requestId, tripId, s.m.trips[tripId].pickup, reason, config);
    }
  }

  lemma LoopStepAttends(s: State, step: Step, r: Id)
    requires Inv(s) && AllAttended(s) && Enabled(s, step) && StepOf(step, r)
    ensures AllAttended(Apply(s, step))
  {
    match step
    case TopStep(_, candidates, lockAt) => TopAttends(s, r, candidates, lockAt);
    case PublishStep(_) => LoopAttends(s, Publish(s, r), r);
    case TimerStep(_) => LoopAttends(s, Settle(s, r, TimedOut), r);
    case ResumeStep(_) => ResumeAttends(s, r);
    case UnwindStep(_) => LoopAttends(s, Unwind(s, r), r);
    case AssignStep(_) => AssignAttends(s, r);
    case CancelFinishStep(_) => CancelFinishAttends(s, r);
  }

  /** No step leaves a trip waiting without a loop, but a cancellation in the driver's name before assignment. */
  lemma StepAttendsIff(s: State, step: Step)
    requires Inv(s) && AllAttended(s) && Enabled(s, step)
    ensures AllAttended(Apply(s, step)) <==> !Strands(s, step)
  {
    match step
    case RequestStep(r, rider, pickup, dropoff, config, newId) =>
      RequestAttends(s, r, rider, pickup, dropoff, config, newId);
    case RespondStep(r, driver, accept) => RespondAttends(s, r, driver, accept);
    case CancelStartStep(r, actor, reason) => CancelStartAttends(s, r, actor, reason);
    case RematchStep(tripId, reason, config) => RematchAttends(s, tripId, reason, config);
    case MilestoneStep(tripId, driver, to) => MilestoneAttends(s, tripId, driver, to);
    case TopStep(r, _, _) => LoopStepAttends(s, step, r);
    case PublishStep(r) => LoopStepAttends(s, step, r);
    case TimerStep(r) => LoopStepAttends(s, step, r);
    case ResumeStep(r) => LoopStepAttends(s, step, r);
    case UnwindStep(r) => LoopStepAttends(s, step, r);
    case AssignStep(r) => LoopStepAttends(s, step, r);
    case CancelFinishStep(r) => LoopStepAttends(s, step, r);
    case _ =>
      OutsideLeaves(s, step);
      SameMatchingAttends(s, Apply(s, step));
  }

  ghost predicate StrandsNobody(states: seq<State>, steps: seq<Step>) {
    |steps| < |states| && forall n {:trigger Strands(states[n], steps[n])} | 0 <= n < |steps| ::
      !Strands(states[n], steps[n])
  }

  /** In a run without such a cancellation no trip ever waits without a loop. */
  lemma {:induction false} EveryStateAttended(states: seq<State>, steps: seq<Step>, i: nat)
    requires IsRun(states, steps) && StrandsNobody(states, steps) && i < |states|
    ensures AllAttended(states[i])
  {
    if i > 0 {
      EveryStateAttended(states, steps, i - 1);
      RunInv(states, steps, i - 1);
      RunStep(states, steps, i - 1);
      assert !Strands(states[i - 1], steps[i - 1]);
      StepAttendsIff(states[i - 1], steps[i - 1]);
    }
  }

  lemma RunStep(states: seq<State>, steps: seq<Step>, i: nat)
    requires IsRun(states, steps) && i < |steps|
    ensures Enabled(states[i], steps[i]) && Careful(states[i], steps[i]) && states[i + 1] == Apply(states[i], steps[i])
  {
  }
}
