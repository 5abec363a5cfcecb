/** Ownership in every reachable state of the dispatch protocol. */
module DispatchSafety {
  import opened Geometry
  import opened Candidates
  import opened RegistryModel
  import opened TripModel
  import opened Dispatch

  // ---- What one driver, one loop and the trips satisfy ----

  predicate HoldsLease(pc: Pc) {
    pc.Locked? || pc.Waiting? || (pc.Resumed? && pc.outcome != Withdrawn)
  }

  /** A lease belongs to the loop it names, and expires when that loop said. */
  predicate LeaseOf(loops: map<Id, Loop>, d: Id, lock: Lock) {
    && lock.requestId in loops && HoldsLease(loops[lock.requestId].pc)
    && var a := loops[lock.requestId].pc.attempt;
       a.driver == d && lock.expiresAt == a.lockedAt + a.timeoutMs + LOCK_SAFETY_MARGIN_MS
  }

  /** A driver out of the search index for good, as long as nothing makes it available. */
  predicate OffMarket(reg: Registry, d: Id) {
    d in reg.drivers && reg.drivers[d].status != Available && InBox(reg.region, reg.drivers[d].pos)
  }

  predicate DriverInv(s: State, d: Id)
    requires d in s.reg.drivers
  {
    && (s.reg.drivers[d].lock.Some? ==> LeaseOf(s.loops, d, s.reg.drivers[d].lock.value))
    && (d in s.m.activeDrivers ==> OffMarket(s.reg, d))
  }

  predicate AttemptInv(l: Loop, a: Attempt, reg: Registry) {
    && l.i < l.config.k && a.driver in l.tried && a.driver in reg.drivers && a.readAt <= a.lockedAt
    && a.timeoutMs == MinInt(l.config.offerTimeoutMs, l.deadline - a.readAt)
    && MinInt(MIN_OFFER_BUDGET_MS, l.config.offerTimeoutMs) <= a.timeoutMs
  }

  ghost predicate TurnInv(l: Loop, reg: Registry) {
    && |l.tried| == l.i + (if l.pc.Ready? then 0 else 1) && (l.i == 0 || l.i <= l.config.k)
    && (l.hadCandidates <==> l.tried != {})
    && (forall x | x in l.offered :: x in l.tried)
    && (forall i, j | 0 <= i < j < |l.offered| :: l.offered[i] != l.offered[j])
    && (l.pc.Locked? ==> l.pc.attempt.driver !in l.offered)
    && (!l.pc.Ready? ==> AttemptInv(l, l.pc.attempt, reg))
  }

  predicate OfferInv(s: State, r: Id)
    requires r in s.loops
  {
    var pc := s.loops[r].pc;
    && (pc.Waiting? <==> r in s.offers)
    && (pc.Waiting? ==> s.offers[r] == Offer(pc.attempt.driver, pc.publishedAt + pc.attempt.timeoutMs))
    && (pc.Revoking? || (pc.Resumed? && pc.outcome == Withdrawn) ==> r in s.aborted)
  }

  /** The trip of a live loop is still matching, or it was cancelled and the loop will notice. */
  predicate LoopTripInv(m: Machine, r: Id, tripId: Id, aborted: bool) {
    if tripId in m.trips then
      var t := m.trips[tripId];
      t.requestId == r && t.driverId == None && (t.status == Matching || (t.status == TripStatus.Cancelled && aborted))
    else aborted && r !in m.requestToTrip
  }

  predicate CommitsTo(l: Loop, d: Id) {
    l.pc.Committed? && l.pc.attempt.driver == d
  }

  /** Nobody but `r` has committed driver `d`, and no trip has it. */
  ghost predicate SoleCommit(s: State, r: Id, d: Id) {
    && OffMarket(s.reg, d) && d !in s.m.activeDrivers
    && forall q {:trigger s.loops[q]} | q in s.loops && q != r :: !CommitsTo(s.loops[q], d)
  }

  ghost predicate LoopInv(s: State, r: Id)
    requires r in s.loops
  {
    var l := s.loops[r];
    && TurnInv(l, s.reg) && OfferInv(s, r) && LoopTripInv(s.m, r, l.tripId, r in s.aborted)
    && (l.pc.Committed? ==> SoleCommit(s, r, l.pc.attempt.driver))
  }

  ghost predicate Core(s: State) {
    && RegistryOk(s.reg) && MachineOk(s.m)
    && s.m.activeDrivers.Keys <= s.reg.drivers.Keys && s.offers.Keys <= s.loops.Keys
    && (forall d {:trigger DriverInv(s, d)} | d in s.reg.drivers :: DriverInv(s, d))
    && (forall r {:trigger LoopInv(s, r)} | r in s.loops :: LoopInv(s, r))
  }

  predicate NoneRequested(m: Machine) {
    forall id | id in m.trips :: m.trips[id].status != Requested
  }

  ghost predicate Inv(s: State) {
    Core(s) && NoneRequested(s.m)
  }

  // ---- Three kinds of change ----

  /** A driver held by a trip or a commit. */
  ghost predicate Engaged(s: State, d: Id) {
    d in s.m.activeDrivers || exists r :: r in s.loops && CommitsTo(s.loops[r], d)
  }

  /** The registry changes one driver. */
  lemma RegistryStep(s: State, reg: Registry, d: Id)
    requires Core(s) && RegistryOk(reg) && OnlyTouches(s.reg, reg, d)
    requires d in reg.drivers && reg.drivers[d].lock.Some? ==> LeaseOf(s.loops, d, reg.drivers[d].lock.value)
    requires Engaged(s, d) ==> OffMarket(reg, d)
    ensures Core(s.(reg := reg))
  {
    var s' := s.(reg := reg);
    forall e | e in reg.drivers ensures DriverInv(s', e) {
      if e != d {
        SameElsewhere(s.reg, reg, d, e);
        assert DriverInv(s, e);
      }
    }
    forall r | r in s'.loops ensures LoopInv(s', r) {
      assert LoopInv(s, r);
      if s.loops[r].pc.Committed? {
        var e := s.loops[r].pc.attempt.driver;
        if e == d {
          assert CommitsTo(s.loops[r], d);
        } else {
          SameElsewhere(s.reg, reg, d, e);
        }
        assert SoleCommit(s', r, e);
      }
    }
  }

  lemma SameElsewhere(r: Registry, r': Registry, d: Id, e: Id)
    requires OnlyTouches(r, r', d) && e != d
    ensures e in r'.drivers <==> e in r.drivers
    ensures e in r.drivers ==> r'.drivers[e] == r.drivers[e]
    ensures OffMarket(r, e) ==> OffMarket(r', e)
  {
    assert e in r'.drivers <==> e in r'.drivers - {d};
    assert e in r.drivers <==> e in r.drivers - {d};
    if e in r.drivers {
      assert r'.drivers[e] == (r'.drivers - {d})[e] == (r.drivers - {d})[e];
    }
  }

  /** No driver carries a lease naming `r`. */
  ghost predicate Unleased(reg: Registry, r: Id) {
    forall d {:trigger Holder(reg, d)} | d in reg.drivers :: Holder(reg, d) != Some(r)
  }

  ghost predicate OnlyLoop(s: State, s': State, r: Id) {
    && s'.reg == s.reg && s'.m == s.m && s'.loops - {r} == s.loops - {r} && s'.offers - {r} == s.offers - {r}
    && s'.aborted - {r} == s.aborted - {r}
  }

  /** One loop moves on. */
  lemma LoopStep(s: State, s': State, r: Id)
    requires Core(s) && OnlyLoop(s, s', r)
    requires r in s'.offers ==> r in s'.loops
    requires r in s'.loops ==> LoopInv(s', r)
    requires
      || Unleased(s.reg, r)
      || (r in s.loops && r in s'.loops && HoldsLease(s.loops[r].pc) && HoldsLease(s'.loops[r].pc)
        && s'.loops[r].pc.attempt == s.loops[r].pc.attempt)
    ensures Core(s')
  {
    forall d | d in s'.reg.drivers ensures DriverInv(s', d) {
      assert DriverInv(s, d);
      assert Holder(s.reg, d) == Some(r) || Holder(s.reg, d) != Some(r);
      if s.reg.drivers[d].lock.Some? {
        var q := s.reg.drivers[d].lock.value.requestId;
        if q != r {
          SameLoop(s.loops, s'.loops, r, q);
        }
      }
    }
    forall q | q in s'.loops ensures LoopInv(s', q) {
      if q != r {
        OtherLoop(s, s', r, q);
      }
    }
    forall q | q in s'.offers ensures q in s'.loops {
      if q != r {
        SameLoop(s.loops, s'.loops, r, q);
        assert q in s'.offers - {r};
      }
    }
  }

  lemma SameLoop<V>(a: map<Id, V>, b: map<Id, V>, r: Id, q: Id)
    requires b - {r} == a - {r} && q != r
    ensures q in a <==> q in b
    ensures q in a ==> a[q] == b[q]
  {
    assert q in a <==> q in a - {r};
    assert q in b <==> q in b - {r};
    if q in a {
      assert a[q] == (a - {r})[q] == (b - {r})[q];
    }
  }

  lemma OtherLoop(s: State, s': State, r: Id, q: Id)
    requires Core(s) && OnlyLoop(s, s', r) && q != r && q in s'.loops
    requires r in s'.loops ==> LoopInv(s', r)
    ensures LoopInv(s', q)
  {
    SameLoop(s.loops, s'.loops, r, q);
    SameLoop(s.offers, s'.offers, r, q);
    assert LoopInv(s, q);
    assert q in s'.aborted <==> q in s'.aborted - {r};
    assert q in s.aborted <==> q in s.aborted - {r};
    if s'.loops[q].pc.Committed? {
      var d := s'.loops[q].pc.attempt.driver;
      forall p | p in s'.loops && p != q ensures !CommitsTo(s'.loops[p], d) {
        if p != r {
          SameLoop(s.loops, s'.loops, r, p);
        } else {
          assert CommitsTo(s'.loops[q], d);
          assert LoopInv(s', r);
        }
      }
    }
  }

  /** A machine that took nobody on and left live loops their trips keeps the rest in order. */
  lemma MachineChange(s: State, m: Machine)
    requires Core(s) && MachineOk(m) && m.activeDrivers.Keys <= s.m.activeDrivers.Keys
    requires forall r | r in s.loops :: LoopTripInv(m, r, s.loops[r].tripId, r in s.aborted)
    ensures Core(s.(m := m))
  {
    var s' := s.(m := m);
    forall d | d in s'.reg.drivers ensures DriverInv(s', d) {
      assert DriverInv(s, d);
    }
    forall r | r in s'.loops ensures LoopInv(s', r) {
      assert LoopInv(s, r);
    }
  }

  /** The machine moves one trip, other than to a driver or back to matching. */
  lemma MachineStep(s: State, tripId: Id, to: TripStatus, actor: Role, reason: Option<string>, driver: Option<Id>)
    requires Core(s) && to != Matched && to != Matching
    requires to == TripStatus.Cancelled && tripId in s.m.trips ==>
        s.m.trips[tripId].requestId !in s.loops || s.m.trips[tripId].requestId in s.aborted
    ensures Core(s.(m := Transition(s.m, tripId, to, actor, reason, driver, s.now).0))
  {
    var (m', res) := Transition(s.m, tripId, to, actor, reason, driver, s.now);
    TransitionOk(s.m, tripId, to, actor, reason, driver, s.now);
    if res.Moved? {
      MovedShape(s.m, tripId, to, actor, reason, driver, s.now);
      ShrunkDrivers(s.m, m', tripId);
      MovedLoopTrips(s, m', tripId, to);
      MachineChange(s, m');
    }
  }

  lemma MovedLoopTrips(s: State, m': Machine, tripId: Id, to: TripStatus)
    requires Core(s) && to != Matched && to != Matching && tripId in s.m.trips && tripId in m'.trips
    requires Active(s.m.trips[tripId]) && Allowed(s.m.trips[tripId].status, to) && m'.trips[tripId].status == to
    requires m'.trips == s.m.trips[tripId := m'.trips[tripId]] && SameTrip(s.m.trips[tripId], m'.trips[tripId])
    requires m'.requestToTrip == s.m.requestToTrip
    requires s.m.trips[tripId].driverId == None ==> m'.trips[tripId].driverId == None
    requires to == TripStatus.Cancelled ==>
        s.m.trips[tripId].requestId !in s.loops || s.m.trips[tripId].requestId in s.aborted
    ensures forall r | r in s.loops :: LoopTripInv(m', r, s.loops[r].tripId, r in s.aborted)
  {
    forall r | r in s.loops ensures LoopTripInv(m', r, s.loops[r].tripId, r in s.aborted) {
      assert LoopInv(s, r);
      MovedLoopTrip(s.m, m', tripId, to, r, s.loops[r].tripId, r in s.aborted);
    }
  }

  lemma MovedLoopTrip(m: Machine, m': Machine, tripId: Id, to: TripStatus, r: Id, loopTrip: Id, aborted: bool)
    requires LoopTripInv(m, r, loopTrip, aborted)
    requires tripId in m.trips && tripId in m'.trips && m'.trips == m.trips[tripId := m'.trips[tripId]]
    requires SameTrip(m.trips[tripId], m'.trips[tripId]) && m'.trips[tripId].status == to
    requires m'.requestToTrip == m.requestToTrip
    requires m.trips[tripId].driverId == None ==> m'.trips[tripId].driverId == None
    requires loopTrip == tripId ==> to == TripStatus.Cancelled && aborted
    ensures LoopTripInv(m', r, loopTrip, aborted)
  {
  }

  lemma ShrunkDrivers(m: Machine, m': Machine, tripId: Id)
    requires MachineOk(m) && tripId in m.trips && Active(m.trips[tripId]) && tripId in m'.trips
    requires m'.trips[tripId].driverId.Some? ==>
        m'.trips[tripId].driverId == m.trips[tripId].driverId || !Active(m'.trips[tripId])
    requires m'.activeDrivers == DriversAfter(m.activeDrivers, m.trips[tripId], m'.trips[tripId])
    ensures m'.activeDrivers.Keys <= m.activeDrivers.Keys
  {
    assert TripOk(m, tripId);
  }

  // ---- The steps of an offer loop ----

  /** Without its lease on the driver it holds, a loop has no lease at all. */
  lemma OneLease(s: State, r: Id, d: Id)
    requires Core(s) && Holder(s.reg, d) != Some(r)
    requires r in s.loops && HoldsLease(s.loops[r].pc) ==> s.loops[r].pc.attempt.driver == d
    ensures Unleased(s.reg, r)
  {
    forall e | e in s.reg.drivers ensures Holder(s.reg, e) != Some(r) {
      assert DriverInv(s, e);
    }
  }

  lemma EndLoopKeeps(s: State, r: Id)
    requires Core(s) && Unleased(s.reg, r) && (r in s.loops ==> !s.loops[r].pc.Waiting?)
    ensures Core(EndLoop(s, r))
  {
    if r in s.loops {
      assert LoopInv(s, r);
    }
    LoopStep(s, EndLoop(s, r), r);
  }

  lemma GiveUpKeeps(s: State, r: Id)
    requires Inv(s) && r in s.loops && s.loops[r].pc.Ready?
    ensures Inv(GiveUp(s, r))
  {
    var l := s.loops[r];
    assert LoopInv(s, r);
    NoLease(s, r);
    EndLoopKeeps(s, r);
    if r !in s.aborted {
      var reason := GiveUpReason(l);
      MachineStep(EndLoop(s, r), l.tripId, TripStatus.Cancelled, System, Some(reason), None);
      NoneRequestedAfter(s.m, l.tripId, TripStatus.Cancelled, System, Some(reason), None, s.now);
      assert CancelByLoop(EndLoop(s, r), l.tripId, reason) == EndLoop(CancelByLoop(s, l.tripId, reason), r);
    }
  }

  lemma NoLease(s: State, r: Id)
    requires Core(s) && (r in s.loops ==> !HoldsLease(s.loops[r].pc))
    ensures Unleased(s.reg, r)
  {
    forall e | e in s.reg.drivers ensures Holder(s.reg, e) != Some(r) {
      assert DriverInv(s, e);
    }
  }

  lemma NoneRequestedAfter(
      m: Machine, tripId: Id, to: TripStatus, actor: Role, reason: Option<string>, driver: Option<Id>, now: int)
    requires IndexesOk(m) && NoneRequested(m)
    ensures NoneRequested(Transition(m, tripId, to, actor, reason, driver, now).0)
  {
    if Transition(m, tripId, to, actor, reason, driver, now).1.Moved? {
      MovedShape(m, tripId, to, actor, reason, driver, now);
    }
  }

  lemma TryDriverKeeps(s: State, r: Id, d: Id, lockAt: int)
    requires Inv(s) && r in s.loops && s.loops[r].pc.Ready? && s.loops[r].i < s.loops[r].config.k
    requires BudgetLeft(s, s.loops[r]) && s.now <= lockAt && d in s.reg.index && d !in s.loops[r].tried
    ensures Inv(TryDriver(s, r, d, lockAt))
  {
    var l := s.loops[r];
    var a := Attempt(d, MinInt(l.config.offerTimeoutMs, l.deadline - s.now), s.now, lockAt);
    var (reg, locked) := AcquireLock(s.reg, d, r, a.timeoutMs + LOCK_SAFETY_MARGIN_MS, lockAt);
    TriedKeeps(s, r, a, locked);
    var s1 := s.(loops := s.loops[r := AfterTry(l, a, locked)]);
    LockKeeps(s1, r, d, a.timeoutMs + LOCK_SAFETY_MARGIN_MS, lockAt);
    Clock(s1.(reg := reg), lockAt);
    assert TryDriver(s, r, d, lockAt) == s1.(reg := reg, now := lockAt);
  }

  lemma LockKeeps(s: State, r: Id, d: Id, ttlMs: int, lockAt: int)
    requires Core(s) && d in s.reg.index
    requires AcquireLock(s.reg, d, r, ttlMs, lockAt).1 ==> LeaseOf(s.loops, d, Lock(r, lockAt + ttlMs))
    ensures Core(s.(reg := AcquireLock(s.reg, d, r, ttlMs, lockAt).0))
  {
    AcquireLockOk(s.reg, d, r, ttlMs, lockAt);
    Indexed(s, d);
    RegistryStep(s, AcquireLock(s.reg, d, r, ttlMs, lockAt).0, d);
  }

  /** The loop notes a driver as tried, and goes on to offer or to its next turn. */
  lemma TriedKeeps(s: State, r: Id, a: Attempt, locked: bool)
    requires Core(s) && r in s.loops && s.loops[r].pc.Ready? && s.loops[r].i < s.loops[r].config.k
    requires BudgetLeft(s, s.loops[r])
    requires a.driver in s.reg.index && a.driver !in s.loops[r].tried && a.readAt == s.now <= a.lockedAt
    requires a.timeoutMs == MinInt(s.loops[r].config.offerTimeoutMs, s.loops[r].deadline - s.now)
    ensures Core(s.(loops := s.loops[r := AfterTry(s.loops[r], a, locked)]))
  {
    var l, l' := s.loops[r], AfterTry(s.loops[r], a, locked);
    var s1 := s.(loops := s.loops[r := l']);
    assert LoopInv(s, r) && DriverOk(s.reg, a.driver);
    NoLease(s, r);
    assert TurnInv(l', s1.reg) by {
      assert forall x | x in l.offered :: x in l.tried;
    }
    assert LoopInv(s1, r);
    LoopStep(s, s1, r);
  }

  /** A driver the search finds is engaged with nobody. */
  lemma Indexed(s: State, d: Id)
    requires Core(s) && d in s.reg.index
    ensures DriverOk(s.reg, d) && s.reg.drivers[d].status == Available && s.reg.drivers[d].lock == None
    ensures !Engaged(s, d)
  {
    assert DriverOk(s.reg, d);
    Marketable(s, d);
  }

  lemma Marketable(s: State, d: Id)
    requires Core(s) && d in s.reg.drivers && s.reg.drivers[d].status == Available
    ensures !Engaged(s, d)
  {
    assert DriverInv(s, d);
    forall r | r in s.loops ensures !CommitsTo(s.loops[r], d) {
      assert LoopInv(s, r);
    }
  }

  lemma Clock(s: State, now: int)
    requires Core(s)
    ensures Core(s.(now := now))
  {
    var s' := s.(now := now);
    forall d | d in s'.reg.drivers ensures DriverInv(s', d) {
      assert DriverInv(s, d);
    }
    forall r | r in s'.loops ensures LoopInv(s', r) {
      assert LoopInv(s, r);
      assert s.loops[r].pc.Committed? ==> SoleCommit(s', r, s.loops[r].pc.attempt.driver);
    }
  }

  lemma PublishKeeps(s: State, r: Id)
    requires Inv(s) && r in s.loops && s.loops[r].pc.Locked?
    ensures Inv(Publish(s, r))
  {
    assert LoopInv(s, r);
    var s' := Publish(s, r);
    assert LoopInv(s', r) by {
      assert forall x | x in s.loops[r].offered :: x in s.loops[r].tried;
    }
    LoopStep(s, s', r);
  }

  lemma SettleKeeps(s: State, r: Id, outcome: Outcome)
    requires Inv(s) && r in s.loops && s.loops[r].pc.Waiting? && outcome != Withdrawn
    ensures Inv(Settle(s, r, outcome))
  {
    assert LoopInv(s, r);
    var s' := Settle(s, r, outcome);
    assert LoopInv(s', r);
    LoopStep(s, s', r);
  }

  lemma ReleaseKeeps(s: State, r: Id, d: Id)
    requires Core(s) && (r in s.loops && HoldsLease(s.loops[r].pc) ==> s.loops[r].pc.attempt.driver == d)
    ensures Core(Release(s, r, d)) && Unleased(Release(s, r, d).reg, r)
  {
    ReleaseLockOk(s.reg, d, r);
    var s' := Release(s, r, d);
    if d in s.reg.drivers {
      assert DriverInv(s, d);
      if Engaged(s, d) {
        EngagedOffMarket(s, d);
      }
      RegistryStep(s, s'.reg, d);
    }
    OneLease(s', r, d);
  }

  lemma EngagedOffMarket(s: State, d: Id)
    requires Core(s) && Engaged(s, d)
    ensures OffMarket(s.reg, d)
  {
    if d in s.m.activeDrivers {
      assert DriverInv(s, d);
    } else {
      var r :| r in s.loops && CommitsTo(s.loops[r], d);
      assert LoopInv(s, r);
    }
  }

  lemma NextTurnKeeps(s: State, r: Id)
    requires Core(s) && Unleased(s.reg, r) && r in s.loops
    requires s.loops[r].pc.Resumed? || s.loops[r].pc.Unwinding? || s.loops[r].pc.Committed?
    ensures Core(NextTurn(s, r))
  {
    assert LoopInv(s, r);
    var s' := NextTurn(s, r);
    assert LoopInv(s', r);
    LoopStep(s, s', r);
  }

  lemma ResumeKeeps(s: State, r: Id)
    requires Inv(s) && r in s.loops && s.loops[r].pc.Resumed?
    ensures Inv(Resume(s, r))
  {
    var l, d := s.loops[r], s.loops[r].pc.attempt.driver;
    assert LoopInv(s, r);
    if r in s.aborted || StatusOf(s.m, l.tripId) != Some(Matching) {
      ReleaseKeeps(s, r, d);
      EndLoopKeeps(Release(s, r, d), r);
    } else if l.pc.outcome == Accepted {
      CommitKeeps(s, r);
    } else {
      ReleaseKeeps(s, r, d);
      NextTurnKeeps(Release(s, r, d), r);
    }
  }

  lemma CommitKeeps(s: State, r: Id)
    requires Inv(s) && r in s.loops && s.loops[r].pc.Resumed? && s.loops[r].pc.outcome == Accepted
    ensures
      var (reg, committed) := CommitTrip(s.reg, s.loops[r].pc.attempt.driver, r, s.now);
      Inv(WithPc(s.(reg := reg), r, if committed then Committed(s.loops[r].pc.attempt)
        else Unwinding(s.loops[r].pc.attempt)))
  {
    var a := s.loops[r].pc.attempt;
    var (reg, committed) := CommitTrip(s.reg, a.driver, r, s.now);
    assert LoopInv(s, r);
    assert DriverInv(s, a.driver) && DriverOk(s.reg, a.driver);
    if committed {
      Marketable(s, a.driver);
    } else if Engaged(s, a.driver) {
      EngagedOffMarket(s, a.driver);
    }
    CommitTripOk(s.reg, a.driver, r, s.now);
    RegistryStep(s, reg, a.driver);
    var s1 := s.(reg := reg);
    OneLease(s1, r, a.driver);
    var s2 := WithPc(s1, r, if committed then Committed(a) else Unwinding(a));
    assert LoopInv(s2, r) by {
      assert LoopInv(s1, r);
      if committed {
        forall q | q in s2.loops && q != r ensures !CommitsTo(s2.loops[q], a.driver) {
          assert !CommitsTo(s.loops[q], a.driver);
        }
        assert SoleCommit(s2, r, a.driver);
      }
    }
    LoopStep(s1, s2, r);
  }

  lemma UnwindKeeps(s: State, r: Id)
    requires Inv(s) && r in s.loops && s.loops[r].pc.Unwinding?
    ensures Inv(Unwind(s, r))
  {
    ReleaseKeeps(s, r, s.loops[r].pc.attempt.driver);
    NextTurnKeeps(Release(s, r, s.loops[r].pc.attempt.driver), r);
  }

  /** Making a driver available again is safe when nobody holds it. */
  lemma FreeKeeps(s: State, d: Id)
    requires Core(s) && !Engaged(s, d)
    ensures Core(s.(reg := CompleteTrip(s.reg, d, s.now).0))
  {
    if d in s.reg.drivers {
      assert DriverInv(s, d);
      SetStatusOk(s.reg, d, Available, s.now);
      RegistryStep(s, CompleteTrip(s.reg, d, s.now).0, d);
    }
  }

  /** The assignment after a commit fails only if the trip is no longer matching or the driver's id is blank. */
  lemma AssignSucceeds(s: State, r: Id)
    requires Core(s) && r in s.loops && s.loops[r].pc.Committed?
    ensures
      var l := s.loops[r];
      Transition(s.m, l.tripId, Matched, System, None, Some(l.pc.attempt.driver), s.now).1.Success() ==
        (StatusOf(s.m, l.tripId) == Some(Matching) && !Blank(l.pc.attempt.driver))
    ensures
      var l := s.loops[r];
      var (m, res) := Transition(s.m, l.tripId, Matched, System, None, Some(l.pc.attempt.driver), s.now);
      if res.Success() then res.Moved? else m == s.m
  {
    assert LoopInv(s, r);
  }

  lemma AssignKeeps(s: State, r: Id)
    requires Inv(s) && r in s.loops && s.loops[r].pc.Committed?
    ensures Inv(Assign(s, r))
  {
    var l, d := s.loops[r], s.loops[r].pc.attempt.driver;
    AssignSucceeds(s, r);
    if Transition(s.m, l.tripId, Matched, System, None, Some(d), s.now).1.Success() {
      MatchKeeps(s, r);
    } else {
      RollbackKeeps(s, r);
    }
  }

  lemma MatchKeeps(s: State, r: Id)
    requires Inv(s) && r in s.loops && s.loops[r].pc.Committed?
    requires Transition(s.m, s.loops[r].tripId, Matched, System, None, Some(s.loops[r].pc.attempt.driver),
        s.now).1.Moved?
    ensures Inv(EndLoop(s.(m :=
        Transition(s.m, s.loops[r].tripId, Matched, System, None, Some(s.loops[r].pc.attempt.driver), s.now).0), r))
  {
    var l, d := s.loops[r], s.loops[r].pc.attempt.driver;
    var m := Transition(s.m, l.tripId, Matched, System, None, Some(d), s.now).0;
    assert LoopInv(s, r);
    NoLease(s, r);
    EndLoopKeeps(s, r);
    AssignedKeeps(EndLoop(s, r), l.tripId, d);
    NoneRequestedAfter(s.m, l.tripId, Matched, System, None, Some(d), s.now);
    assert EndLoop(s, r).(m := m) == EndLoop(s.(m := m), r);
  }

  lemma RollbackKeeps(s: State, r: Id)
    requires Inv(s) && r in s.loops && s.loops[r].pc.Committed?
    ensures Inv(NextTurn(s.(reg := CompleteTrip(s.reg, s.loops[r].pc.attempt.driver, s.now).0), r))
  {
    var d := s.loops[r].pc.attempt.driver;
    assert LoopInv(s, r);
    NoLease(s, r);
    NextTurnKeeps(s, r);
    FreeKeeps(NextTurn(s, r), d);
    NextTurnWith(s, r, CompleteTrip(s.reg, d, s.now).0);
  }

  lemma NextTurnWith(s: State, r: Id, reg: Registry)
    requires r in s.loops
    ensures NextTurn(s.(reg := reg), r) == NextTurn(s, r).(reg := reg)
  {
  }

  /** A trip takes a driver nobody else holds. */
  lemma AssignedKeeps(s: State, tripId: Id, d: Id)
    requires Core(s) && OffMarket(s.reg, d) && !Engaged(s, d)
    requires tripId in s.m.trips && s.m.trips[tripId].requestId !in s.loops
    requires Transition(s.m, tripId, Matched, System, None, Some(d), s.now).1.Moved?
    ensures Core(s.(m := Transition(s.m, tripId, Matched, System, None, Some(d), s.now).0))
  {
    var m' := Transition(s.m, tripId, Matched, System, None, Some(d), s.now).0;
    TransitionOk(s.m, tripId, Matched, System, None, Some(d), s.now);
    AssignedShape(s.m, tripId, d, s.now);
    assert TripOk(s.m, tripId);
    forall r | r in s.loops ensures LoopTripInv(m', r, s.loops[r].tripId, r in s.aborted) {
      assert LoopInv(s, r);
    }
    DriverTaken(s, m', d, tripId);
  }

  lemma AssignedShape(m: Machine, tripId: Id, d: Id, now: int)
    requires IndexesOk(m) && d !in m.activeDrivers
    requires Transition(m, tripId, Matched, System, None, Some(d), now).1.Moved?
    ensures
      var m' := Transition(m, tripId, Matched, System, None, Some(d), now).0;
      && tripId in m'.trips && m'.trips == m.trips[tripId := m'.trips[tripId]]
      && m'.requestToTrip == m.requestToTrip && m'.activeDrivers == m.activeDrivers[d := tripId]
  {
    MovedShape(m, tripId, Matched, System, None, Some(d), now);
    assert TripOk(m, tripId);
  }

  lemma DriverTaken(s: State, m: Machine, d: Id, tripId: Id)
    requires Core(s) && MachineOk(m) && OffMarket(s.reg, d) && !Engaged(s, d)
    requires m.activeDrivers == s.m.activeDrivers[d := tripId]
    requires forall r | r in s.loops :: LoopTripInv(m, r, s.loops[r].tripId, r in s.aborted)
    ensures Core(s.(m := m))
  {
    var s' := s.(m := m);
    forall e | e in s'.reg.drivers ensures DriverInv(s', e) {
      assert DriverInv(s, e);
    }
    forall r | r in s'.loops ensures LoopInv(s', r) {
      assert LoopInv(s, r);
      if s.loops[r].pc.Committed? {
        assert CommitsTo(s.loops[r], s.loops[r].pc.attempt.driver);
        assert SoleCommit(s', r, s.loops[r].pc.attempt.driver);
      }
    }
  }

  // ---- Riders' steps ----

  /** Starting a loop for a trip without one. */
  lemma StartLoopKeeps(s: State, r: Id, tripId: Id, pickup: Pos, reason: Option<string>, config: Config)
    requires Core(s) && (forall id | id in s.m.trips && id != tripId :: s.m.trips[id].status != Requested)
    requires tripId in s.m.trips && s.m.trips[tripId].requestId == r && r !in s.loops
    requires s.m.trips[tripId].status != Matching
    requires s.m.trips[tripId].status == Requested ==>
        Transition(s.m, tripId, Matching, System, reason, None, s.now).1.Success()
    ensures Inv(StartLoop(s, r, tripId, pickup, reason, config))
  {
    OnlyRequested(s.m, tripId, reason, s.now);
    var (m, res) := Transition(s.m, tripId, Matching, System, reason, None, s.now);
    if res.Moved? {
      MatchingAgain(s, tripId, reason);
      LoopAdded(s.(m := m), r, NewLoop(tripId, pickup, config, s.now));
    }
  }

  lemma OnlyRequested(m: Machine, tripId: Id, reason: Option<string>, now: int)
    requires IndexesOk(m) && (forall id | id in m.trips && id != tripId :: m.trips[id].status != Requested)
    requires tripId in m.trips && m.trips[tripId].status == Requested ==>
        Transition(m, tripId, Matching, System, reason, None, now).1.Success()
    ensures NoneRequested(Transition(m, tripId, Matching, System, reason, None, now).0)
  {
    if Transition(m, tripId, Matching, System, reason, None, now).1.Moved? {
      MovedShape(m, tripId, Matching, System, reason, None, now);
    }
  }

  lemma LoopAdded(s: State, r: Id, l: Loop)
    requires Core(s) && r !in s.loops && l.tripId in s.m.trips && s.m.trips[l.tripId].requestId == r
    requires s.m.trips[l.tripId].status == Matching && s.m.trips[l.tripId].driverId == None
    requires l.i == 0 && l.tried == {} && !l.hadCandidates && l.offered == [] && l.pc == Ready
    ensures Core(s.(aborted := s.aborted - {r}, loops := s.loops[r := l]))
  {
    NoLease(s, r);
    var s' := s.(aborted := s.aborted - {r}, loops := s.loops[r := l]);
    assert LoopInv(s', r);
    LoopStep(s, s', r);
  }

  lemma MatchingAgain(s: State, tripId: Id, reason: Option<string>)
    requires Core(s) && tripId in s.m.trips && s.m.trips[tripId].requestId !in s.loops
    requires Transition(s.m, tripId, Matching, System, reason, None, s.now).1.Moved?
    ensures
      var m := Transition(s.m, tripId, Matching, System, reason, None, s.now).0;
      && Core(s.(m := m)) && tripId in m.trips && m.trips == s.m.trips[tripId := m.trips[tripId]]
      && m.trips[tripId].requestId == s.m.trips[tripId].requestId && m.trips[tripId].status == Matching
      && m.trips[tripId].driverId == None
  {
    var m := Transition(s.m, tripId, Matching, System, reason, None, s.now).0;
    TransitionOk(s.m, tripId, Matching, System, reason, None, s.now);
    MovedShape(s.m, tripId, Matching, System, reason, None, s.now);
    ShrunkDrivers(s.m, m, tripId);
    forall q | q in s.loops ensures LoopTripInv(m, q, s.loops[q].tripId, q in s.aborted) {
      assert LoopInv(s, q);
    }
    MachineChange(s, m);
  }

  lemma RematchKeeps(s: State, tripId: Id, reason: Option<string>, config: Config)
    requires Inv(s)
    ensures Inv(Rematch(s, tripId, reason, config))
  {
    if tripId in s.m.trips && s.m.trips[tripId].status != Matching {
      var r := s.m.trips[tripId].requestId;
      if r in s.loops {
        LiveLoopsTrip(s, r, tripId);
        assert Rematch(s, tripId, reason, config) == s;
      } else {
        StartLoopKeeps(s, r, tripId, s.m.trips[tripId].pickup, reason, config);
      }
    }
  }

  /** A stored trip whose request still has a loop is that loop's, and matching or cancelled. */
  lemma LiveLoopsTrip(s: State, r: Id, tripId: Id)
    requires Core(s) && r in s.loops && tripId in s.m.trips && s.m.trips[tripId].requestId == r
    ensures s.loops[r].tripId == tripId && s.m.trips[tripId].driverId == None
    ensures s.m.trips[tripId].status == Matching || (s.m.trips[tripId].status == TripStatus.Cancelled && r in s.aborted)
  {
    assert LoopInv(s, r) && TripOk(s.m, tripId);
    if s.loops[r].tripId in s.m.trips {
      assert TripOk(s.m, s.loops[r].tripId);
    }
  }

  /** Creation added trip `t` and dropped only trips whose requests it forgot as well. */
  ghost predicate Creation(m: Machine, m': Machine, t: Trip) {
    && t.id in m'.trips && m'.trips[t.id] == t && t.requestId !in m.requestToTrip && m'.activeDrivers == m.activeDrivers
    && (forall id | id in m'.trips && id != t.id :: id in m.trips && m'.trips[id] == m.trips[id])
    && (forall id | id in m.trips && id !in m'.trips ::
      !Active(m.trips[id]) && m.trips[id].requestId !in m'.requestToTrip)
    && (forall q | q in m'.requestToTrip && q != t.requestId :: q in m.requestToTrip)
  }

  lemma CreatedTrips(m: Machine, r: Id, rider: Id, pickup: Pos, dropoff: Pos, newId: Id, now: int)
    requires MachineOk(m) && newId !in m.trips && CreateTrip(m, r, rider, pickup, dropoff, newId, now).1.Created?
    ensures Creation(m, CreateTrip(m, r, rider, pickup, dropoff, newId, now).0,
        NewTrip(newId, r, rider, pickup, dropoff, now))
  {
    MakeRoomIndexesOk(m);
    var m' := CreateTrip(m, r, rider, pickup, dropoff, newId, now).0;
    forall id | id in m.trips && id !in m'.trips
      ensures !Active(m.trips[id]) && m.trips[id].requestId !in m'.requestToTrip
    {
      assert TripOk(m, id);
      assert m.requestToTrip[m.trips[id].requestId] == id;
    }
  }

  lemma CreatedLoopTrip(m: Machine, m': Machine, t: Trip, q: Id, loopTrip: Id, aborted: bool)
    requires Creation(m, m', t) && IndexesOk(m) && LoopTripInv(m, q, loopTrip, aborted) && loopTrip != t.id
    requires q == t.requestId ==> q in m.requestToTrip
    ensures LoopTripInv(m', q, loopTrip, aborted)
  {
    if loopTrip in m.trips {
      assert TripOk(m, loopTrip);
    }
  }

  lemma CreateKeeps(s: State, m: Machine, t: Trip)
    requires Core(s) && Fresh(s, t.id) && (t.requestId in s.loops ==> t.requestId in s.m.requestToTrip)
    requires MachineOk(m) && Creation(s.m, m, t)
    ensures Core(s.(m := m))
  {
    forall q | q in s.loops ensures LoopTripInv(m, q, s.loops[q].tripId, q in s.aborted) {
      assert LoopInv(s, q);
      CreatedLoopTrip(s.m, m, t, q, s.loops[q].tripId, q in s.aborted);
    }
    MachineChange(s, m);
  }

  lemma RequestKeeps(s: State, r: Id, rider: Id, pickup: Pos, dropoff: Pos, config: Config, newId: Id)
    requires Inv(s) && Fresh(s, newId) && (r in s.loops ==> r in s.m.requestToTrip)
    ensures Inv(Request(s, r, rider, pickup, dropoff, config, newId))
  {
    var (m, res) := CreateTrip(s.m, r, rider, pickup, dropoff, newId, s.now);
    if res.Created? {
      CreateTripOk(s.m, r, rider, pickup, dropoff, newId, s.now);
      CreatedTrips(s.m, r, rider, pickup, dropoff, newId, s.now);
      CreateKeeps(s, m, NewTrip(newId, r, rider, pickup, dropoff, s.now));
      StartLoopKeeps(s.(m := m), r, newId, pickup, None, config);
      assert Request(s, r, rider, pickup, dropoff, config, newId) ==
        StartLoop(s.(m := m), r, newId, pickup, None, config);
    } else {
      assert m == s.m;
      assert Request(s, r, rider, pickup, dropoff, config, newId) == s;
    }
  }

  // ---- Ending a trip and freeing its driver ----

  /** Cancelling or completing a trip again, while somebody else holds the driver it once had. */
  ghost predicate FreesAgain(s: State, tripId: Id, to: TripStatus) {
    tripId in s.m.trips && s.m.trips[tripId].status == to && s.m.trips[tripId].driverId.Some?
      && Engaged(s, s.m.trips[tripId].driverId.value)
  }

  /** Ending a trip leaves its driver with nobody. */
  lemma EndedFreesDriver(s: State, tripId: Id, to: TripStatus, actor: Role, reason: Option<string>)
    requires Core(s) && Terminal(to) && tripId in s.m.trips && s.m.trips[tripId].driverId.Some?
    requires Transition(s.m, tripId, to, actor, reason, None, s.now).1.Success() && !FreesAgain(s, tripId, to)
    ensures !Engaged(s.(m := Transition(s.m, tripId, to, actor, reason, None, s.now).0),
        s.m.trips[tripId].driverId.value)
  {
    if Transition(s.m, tripId, to, actor, reason, None, s.now).1.Moved? {
      var d := s.m.trips[tripId].driverId.value;
      MovedShape(s.m, tripId, to, actor, reason, None, s.now);
      assert TripOk(s.m, tripId);
      forall r | r in s.loops ensures !CommitsTo(s.loops[r], d) {
        assert LoopInv(s, r);
      }
    }
  }

  lemma EndTripKeeps(s: State, tripId: Id, to: TripStatus, actor: Role, reason: Option<string>)
    requires Inv(s) && Terminal(to) && tripId in s.m.trips && !FreesAgain(s, tripId, to)
    requires to == TripStatus.Cancelled ==>
        s.m.trips[tripId].requestId !in s.loops || s.m.trips[tripId].requestId in s.aborted
    ensures Inv(EndTrip(s, tripId, to, actor, reason))
  {
    var (m, res) := Transition(s.m, tripId, to, actor, reason, None, s.now);
    MachineStep(s, tripId, to, actor, reason, None);
    NoneRequestedAfter(s.m, tripId, to, actor, reason, None, s.now);
    var d := s.m.trips[tripId].driverId;
    if res.Success() && d.Some? {
      EndedFreesDriver(s, tripId, to, actor, reason);
      FreeKeeps(s.(m := m), d.value);
    }
  }

  lemma FinishCancelKeeps(s: State, r: Id, actor: Role, reason: Option<string>)
    requires Inv(s) && r in s.aborted
    requires TripByRequest(s.m, r).Some? ==> !FreesAgain(s, TripByRequest(s.m, r).value, TripStatus.Cancelled)
    ensures Inv(FinishCancel(s, r, actor, reason))
  {
    if TripByRequest(s.m, r).Some? {
      assert RequestOk(s.m, r);
      EndTripKeeps(s, TripByRequest(s.m, r).value, TripStatus.Cancelled, actor, reason);
    }
  }

  lemma AbortKeeps(s: State, r: Id)
    requires Inv(s)
    ensures Inv(s.(aborted := s.aborted + {r}))
  {
    var s' := s.(aborted := s.aborted + {r});
    forall d | d in s'.reg.drivers ensures DriverInv(s', d) {
      assert DriverInv(s, d);
    }
    forall q | q in s'.loops ensures LoopInv(s', q) {
      assert LoopInv(s, q);
      assert s.loops[q].pc.Committed? ==> SoleCommit(s', q, s.loops[q].pc.attempt.driver);
    }
  }

  lemma RevokeKeeps(s: State, r: Id, actor: Role, reason: Option<string>)
    requires Inv(s) && r in s.loops && s.loops[r].pc.Waiting? && r in s.aborted
    ensures
      var a := s.loops[r].pc.attempt;
      Inv(WithPc(Release(s.(offers := s.offers - {r}), r, a.driver), r, Revoking(a, actor, reason)))
  {
    var a := s.loops[r].pc.attempt;
    ReleaseKeeps(s, r, a.driver);
    var s1 := Release(s, r, a.driver);
    var s2 := WithPc(s1.(offers := s.offers - {r}), r, Revoking(a, actor, reason));
    assert LoopInv(s1, r);
    assert LoopInv(s2, r);
    LoopStep(s1, s2, r);
  }

  lemma CancelStartKeeps(s: State, r: Id, actor: Role, reason: Option<string>)
    requires Inv(s)
    requires TripByRequest(s.m, r).Some? ==> !FreesAgain(s, TripByRequest(s.m, r).value, TripStatus.Cancelled)
    ensures Inv(CancelStart(s, r, actor, reason))
  {
    AbortKeeps(s, r);
    var s1 := s.(aborted := s.aborted + {r});
    if r in s.offers && r in s.loops && s.loops[r].pc.Waiting? {
      assert LoopInv(s, r);
      RevokeKeeps(s1, r, actor, reason);
    } else {
      FinishCancelKeeps(s1, r, actor, reason);
    }
  }

  lemma CancelFinishKeeps(s: State, r: Id)
    requires Inv(s) && r in s.loops && s.loops[r].pc.Revoking?
    ensures Inv(CancelFinish(s, r))
  {
    var pc := s.loops[r].pc;
    assert LoopInv(s, r);
    NoLease(s, r);
    var s1 := WithPc(s, r, Resumed(pc.attempt, Withdrawn));
    assert LoopInv(s1, r);
    LoopStep(s, s1, r);
    if TripByRequest(s1.m, r).Some? {
      assert RequestOk(s.m, r);
      LiveLoopsTrip(s, r, TripByRequest(s.m, r).value);
    }
    FinishCancelKeeps(s1, r, pc.actor, pc.why);
  }

  // ---- Drivers' steps ----

  lemma MilestoneKeeps(s: State, tripId: Id, d: Id, to: TripStatus)
    requires Inv(s)
    requires !(to == Completed && tripId in s.m.trips && s.m.trips[tripId].driverId == Some(d)
        && FreesAgain(s, tripId, to))
    ensures Inv(ReachMilestone(s, tripId, d, to))
  {
    if tripId in s.m.trips && s.m.trips[tripId].driverId == Some(d) {
      if to == Completed {
        EndTripKeeps(s, tripId, Completed, Driving, None);
      } else if to in {EnRoute, Arrived, InProgress} {
        MachineStep(s, tripId, to, Driving, None, None);
        NoneRequestedAfter(s.m, tripId, to, Driving, None, None, s.now);
      }
    }
  }

  lemma TelemetryKeeps(s: State, d: Id, pos: Pos)
    requires Inv(s) && NoneCommitted(s)
    ensures Inv(Telemetry(s, d, pos))
  {
    if ValidGeoPoint(pos) {
      if d !in s.reg.drivers {
        RegisterKeeps(s, d, pos, Available);
      } else {
        UpdateLocationOk(s.reg, d, pos, s.now);
        assert DriverInv(s, d);
        var reg := UpdateLocation(s.reg, d, pos, s.now).0;
        if Engaged(s, d) {
          EngagedOffMarket(s, d);
        }
        RegistryStep(s, reg, d);
        var s1 := s.(reg := reg);
        if d in s.m.activeDrivers {
          assert DriverOf(s.m, d);
        } else {
          FreeKeeps(s1, d);
        }
      }
    }
  }

  lemma RegisterKeeps(s: State, d: Id, pos: Pos, status: Status)
    requires Inv(s)
    ensures Inv(s.(reg := RegisterDriver(s.reg, d, pos, status, s.now)))
  {
    RegisterDriverOk(s.reg, d, pos, status, s.now);
    if d in s.reg.drivers {
      assert DriverInv(s, d);
    }
    if Engaged(s, d) {
      EngagedOffMarket(s, d);
    }
    RegistryStep(s, RegisterDriver(s.reg, d, pos, status, s.now), d);
  }

  lemma SocketCloseKeeps(s: State, d: Id)
    requires Inv(s)
    ensures Inv(SocketClose(s, d))
  {
    if d in s.reg.drivers && !OnTrip(s.m, d) {
      SetStatusOk(s.reg, d, Offline, s.now);
      if Engaged(s, d) {
        EngagedOffMarket(s, d);
      }
      RegistryStep(s, SetStatus(s.reg, d, Offline, s.now).0, d);
    }
  }

  lemma {:induction false} EvictKeeps(s: State, order: seq<Id>, timeoutMs: int)
    requires Inv(s)
    ensures Inv(s.(reg := EvictStale(s.reg, order, timeoutMs, s.now)))
    decreases |order|
  {
    if order != [] {
      var d := order[0];
      if d in s.reg.drivers && IsStale(s.reg.drivers[d], timeoutMs, s.now) {
        EvictOneOk(s.reg, d);
        if Engaged(s, d) {
          EngagedOffMarket(s, d);
        }
        RegistryStep(s, EvictOne(s.reg, d), d);
        EvictKeeps(s.(reg := EvictOne(s.reg, d)), order[1..], timeoutMs);
      } else {
        EvictKeeps(s, order[1..], timeoutMs);
      }
    }
  }

  // ---- Every step, every run ----

  lemma {:induction false} UntriedCandidate(candidates: seq<Candidate>, tried: set<Id>)
    ensures
      match FirstUntried(candidates, tried)
      case None => forall c | c in candidates :: c.id in tried
      case Some(c) => c in candidates && c.id !in tried
  {
    if candidates != [] {
      UntriedCandidate(candidates[1..], tried);
      assert forall c | c in candidates :: c == candidates[0] || c in candidates[1..];
    }
  }

  lemma TopKeeps(s: State, r: Id, candidates: seq<Candidate>, lockAt: int)
    requires Inv(s) && r in s.loops && s.loops[r].pc.Ready? && s.now <= lockAt
    requires Sound(s.reg.index, QueryOf(s, s.loops[r]), candidates)
    ensures Inv(Top(s, r, candidates, lockAt))
  {
    var l := s.loops[r];
    UntriedCandidate(candidates, l.tried);
    NoLease(s, r);
    if l.config.k <= l.i {
      GiveUpKeeps(s, r);
    } else if r in s.aborted {
      EndLoopKeeps(s, r);
    } else if !BudgetLeft(s, l) || FirstUntried(candidates, l.tried) == None {
      GiveUpKeeps(s, r);
    } else {
      TryDriverKeeps(s, r, FirstUntried(candidates, l.tried).value.id, lockAt);
    }
  }

  /** The one demand on callers: a trip is not cancelled or completed again while somebody else has its driver. */
  ghost predicate Careful(s: State, step: Step) {
    match step
    case CancelStartStep(r, _, _) => TripByRequest(s.m, r).Some? ==>
      !FreesAgain(s, TripByRequest(s.m, r).value, TripStatus.Cancelled)
    case MilestoneStep(tripId, d, to) => !(to == Completed && tripId in s.m.trips
      && s.m.trips[tripId].driverId == Some(d) && FreesAgain(s, tripId, to))
    case _ => true
  }

  lemma StepKeeps(s: State, step: Step)
    requires Inv(s) && Enabled(s, step) && Careful(s, step)
    ensures Inv(Apply(s, step))
  {
    match step
    case RequestStep(r, rider, pickup, dropoff, config, newId) =>
      RequestKeeps(s, r, rider, pickup, dropoff, config, newId);
    case TopStep(r, candidates, lockAt) => TopKeeps(s, r, candidates, lockAt);
    case PublishStep(r) => PublishKeeps(s, r);
    case RespondStep(r, driver, accept) => RespondKeeps(s, r, driver, accept);
    case TimerStep(r) => SettleKeeps(s, r, TimedOut);
    case ResumeStep(r) => ResumeKeeps(s, r);
    case UnwindStep(r) => UnwindKeeps(s, r);
    case AssignStep(r) => AssignKeeps(s, r);
    case CancelStartStep(r, actor, reason) => CancelStartKeeps(s, r, actor, reason);
    case CancelFinishStep(r) => CancelFinishKeeps(s, r);
    case RematchStep(tripId, reason, config) => RematchKeeps(s, tripId, reason, config);
    case MilestoneStep(tripId, driver, to) => MilestoneKeeps(s, tripId, driver, to);
    case TelemetryStep(driver, pos) => TelemetryKeeps(s, driver, pos);
    case SocketCloseStep(driver) => SocketCloseKeeps(s, driver);
    case RegisterStep(driver, pos, status) => RegisterKeeps(s, driver, pos, status);
    case EvictStep(order, timeoutMs) => EvictKeeps(s, order, timeoutMs);
    case TickStep(ms) => Clock(s, s.now + ms);
  }

  lemma RespondKeeps(s: State, r: Id, driver: Id, accept: bool)
    requires Inv(s)
    ensures Inv(Respond(s, r, driver, accept))
  {
    if r in s.loops && s.loops[r].pc.Waiting? {
      SettleKeeps(s, r, TimedOut);
      SettleKeeps(s, r, Accepted);
      SettleKeeps(s, r, Rejected);
    }
  }
}
