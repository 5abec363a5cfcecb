/** The trip store's startup repair, over maps and a set that stand for the keys it reads and writes. */
module TripStore {
  import opened Geometry
  import opened RegistryModel
  import opened TripModel

  const ABANDONED := "Abandoned due to server restart or timeout"

  predicate IsDead(t: Trip, maxAgeMs: int, now: int) {
    Terminal(t.status) || maxAgeMs < now - t.createdAt
  }

  /** What becomes of a trip that is cleaned up. */
  function Abandon(t: Trip, now: int): Trip {
    if Terminal(t.status) then t
    else t.(status := TripStatus.Cancelled, reason := Some(ABANDONED), cancelledAt := Some(now))
  }

  datatype Store = Store(trips: map<Id, Trip>, riders: map<Id, Id>, active: set<Id>)

  predicate IsLive(s: Store, id: Id, maxAgeMs: int, now: int) {
    id in s.trips && !IsDead(s.trips[id], maxAgeMs, now)
  }

  /** A rider key that points at a live trip of the active set. */
  predicate GoodKey(s: Store, rider: Id, maxAgeMs: int, now: int) {
    rider in s.riders && s.riders[rider] in s.active && IsLive(s, s.riders[rider], maxAgeMs, now)
  }

  /** Some trip that is cleaned up names this rider. */
  predicate LosesKey(s: Store, rider: Id, maxAgeMs: int, now: int) {
    exists id :: id in s.active && id in s.trips && IsDead(s.trips[id], maxAgeMs, now) && s.trips[id].riderId == rider
  }

  /** The repaired store. */
  function Repaired(s: Store, maxAgeMs: int, now: int): Store {
    Store(
      map id | id in s.trips ::
        if id in s.active && IsDead(s.trips[id], maxAgeMs, now) then Abandon(s.trips[id], now) else s.trips[id],
      map rider | rider in s.riders && GoodKey(s, rider, maxAgeMs, now) && !LosesKey(s, rider, maxAgeMs, now) ::
        s.riders[rider],
      set id | id in s.active && IsLive(s, id, maxAgeMs, now))
  }

  /** How many repairs are reported. */
  function BadKeys(s: Store, keys: seq<Id>, maxAgeMs: int, now: int): nat {
    if keys == [] then 0
    else BadKeys(s, keys[..|keys| - 1], maxAgeMs, now) + if GoodKey(s, keys[|keys| - 1], maxAgeMs, now) then 0 else 1
  }

  function DeadIds(s: Store, ids: seq<Id>, maxAgeMs: int, now: int): nat {
    if ids == [] then 0
    else DeadIds(s, ids[..|ids| - 1], maxAgeMs, now) + if IsLive(s, ids[|ids| - 1], maxAgeMs, now) then 0 else 1
  }

  // ---- Half-way through ----

  /** A store in which some of the dead active trips are abandoned and no other trip is changed. */
  ghost predicate PartlyAbandoned(s: Store, s': Store, maxAgeMs: int, now: int) {
    && s'.trips.Keys == s.trips.Keys && s'.active <= s.active
    && (forall id {:trigger s'.trips[id]} | id in s.trips :: s'.trips[id] == s.trips[id] ||
          (id in s.active && IsDead(s.trips[id], maxAgeMs, now) && s'.trips[id] == Abandon(s.trips[id], now)))
    && (forall id {:trigger id in s'.active} | id in s.active && IsLive(s, id, maxAgeMs, now) :: id in s'.active)
  }

  /** Among these trips nothing is left to do. */
  ghost predicate Swept(s: Store, s': Store, ids: seq<Id>, maxAgeMs: int, now: int) {
    forall id {:trigger id in ids} | id in ids ::
      && (id in s.trips && IsDead(s.trips[id], maxAgeMs, now) ==>
        id in s'.trips && s'.trips[id] == Abandon(s.trips[id], now))
      && (!IsLive(s, id, maxAgeMs, now) ==> id !in s'.active)
  }

  /** The rider keys left after the first loop has seen `keys`. */
  ghost predicate KeysChecked(s: Store, s': Store, keys: seq<Id>, maxAgeMs: int, now: int) {
    forall rider {:trigger rider in s'.riders} ::
      && (rider in s'.riders <==> rider in s.riders && (rider in keys ==> GoodKey(s, rider, maxAgeMs, now)))
      && (rider in s'.riders ==> s'.riders[rider] == s.riders[rider])
  }

  predicate SweptAway(s: Store, rider: Id, ids: seq<Id>, maxAgeMs: int, now: int) {
    exists id :: id in ids && id in s.trips && IsDead(s.trips[id], maxAgeMs, now) && s.trips[id].riderId == rider
  }

  /** The rider keys left after the second loop has seen `ids`. */
  ghost predicate KeysSwept(s: Store, s': Store, ids: seq<Id>, maxAgeMs: int, now: int) {
    forall rider {:trigger rider in s'.riders} ::
      && (rider in s'.riders <==> (GoodKey(s, rider, maxAgeMs, now) && !SweptAway(s, rider, ids, maxAgeMs, now)))
      && (rider in s'.riders ==> s'.riders[rider] == s.riders[rider])
  }

  class RedisTripStore {
    var trips: map<Id, Trip>
    var riderActive: map<Id, Id>
    var active: set<Id>

    function View(): Store
      reads this
    {
      Store(trips, riderActive, active)
    }

    constructor (trips: map<Id, Trip>, riderActive: map<Id, Id>, active: set<Id>)
      ensures View() == Store(trips, riderActive, active)
    {
      this.trips, this.riderActive, this.active := trips, riderActive, active;
    }

    /** Cancels a dead trip that has not ended, and takes it from the active set. */
    method CleanUp(tripId: Id, now: int)
      requires tripId in trips
      modifies this`trips, this`active
      ensures trips == old(trips)[tripId := Abandon(old(trips)[tripId], now)] && active == old(active) - {tripId}
    {
      var trip := trips[tripId];
      if !Terminal(trip.status) {
        trips := trips[tripId :=
          trip.(status := TripStatus.Cancelled, reason := Some(ABANDONED), cancelledAt := Some(now))];
      }
      active := active - {tripId};
    }

    method CheckKey(ghost s: Store, ghost seen: seq<Id>, riderKey: Id, activeTripIds: seq<Id>, maxAgeMs: int,
      now: int) returns (cleaned: nat)
      requires forall id :: id in activeTripIds <==> id in s.active
      requires PartlyAbandoned(s, View(), maxAgeMs, now) && KeysChecked(s, View(), seen, maxAgeMs, now)
      modifies this
      ensures PartlyAbandoned(s, View(), maxAgeMs, now) && KeysChecked(s, View(), seen + [riderKey], maxAgeMs, now)
      ensures cleaned == if GoodKey(s, riderKey, maxAgeMs, now) then 0 else 1
    {
      cleaned := 0;
      if riderKey !in riderActive || riderActive[riderKey] !in activeTripIds {
        riderActive := riderActive - {riderKey};
        cleaned := 1;
      } else {
        var tripId := riderActive[riderKey];
        if tripId !in trips {
          riderActive := riderActive - {riderKey};
          active := active - {tripId};
          cleaned := 1;
        } else if IsDead(trips[tripId], maxAgeMs, now) {
          CleanUp(tripId, now);
          riderActive := riderActive - {riderKey};
          cleaned := 1;
        }
      }
    }

    method CheckTrip(ghost s: Store, ghost seen: seq<Id>, tripId: Id, maxAgeMs: int, now: int) returns (cleaned: nat)
      requires tripId in s.active && PartlyAbandoned(s, View(), maxAgeMs, now)
      requires Swept(s, View(), seen, maxAgeMs, now) && KeysSwept(s, View(), seen, maxAgeMs, now)
      modifies this
      ensures PartlyAbandoned(s, View(), maxAgeMs, now)
      ensures Swept(s, View(), seen + [tripId], maxAgeMs, now) && KeysSwept(s, View(), seen + [tripId], maxAgeMs, now)
      ensures cleaned == if IsLive(s, tripId, maxAgeMs, now) then 0 else 1
    {
      cleaned := 0;
      if tripId !in trips {
        active := active - {tripId};
        cleaned := 1;
      } else if IsDead(trips[tripId], maxAgeMs, now) {
        var rider := trips[tripId].riderId;
        CleanUp(tripId, now);
        riderActive := riderActive - {rider};
        cleaned := 1;
      }
    }

    /** Repairs the store. The members of the active set are read once, before the rider keys are
        scanned; a scan returns every key at least once, in any order. */
    method ReconcileOrphanedTrips(activeTripIds: seq<Id>, riderKeys: seq<Id>, maxAgeMs: int, now: int)
      returns (cleaned: nat)
      requires forall id :: id in activeTripIds <==> id in active
      requires forall rider | rider in riderActive :: rider in riderKeys
      modifies this
      ensures View() == Repaired(old(View()), maxAgeMs, now)
      ensures cleaned ==
          BadKeys(old(View()), riderKeys, maxAgeMs, now) + DeadIds(old(View()), activeTripIds, maxAgeMs, now)
    {
      ghost var s := View();
      cleaned := 0;
      for i := 0 to |riderKeys|
        invariant PartlyAbandoned(s, View(), maxAgeMs, now) && KeysChecked(s, View(), riderKeys[..i], maxAgeMs, now)
        invariant cleaned == BadKeys(s, riderKeys[..i], maxAgeMs, now)
      {
        assert riderKeys[..i + 1] == riderKeys[..i] + [riderKeys[i]];
        var one := CheckKey(s, riderKeys[..i], riderKeys[i], activeTripIds, maxAgeMs, now);
        cleaned := cleaned + one;
      }
      assert riderKeys[..|riderKeys|] == riderKeys;
      StartSweep(s, View(), riderKeys, maxAgeMs, now);
      cleaned := Sweep(s, activeTripIds, maxAgeMs, now, cleaned);
      SweptIsRepaired(s, View(), activeTripIds, maxAgeMs, now);
    }

    method Sweep(ghost s: Store, activeTripIds: seq<Id>, maxAgeMs: int, now: int, before: nat) returns (cleaned: nat)
      requires (forall id :: id in activeTripIds <==> id in s.active) && PartlyAbandoned(s, View(), maxAgeMs, now)
      requires KeysSwept(s, View(), [], maxAgeMs, now)
      modifies this
      ensures PartlyAbandoned(s, View(), maxAgeMs, now)
      ensures Swept(s, View(), activeTripIds, maxAgeMs, now) && KeysSwept(s, View(), activeTripIds, maxAgeMs, now)
      ensures cleaned == before + DeadIds(s, activeTripIds, maxAgeMs, now)
    {
      cleaned := before;
      for i := 0 to |activeTripIds|
        invariant PartlyAbandoned(s, View(), maxAgeMs, now)
        invariant Swept(s, View(), activeTripIds[..i], maxAgeMs, now)
        invariant KeysSwept(s, View(), activeTripIds[..i], maxAgeMs, now)
        invariant cleaned == before + DeadIds(s, activeTripIds[..i], maxAgeMs, now)
      {
        assert activeTripIds[..i + 1] == activeTripIds[..i] + [activeTripIds[i]];
        var one := CheckTrip(s, activeTripIds[..i], activeTripIds[i], maxAgeMs, now);
        cleaned := cleaned + one;
      }
      assert activeTripIds[..|activeTripIds|] == activeTripIds;
    }

    /** Stores a trip; one that has ended leaves the active set and frees its rider. */
    method SaveTrip(trip: Trip)
      modifies this
      ensures View() == Saved(old(View()), trip)
    {
      trips := trips[trip.id := trip];
      if Terminal(trip.status) {
        active := active - {trip.id};
        riderActive := riderActive - {trip.riderId};
      } else {
        active := active + {trip.id};
      }
    }
  }

  function Saved(s: Store, trip: Trip): Store {
    if Terminal(trip.status) then Store(s.trips[trip.id := trip], s.riders - {trip.riderId}, s.active - {trip.id})
    else Store(s.trips[trip.id := trip], s.riders, s.active + {trip.id})
  }

  lemma StartSweep(s: Store, s': Store, keys: seq<Id>, maxAgeMs: int, now: int)
    requires KeysChecked(s, s', keys, maxAgeMs, now) && forall rider | rider in s.riders :: rider in keys
    ensures KeysSwept(s, s', [], maxAgeMs, now)
  {
  }

  lemma SweptIsRepaired(s: Store, s': Store, ids: seq<Id>, maxAgeMs: int, now: int)
    requires PartlyAbandoned(s, s', maxAgeMs, now) && (forall id :: id in ids <==> id in s.active)
    requires Swept(s, s', ids, maxAgeMs, now) && KeysSwept(s, s', ids, maxAgeMs, now)
    ensures s' == Repaired(s, maxAgeMs, now)
  {
    var r := Repaired(s, maxAgeMs, now);
    forall id | id in s.trips ensures s'.trips[id] == r.trips[id] {
    }
    assert s'.active == r.active;
    forall rider ensures rider in s'.riders <==> rider in r.riders {
    }
    assert s'.riders == r.riders;
  }

  // ---- What is stored afterwards ----

  predicate HasEnded(t: Trip) { t.status == Completed || t.status == TripStatus.Cancelled }

  /** A repair keeps exactly the active trips that are stored, under way and no older than allowed; the others of them
      that are under way become cancelled with the reason that says so, and no other trip changes. */
  lemma RepairOfTrips(s: Store, maxAgeMs: int, now: int, id: Id)
    ensures
      var r := Repaired(s, maxAgeMs, now);
      && (id in r.active <==>
            id in s.active && id in s.trips && !HasEnded(s.trips[id]) && now - s.trips[id].createdAt <= maxAgeMs)
      && (id in r.trips <==> id in s.trips)
      && (id in s.trips ==>
            r.trips[id] ==
              if id in s.active && !HasEnded(s.trips[id]) && maxAgeMs < now - s.trips[id].createdAt then
                s.trips[id].(status := TripStatus.Cancelled, cancelledAt := Some(now),
                             reason := Some("Abandoned due to server restart or timeout"))
              else s.trips[id])
  {
  }

  /** A rider's key is kept exactly if it points at a trip that stays active and no active trip of the rider has ended
      or is too old. */
  lemma RepairOfKeys(s: Store, maxAgeMs: int, now: int, rider: Id)
    ensures
      var r := Repaired(s, maxAgeMs, now);
      && (rider in r.riders <==> rider in s.riders && s.riders[rider] in r.active && forall id |
            id in s.active && id in s.trips && s.trips[id].riderId == rider :: id in r.active)
      && (rider in r.riders ==> r.riders[rider] == s.riders[rider])
  {
    forall id ensures id in Repaired(s, maxAgeMs, now).active <==>
        id in s.active && id in s.trips && !HasEnded(s.trips[id]) && now - s.trips[id].createdAt <= maxAgeMs
    {
      RepairOfTrips(s, maxAgeMs, now, id);
    }
  }

  /** Saving stores the trip as it is; it is active exactly while it is under way, an ended trip takes its rider's key
      along, and nothing else changes. */
  lemma SavedExact(s: Store, trip: Trip, id: Id, rider: Id)
    ensures
      var s' := Saved(s, trip);
      && s'.trips == s.trips[trip.id := trip]
      && (id in s'.active <==> if id == trip.id then !HasEnded(trip) else id in s.active)
      && (rider in s'.riders <==> rider in s.riders && !(HasEnded(trip) && rider == trip.riderId))
      && (rider in s'.riders ==> s'.riders[rider] == s.riders[rider])
  {
  }

  lemma {:induction false} BadKeysCount(s: Store, keys: seq<Id>, maxAgeMs: int, now: int)
    requires forall i, j | 0 <= i < j < |keys| :: keys[i] != keys[j]
    ensures BadKeys(s, keys, maxAgeMs, now) == |set rider | rider in keys && !GoodKey(s, rider, maxAgeMs, now)|
  {
    if keys != [] {
      var front, last := keys[..|keys| - 1], keys[|keys| - 1];
      BadKeysCount(s, front, maxAgeMs, now);
      assert keys == front + [last];
      var all := set rider | rider in keys && !GoodKey(s, rider, maxAgeMs, now);
      var before := set rider | rider in front && !GoodKey(s, rider, maxAgeMs, now);
      assert all == before + if GoodKey(s, last, maxAgeMs, now) then {} else {last};
    }
  }

  lemma {:induction false} DeadIdsCount(s: Store, ids: seq<Id>, maxAgeMs: int, now: int)
    requires forall i, j | 0 <= i < j < |ids| :: ids[i] != ids[j]
    ensures DeadIds(s, ids, maxAgeMs, now) == |set id | id in ids && !IsLive(s, id, maxAgeMs, now)|
  {
    if ids != [] {
      var front, last := ids[..|ids| - 1], ids[|ids| - 1];
      DeadIdsCount(s, front, maxAgeMs, now);
      assert ids == front + [last];
      var all := set id | id in ids && !IsLive(s, id, maxAgeMs, now);
      var before := set id | id in front && !IsLive(s, id, maxAgeMs, now);
      assert all == before + if IsLive(s, last, maxAgeMs, now) then {} else {last};
    }
  }

  /** A scan without repetitions counts the keys that do not point at an active trip that stays. */
  lemma BadKeysRemoved(s: Store, riderKeys: seq<Id>, maxAgeMs: int, now: int)
    requires forall i, j | 0 <= i < j < |riderKeys| :: riderKeys[i] != riderKeys[j]
    requires forall rider :: rider in riderKeys <==> rider in s.riders
    ensures BadKeys(s, riderKeys, maxAgeMs, now) ==
              |set rider | rider in s.riders && s.riders[rider] !in Repaired(s, maxAgeMs, now).active|
  {
    BadKeysCount(s, riderKeys, maxAgeMs, now);
    var bad := set rider | rider in riderKeys && !GoodKey(s, rider, maxAgeMs, now);
    var gone := set rider | rider in s.riders && s.riders[rider] !in Repaired(s, maxAgeMs, now).active;
    forall rider ensures rider in bad <==> rider in gone {
      if rider in s.riders {
        RepairOfTrips(s, maxAgeMs, now, s.riders[rider]);
      }
    }
    assert bad == gone;
  }

  /** And how many entries leave the active set. */
  lemma DeadIdsRemoved(s: Store, activeTripIds: seq<Id>, maxAgeMs: int, now: int)
    requires forall i, j | 0 <= i < j < |activeTripIds| :: activeTripIds[i] != activeTripIds[j]
    requires forall id :: id in activeTripIds <==> id in s.active
    ensures DeadIds(s, activeTripIds, maxAgeMs, now) == |s.active - Repaired(s, maxAgeMs, now).active|
  {
    DeadIdsCount(s, activeTripIds, maxAgeMs, now);
    var dead := set id | id in activeTripIds && !IsLive(s, id, maxAgeMs, now);
    forall id ensures id in dead <==> id in s.active - Repaired(s, maxAgeMs, now).active {
      RepairOfTrips(s, maxAgeMs, now, id);
    }
    assert dead == s.active - Repaired(s, maxAgeMs, now).active;
  }

  // ---- What the repair achieves ----

  /** From any contents: only stored, unfinished, recent trips are active, and rider keys point at such trips only. */
  ghost predicate Sound(s: Store, maxAgeMs: int, now: int) {
    && (forall id | id in s.active :: IsLive(s, id, maxAgeMs, now))
    && (forall rider | rider in s.riders :: GoodKey(s, rider, maxAgeMs, now))
  }

  lemma RepairedIsSound(s: Store, maxAgeMs: int, now: int)
    ensures Sound(Repaired(s, maxAgeMs, now), maxAgeMs, now)
  {
  }

  /** A store is sound exactly when a repair changes nothing in it. */
  lemma SoundIffUnchanged(s: Store, maxAgeMs: int, now: int)
    ensures Repaired(s, maxAgeMs, now) == s <==> Sound(s, maxAgeMs, now)
  {
    if Sound(s, maxAgeMs, now) {
      assert forall id | id in s.active :: IsLive(s, id, maxAgeMs, now);
      assert Repaired(s, maxAgeMs, now).trips == s.trips;
      assert Repaired(s, maxAgeMs, now).riders == s.riders;
    } else {
      RepairedIsSound(s, maxAgeMs, now);
    }
  }

  lemma {:induction false} NothingBad(s: Store, keys: seq<Id>, maxAgeMs: int, now: int)
    ensures BadKeys(s, keys, maxAgeMs, now) == 0 <==> forall rider | rider in keys :: GoodKey(s, rider, maxAgeMs, now)
  {
    if keys != [] {
      NothingBad(s, keys[..|keys| - 1], maxAgeMs, now);
      assert keys == keys[..|keys| - 1] + [keys[|keys| - 1]];
    }
  }

  lemma {:induction false} NothingDead(s: Store, ids: seq<Id>, maxAgeMs: int, now: int)
    ensures DeadIds(s, ids, maxAgeMs, now) == 0 <==> forall id | id in ids :: IsLive(s, id, maxAgeMs, now)
  {
    if ids != [] {
      NothingDead(s, ids[..|ids| - 1], maxAgeMs, now);
      assert ids == ids[..|ids| - 1] + [ids[|ids| - 1]];
    }
  }

  /** A repair reports zero exactly when the store was sound; so a second one at the same time reports zero. */
  lemma ReportsZeroIffSound(s: Store, activeTripIds: seq<Id>, riderKeys: seq<Id>, maxAgeMs: int, now: int)
    requires forall id :: id in activeTripIds <==> id in s.active
    requires forall rider :: rider in riderKeys <==> rider in s.riders
    ensures BadKeys(s, riderKeys, maxAgeMs, now) + DeadIds(s, activeTripIds, maxAgeMs, now) == 0 <==>
        Sound(s, maxAgeMs, now)
  {
    NothingBad(s, riderKeys, maxAgeMs, now);
    NothingDead(s, activeTripIds, maxAgeMs, now);
  }

  lemma SecondRepairIsIdle(s: Store, activeTripIds: seq<Id>, riderKeys: seq<Id>, maxAgeMs: int, now: int)
    requires var r := Repaired(s, maxAgeMs, now);
             (forall id :: id in activeTripIds <==> id in r.active)
               && (forall rider :: rider in riderKeys <==> rider in r.riders)
    ensures
      var r := Repaired(s, maxAgeMs, now);
      Repaired(r, maxAgeMs, now) == r
        && BadKeys(r, riderKeys, maxAgeMs, now) + DeadIds(r, activeTripIds, maxAgeMs, now) == 0
  {
    var r := Repaired(s, maxAgeMs, now);
    RepairedIsSound(s, maxAgeMs, now);
    SoundIffUnchanged(r, maxAgeMs, now);
    ReportsZeroIffSound(r, activeTripIds, riderKeys, maxAgeMs, now);
  }

  /** A live trip in the active set survives, but its rider's key does exactly when no other trip of the
      rider is cleaned up. */
  lemma LiveTripKeepsItsKeyIff(s: Store, id: Id, maxAgeMs: int, now: int)
    requires id in s.active && IsLive(s, id, maxAgeMs, now)
    requires s.trips[id].riderId in s.riders && s.riders[s.trips[id].riderId] == id
    ensures
      var r, rider := Repaired(s, maxAgeMs, now), s.trips[id].riderId;
      && id in r.active && r.trips[id] == s.trips[id]
      && (rider in r.riders <==> !LosesKey(s, rider, maxAgeMs, now))
  {
  }

  /** Saving a live or ended trip keeps a sound store sound, unless the trip has ended and somebody else's
      rider key still points at it. */
  lemma SaveKeepsSound(s: Store, trip: Trip, maxAgeMs: int, now: int)
    requires Sound(s, maxAgeMs, now) && (Terminal(trip.status) || !IsDead(trip, maxAgeMs, now))
    ensures Sound(Saved(s, trip), maxAgeMs, now) <==>
              (Terminal(trip.status) ==>
                forall rider | rider in s.riders && s.riders[rider] == trip.id :: rider == trip.riderId)
  {
    var s' := Saved(s, trip);
    forall rider | rider in s'.riders
      ensures GoodKey(s', rider, maxAgeMs, now) <==> !(Terminal(trip.status) && s.riders[rider] == trip.id)
    {
      assert GoodKey(s, rider, maxAgeMs, now);
    }
    forall id | id in s'.active ensures IsLive(s', id, maxAgeMs, now) {
      assert id != trip.id ==> IsLive(s, id, maxAgeMs, now);
    }
  }
}
