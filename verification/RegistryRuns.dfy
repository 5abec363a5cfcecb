/** The registry as drivers see it: one row of a table each, and what every operation does to the rows. */
module RegistryRuns {
  import opened Geometry
  import opened RegistryModel

  // ---- What the registry does ----

  datatype Op =
    | Register(id: Id, pos: Pos, status: Status)
    | Locate(id: Id, pos: Pos)
    | SetTo(id: Id, status: Status)
    | Acquire(id: Id, requestId: Id, ttlMs: int)
    | Release(id: Id, requestId: Id)
    | Commit(id: Id, requestId: Id)
    | Complete(id: Id)
    | Evict(order: seq<Id>, timeoutMs: int)

  function ApplyOp(r: Registry, op: Op, now: int): Registry {
    match op
    case Register(id, pos, status) => RegisterDriver(r, id, pos, status, now)
    case Locate(id, pos) => UpdateLocation(r, id, pos, now).0
    case SetTo(id, status) => SetStatus(r, id, status, now).0
    case Acquire(id, requestId, ttlMs) => AcquireLock(r, id, requestId, ttlMs, now).0
    case Release(id, requestId) => ReleaseLock(r, id, requestId).0
    case Commit(id, requestId) => CommitTrip(r, id, requestId, now).0
    case Complete(id) => CompleteTrip(r, id, now).0
    case Evict(order, timeoutMs) => EvictStale(r, order, timeoutMs, now)
  }

  /** What the caller is told. */
  function Told(r: Registry, op: Op, now: int): bool {
    match op
    case Locate(id, pos) => UpdateLocation(r, id, pos, now).1
    case SetTo(id, status) => SetStatus(r, id, status, now).1
    case Acquire(id, requestId, ttlMs) => AcquireLock(r, id, requestId, ttlMs, now).1
    case Release(id, requestId) => ReleaseLock(r, id, requestId).1
    case Commit(id, requestId) => CommitTrip(r, id, requestId, now).1
    case Complete(id) => CompleteTrip(r, id, now).1
    case _ => true
  }

  /** Every operation keeps the registry's invariant and only adds to what the mirror was told. */
  lemma OpKeeps(r: Registry, op: Op, now: int)
    requires RegistryOk(r)
    ensures RegistryOk(ApplyOp(r, op, now)) && ApplyOp(r, op, now).region == r.region
    ensures r.sent <= ApplyOp(r, op, now).sent
  {
    match op
    case Register(id, pos, status) => RegisterDriverOk(r, id, pos, status, now);
    case Locate(id, pos) => UpdateLocationOk(r, id, pos, now);
    case SetTo(id, status) => SetStatusOk(r, id, status, now);
    case Acquire(id, requestId, ttlMs) => AcquireLockOk(r, id, requestId, ttlMs, now);
    case Release(id, requestId) => ReleaseLockOk(r, id, requestId);
    case Commit(id, requestId) => CommitTripOk(r, id, requestId, now);
    case Complete(id) => SetStatusOk(r, id, Available, now);
    case Evict(order, timeoutMs) =>
      EvictStaleOk(r, order, timeoutMs, now);
      EvictionTells(r, order, timeoutMs, now);
  }

  lemma {:induction false} EvictionTells(r: Registry, order: seq<Id>, timeoutMs: int, now: int)
    ensures r.sent <= EvictStale(r, order, timeoutMs, now).sent
    decreases |order|
  {
    if order != [] {
      var stale := order[0] in r.drivers && IsStale(r.drivers[order[0]], timeoutMs, now);
      EvictionTells(if stale then EvictOne(r, order[0]) else r, order[1..], timeoutMs, now);
    }
  }

  // ---- One row for each driver ----

  /** Not there, with a rider, found by searches, or reserved for a request until some time. */
  datatype Standing = Away | OnDuty | Free | Leased(requestId: Id, until: int)

  datatype Row = Row(standing: Standing, pos: Pos, heard: int)

  /** What can be seen of a driver from outside; `Free` is read off the search index. */
  function RowOf(r: Registry, id: Id): Option<Row> {
    if id !in r.drivers then None
    else
      var d := r.drivers[id];
      Some(Row(
        if id in r.index then Free
        else if d.lock.Some? then Leased(d.lock.value.requestId, d.lock.value.expiresAt)
        else if d.status == Busy then OnDuty else Away,
        d.pos, d.lastSeen))
  }

  function Reopened(s: Standing, now: int): Standing {
    if s.Leased? && s.until <= now then Free else s
  }

  /** A driver asks, or is asked, to take riders. */
  function Opened(region: Box, row: Row): Standing {
    if row.standing.Leased? then row.standing else if InBox(region, row.pos) then Free else Away
  }

  /** The life of a driver: what an operation does to its row. */
  function RowStep(region: Box, row: Option<Row>, op: Op, id: Id, now: int): Option<Row> {
    if op.Evict? then
      if row.Some? && id in op.order && row.value.standing != Away && op.timeoutMs < now - row.value.heard then
        Some(row.value.(standing := Away))
      else row
    else if op.id != id then row
    else if row == None then
      if op.Register? then
        Some(Row(if op.status == Busy then OnDuty else if op.status == Available && InBox(region, op.pos) then Free
          else Away, op.pos, now))
      else None
    else
      var was := row.value;
      Some(match op
        case Register(_, _, _) => was.(heard := now)
        case Locate(_, pos) =>
          if -90.0 <= pos.lat <= 90.0 && -180.0 <= pos.lng <= 180.0 && InBox(region, pos) then
            Row(Reopened(was.standing, now), pos, now)
          else was
        case SetTo(_, Busy) => was.(standing := OnDuty, heard := now)
        case SetTo(_, Offline) => was.(standing := Away, heard := now)
        case SetTo(_, Available) => was.(standing := Opened(region, was), heard := now)
        case Complete(_) => was.(standing := Opened(region, was), heard := now)
        case Acquire(_, requestId, ttlMs) =>
          if Reopened(was.standing, now) == Free then was.(standing := Leased(requestId, now + ttlMs)) else was
        case Release(_, requestId) =>
          if was.standing.Leased? && was.standing.requestId == requestId then was.(standing := Free) else was
        case Commit(_, requestId) =>
          if was.standing.Leased? && was.standing.requestId == requestId then
            was.(standing := if now < was.standing.until then OnDuty else Free)
          else was
        case Evict(_, _) => was)
  }

  /** When an operation on a driver succeeds. */
  function Granted(region: Box, row: Option<Row>, op: Op, now: int): bool {
    if op.Register? || op.Evict? then true
    else if row == None then false
    else
      var was := row.value;
      match op
      case Locate(_, pos) => -90.0 <= pos.lat <= 90.0 && -180.0 <= pos.lng <= 180.0 && InBox(region, pos)
      case SetTo(_, status) => status != Available || Opened(region, was) != Away
      case Complete(_) => Opened(region, was) != Away
      case Acquire(_, _, _) => Reopened(was.standing, now) == Free
      case Release(_, requestId) => !was.standing.Leased? || was.standing.requestId == requestId
      case Commit(_, requestId) =>
        was.standing.Leased? && was.standing.requestId == requestId && now < was.standing.until
      case _ => true
  }

  /** Another driver's row stays as it is. */
  lemma OthersRow(r: Registry, r': Registry, id: Id, other: Id)
    requires OnlyTouches(r, r', id) && r'.drivers.Keys <= r.drivers.Keys + {id} && other != id
    ensures RowOf(r', other) == RowOf(r, other)
  {
    assert other in r'.drivers <==> other in r'.drivers - {id};
    assert other in r.drivers <==> other in r.drivers - {id};
    if other in r.drivers {
      assert r'.drivers[other] == (r'.drivers - {id})[other] == (r.drivers - {id})[other];
    }
    assert other in r'.index <==> other in r'.index - {id};
    assert other in r.index <==> other in r.index - {id};
  }

  predicate Consistent(r: Registry, id: Id) {
    if id in r.drivers then DriverOk(r, id) else id !in r.index
  }

  predicate RowFollows(r: Registry, op: Op, now: int)
    requires !op.Evict?
  {
    && RowOf(ApplyOp(r, op, now), op.id) == RowStep(r.region, RowOf(r, op.id), op, op.id, now)
    && Told(r, op, now) == Granted(r.region, RowOf(r, op.id), op, now)
  }

  lemma ReportRow(r: Registry, op: Op, now: int)
    requires (op.Register? || op.Locate?) && Consistent(r, op.id)
    ensures RowFollows(r, op, now)
  {
  }

  lemma StatusRow(r: Registry, op: Op, now: int)
    requires (op.SetTo? || op.Complete?) && Consistent(r, op.id)
    ensures RowFollows(r, op, now)
  {
  }

  lemma LeaseRow(r: Registry, op: Op, now: int)
    requires (op.Acquire? || op.Release? || op.Commit?) && Consistent(r, op.id)
    ensures RowFollows(r, op, now)
  {
  }

  lemma OwnRow(r: Registry, op: Op, now: int)
    requires RegistryOk(r) && !op.Evict?
    ensures RowFollows(r, op, now)
  {
    assert op.id in r.drivers ==> DriverOk(r, op.id);
    match op
    case Register(_, _, _) => ReportRow(r, op, now);
    case Locate(_, _) => ReportRow(r, op, now);
    case SetTo(_, _) => StatusRow(r, op, now);
    case Complete(_) => StatusRow(r, op, now);
    case _ => LeaseRow(r, op, now);
  }

  lemma OpTouches(r: Registry, op: Op, now: int)
    requires RegistryOk(r) && !op.Evict?
    ensures OnlyTouches(r, ApplyOp(r, op, now), op.id)
    ensures ApplyOp(r, op, now).drivers.Keys <= r.drivers.Keys + {op.id}
  {
    match op
    case Register(id, pos, status) => RegisterDriverOk(r, id, pos, status, now);
    case Locate(id, pos) => UpdateLocationOk(r, id, pos, now);
    case SetTo(id, status) => SetStatusOk(r, id, status, now);
    case Acquire(id, requestId, ttlMs) => AcquireLockOk(r, id, requestId, ttlMs, now);
    case Release(id, requestId) => ReleaseLockOk(r, id, requestId);
    case Commit(id, requestId) => CommitTripOk(r, id, requestId, now);
    case Complete(id) => SetStatusOk(r, id, Available, now);
  }

  lemma EvictedRow(r: Registry, order: seq<Id>, timeoutMs: int, now: int, id: Id)
    requires RegistryOk(r)
    ensures RowOf(EvictStale(r, order, timeoutMs, now), id) ==
              RowStep(r.region, RowOf(r, id), Evict(order, timeoutMs), id, now)
  {
    if id in r.drivers {
      EvictStaleExact(r, order, timeoutMs, now, id);
      assert DriverOk(r, id);
    }
  }

  /** Every operation does to every driver what the table says, and tells its caller so. */
  lemma OpRefines(r: Registry, op: Op, now: int, id: Id)
    requires RegistryOk(r)
    ensures RowOf(ApplyOp(r, op, now), id) == RowStep(r.region, RowOf(r, id), op, id, now)
    ensures !op.Evict? ==> Told(r, op, now) == Granted(r.region, RowOf(r, op.id), op, now)
  {
    if op.Evict? {
      EvictedRow(r, op.order, op.timeoutMs, now, id);
    } else {
      OwnRow(r, op, now);
      if op.id != id {
        OpTouches(r, op, now);
        OthersRow(r, ApplyOp(r, op, now), op.id, id);
      }
    }
  }

  /** A new value of the registry in which every row is what the table says. */
  ghost predicate Follows(r: Registry, r': Registry, op: Op, now: int) {
    && RegistryOk(r') && r'.region == r.region
    && forall id :: RowOf(r', id) == RowStep(r.region, RowOf(r, id), op, id, now)
  }

  ghost predicate Conforms(r: Registry, r': Registry, op: Op, now: int) {
    RegistryOk(r) ==> Follows(r, r', op, now)
  }

  lemma OpConforms(r: Registry, op: Op, now: int)
    ensures Conforms(r, ApplyOp(r, op, now), op, now)
  {
    if RegistryOk(r) {
      OpKeeps(r, op, now);
      forall id ensures RowOf(ApplyOp(r, op, now), id) == RowStep(r.region, RowOf(r, id), op, id, now) {
        OpRefines(r, op, now, id);
      }
    }
  }

  // ---- Whole runs ----

  datatype Call = Call(op: Op, now: int)

  function RunAll(r: Registry, calls: seq<Call>): Registry
    decreases |calls|
  {
    if calls == [] then r
    else ApplyOp(RunAll(r, calls[..|calls| - 1]), calls[|calls| - 1].op, calls[|calls| - 1].now)
  }

  function RowAfter(region: Box, row: Option<Row>, calls: seq<Call>, id: Id): Option<Row>
    decreases |calls|
  {
    if calls == [] then row
    else
      var last := calls[|calls| - 1];
      RowStep(region, RowAfter(region, row, calls[..|calls| - 1], id), last.op, id, last.now)
  }

  /** However many operations interleave, each driver's row is what its own table makes of them. */
  lemma {:induction false} RunRefines(r: Registry, calls: seq<Call>, id: Id)
    requires RegistryOk(r)
    ensures RegistryOk(RunAll(r, calls)) && RunAll(r, calls).region == r.region
    ensures RowOf(RunAll(r, calls), id) == RowAfter(r.region, RowOf(r, id), calls, id)
    decreases |calls|
  {
    if calls != [] {
      var front, last := calls[..|calls| - 1], calls[|calls| - 1];
      RunRefines(r, front, id);
      OpKeeps(RunAll(r, front), last.op, last.now);
      OpRefines(RunAll(r, front), last.op, last.now, id);
    }
  }

  /** The position a driver last gave that the registry could accept: at its registration, or inside the region. */
  function LastReport(region: Box, calls: seq<Call>, id: Id): Option<Pos>
    decreases |calls|
  {
    if calls == [] then None
    else
      var before, op := LastReport(region, calls[..|calls| - 1], id), calls[|calls| - 1].op;
      if op.Register? && op.id == id && before == None then Some(op.pos)
      else if op.Locate? && op.id == id && before.Some? && InBox(region, op.pos)
        && -90.0 <= op.pos.lat <= 90.0 && -180.0 <= op.pos.lng <= 180.0 then Some(op.pos)
      else before
  }

  lemma {:induction false} RowIsLastReport(region: Box, calls: seq<Call>, id: Id)
    ensures
      match RowAfter(region, None, calls, id)
      case None => LastReport(region, calls, id) == None
      case Some(row) => LastReport(region, calls, id) == Some(row.pos)
    decreases |calls|
  {
    if calls != [] {
      RowIsLastReport(region, calls[..|calls| - 1], id);
    }
  }

  /** Searches never see an old position: in every state of every run from the empty registry, an indexed driver
      is where its last accepted report says. */
  lemma SearchSeesLastReport(region: Box, calls: seq<Call>, id: Id)
    ensures
      var r := RunAll(Registry(region, map[], map[], []), calls);
      && (id in r.drivers <==> LastReport(region, calls, id).Some?)
      && (id in r.drivers ==> Some(r.drivers[id].pos) == LastReport(region, calls, id))
      && (id in r.index ==> Some(r.index[id]) == LastReport(region, calls, id))
  {
    var empty := Registry(region, map[], map[], []);
    RunRefines(empty, calls, id);
    RowIsLastReport(region, calls, id);
    if id in RunAll(empty, calls).drivers {
      assert DriverOk(RunAll(empty, calls), id);
    }
  }
}
