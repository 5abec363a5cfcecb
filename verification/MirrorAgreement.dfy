/** The registry and the C++ engine together: when the engine's tree is the registry's search index. */
module MirrorAgreement {
  import opened Geometry
  import opened Candidates
  import opened RegistryModel
  import opened RegistryRuns
  import opened BridgeModel

  // ---- What the engine will store ----

  function ExecuteAll(e: Engine, sent: seq<Sent>): Engine
    decreases |sent|
  {
    if sent == [] then e else Execute(ExecuteAll(e, sent[..|sent| - 1]), sent[|sent| - 1].command)
  }

  lemma ExecuteAppend(e: Engine, sent: seq<Sent>, s: Sent)
    ensures ExecuteAll(e, sent + [s]) == Execute(ExecuteAll(e, sent), s.command)
  {
    assert (sent + [s])[..|sent|] == sent;
  }

  lemma {:induction false} ExecuteFirst(e: Engine, sent: seq<Sent>)
    requires sent != []
    ensures ExecuteAll(e, sent) == ExecuteAll(Execute(e, sent[0].command), sent[1..])
    decreases |sent|
  {
    var front := sent[..|sent| - 1];
    if front == [] {
      assert ExecuteAll(e, front) == e && sent[1..] == [];
    } else {
      ExecuteFirst(e, front);
      assert sent[1..][..|sent| - 2] == front[1..];
    }
  }

  function ValidOnly(m: map<Id, Pos>): map<Id, Pos> {
    map id | id in m && IsValidId(id) :: m[id]
  }

  /** What the engine stores once it has read what was written: these drivers, as far as their ids can be sent. */
  ghost predicate InStep(b: Bridge, region: Box, m: map<Id, Pos>) {
    IsAvailable(b.client) && ExecuteAll(b.engine, b.client.toEngine) == Engine(region, ValidOnly(m))
  }

  // ---- Changes of the index ----

  lemma ValidPut(m: map<Id, Pos>, id: Id, pos: Pos)
    ensures ValidOnly(m[id := pos]) == if IsValidId(id) then ValidOnly(m)[id := pos] else ValidOnly(m)
  {
  }

  lemma ValidDrop(m: map<Id, Pos>, id: Id)
    ensures ValidOnly(m - {id}) == ValidOnly(m) - {id}
  {
  }

  function CommandFor(c: MirrorCommand): Command {
    match c
    case InsertCmd(id, pos) => Insert(id, pos)
    case UpdateCmd(id, pos) => Update(id, pos)
    case RemoveCmd(id) => Remove(id)
  }

  /** The engine does to its drivers what the command means for the index. */
  lemma CommandMirrors(region: Box, m: map<Id, Pos>, c: MirrorCommand)
    ensures IsValidId(c.id) ==>
              Execute(Engine(region, ValidOnly(m)), CommandFor(c)) == Engine(region, ValidOnly(Mirrored(region, m, c)))
    ensures !IsValidId(c.id) ==> ValidOnly(Mirrored(region, m, c)) == ValidOnly(m)
  {
    if c.RemoveCmd? {
      ValidDrop(m, c.id);
      assert c.id !in ValidOnly(m) ==> ValidOnly(m) - {c.id} == ValidOnly(m);
    } else {
      ValidPut(m, c.id, c.pos);
      assert c.id in ValidOnly(m) <==> c.id in m && IsValidId(c.id);
    }
  }

  lemma ForwardKeepsStep(b: Bridge, region: Box, m: map<Id, Pos>, c: MirrorCommand)
    requires InStep(b, region, m)
    ensures InStep(b.(client := Forward(b.client, c)), region, Mirrored(region, m, c))
  {
    CommandMirrors(region, m, c);
    var ticket := if c.UpdateCmd? then None else Some(b.client.next);
    ExecuteAppend(b.engine, b.client.toEngine, Sent(CommandFor(c), ticket));
  }

  function ForwardAll(c: Client, commands: seq<MirrorCommand>): Client
    decreases |commands|
  {
    if commands == [] then c else Forward(ForwardAll(c, commands[..|commands| - 1]), commands[|commands| - 1])
  }

  /** What the commands mean for an index, one after the other. */
  function MirroredAll(region: Box, m: map<Id, Pos>, commands: seq<MirrorCommand>): map<Id, Pos>
    decreases |commands|
  {
    if commands == [] then m
    else Mirrored(region, MirroredAll(region, m, commands[..|commands| - 1]), commands[|commands| - 1])
  }

  lemma {:induction false} ReplayGoesOn(region: Box, sent: seq<MirrorCommand>, commands: seq<MirrorCommand>)
    ensures MirrorOf(region, sent + commands) == MirroredAll(region, MirrorOf(region, sent), commands)
    decreases |commands|
  {
    if commands == [] {
      assert sent + commands == sent;
    } else {
      var front, last := commands[..|commands| - 1], commands[|commands| - 1];
      ReplayGoesOn(region, sent, front);
      MirrorAppend(region, sent + front, last);
      assert sent + commands == (sent + front) + [last];
    }
  }

  lemma {:induction false} ForwardAllKeeps(b: Bridge, region: Box, m: map<Id, Pos>, commands: seq<MirrorCommand>)
    requires Inv(b) && InStep(b, region, m)
    ensures Inv(b.(client := ForwardAll(b.client, commands)))
    ensures InStep(b.(client := ForwardAll(b.client, commands)), region, MirroredAll(region, m, commands))
    decreases |commands|
  {
    if commands != [] {
      var front, last := commands[..|commands| - 1], commands[|commands| - 1];
      ForwardAllKeeps(b, region, m, front);
      ForwardOne(b.(client := ForwardAll(b.client, front)), region, MirroredAll(region, m, front), last);
    }
  }

  lemma ForwardOne(b: Bridge, region: Box, m: map<Id, Pos>, c: MirrorCommand)
    requires Inv(b) && InStep(b, region, m)
    ensures Inv(b.(client := Forward(b.client, c)))
    ensures InStep(b.(client := Forward(b.client, c)), region, Mirrored(region, m, c))
  {
    ForwardKeeps(b, c);
    ForwardKeepsStep(b, region, m, c);
  }

  // ---- Batches of positions ----

  /** The last position inside the region that a list gives for a driver. */
  function LastInRegion(region: Box, updates: seq<(Id, Pos)>, id: Id): Option<Pos>
    decreases |updates|
  {
    if updates == [] then None
    else
      var last := updates[|updates| - 1];
      if last.0 == id && InBox(region, last.1) then Some(last.1) else LastInRegion(region, updates[..|updates| - 1], id)
  }

  lemma {:induction false} BatchKeepsKeys(e: Engine, updates: seq<(Id, Pos)>)
    ensures UpdateAll(e, updates).region == e.region && UpdateAll(e, updates).drivers.Keys == e.drivers.Keys
    decreases |updates|
  {
    if updates != [] {
      BatchKeepsKeys(e, updates[..|updates| - 1]);
    }
  }

  lemma {:induction false} BatchMoves(e: Engine, updates: seq<(Id, Pos)>, id: Id)
    requires id in e.drivers
    ensures id in UpdateAll(e, updates).drivers
    ensures UpdateAll(e, updates).drivers[id] ==
              match LastInRegion(e.region, updates, id) case None => e.drivers[id] case Some(pos) => pos
    decreases |updates|
  {
    if updates != [] {
      BatchKeepsKeys(e, updates[..|updates| - 1]);
      BatchMoves(e, updates[..|updates| - 1], id);
    }
  }

  lemma {:induction false} ValidKeepsLast(region: Box, updates: seq<(Id, Pos)>, id: Id)
    requires IsValidId(id)
    ensures LastInRegion(region, ValidUpdates(updates), id) == LastInRegion(region, updates, id)
    decreases |updates|
  {
    if updates != [] {
      var front, last := updates[..|updates| - 1], updates[|updates| - 1];
      ValidKeepsLast(region, front, id);
      if IsValidId(last.0) {
        assert ValidUpdates(updates)[..|ValidUpdates(front)|] == ValidUpdates(front);
      } else {
        assert ValidUpdates(updates) == ValidUpdates(front);
      }
    }
  }

  /** For every searchable driver with a valid id the batch ends where the index has it, or says nothing. */
  predicate BatchAgrees(region: Box, m: map<Id, Pos>, updates: seq<(Id, Pos)>) {
    forall id | id in m && IsValidId(id) :: EndsAt(region, updates, id, m[id])
  }

  predicate EndsAt(region: Box, updates: seq<(Id, Pos)>, id: Id, pos: Pos) {
    match LastInRegion(region, updates, id)
    case None => true
    case Some(last) => last == pos
  }

  lemma AgreedBatchMovesNothing(region: Box, m: map<Id, Pos>, updates: seq<(Id, Pos)>)
    requires BatchAgrees(region, m, updates)
    ensures UpdateAll(Engine(region, ValidOnly(m)), ValidUpdates(updates)) == Engine(region, ValidOnly(m))
  {
    var e := Engine(region, ValidOnly(m));
    var e' := UpdateAll(e, ValidUpdates(updates));
    BatchKeepsKeys(e, ValidUpdates(updates));
    forall id | id in e.drivers ensures e'.drivers[id] == e.drivers[id] {
      BatchPutsAt(region, m, updates, id);
    }
    SameEntries(e'.drivers, e.drivers);
  }

  lemma OtherBatchMovesSomebody(region: Box, m: map<Id, Pos>, updates: seq<(Id, Pos)>)
    requires !BatchAgrees(region, m, updates)
    ensures UpdateAll(Engine(region, ValidOnly(m)), ValidUpdates(updates)) != Engine(region, ValidOnly(m))
  {
    var id :| id in m && IsValidId(id) && !EndsAt(region, updates, id, m[id]);
    BatchPutsAt(region, m, updates, id);
    var e' := UpdateAll(Engine(region, ValidOnly(m)), ValidUpdates(updates));
    assert e'.drivers[id] != ValidOnly(m)[id];
  }

  lemma SameEntries(a: map<Id, Pos>, b: map<Id, Pos>)
    requires a.Keys == b.Keys && forall id | id in b :: a[id] == b[id]
    ensures a == b
  {
  }

  lemma BatchPutsAt(region: Box, m: map<Id, Pos>, updates: seq<(Id, Pos)>, id: Id)
    requires id in m && IsValidId(id)
    ensures
      var e' := UpdateAll(Engine(region, ValidOnly(m)), ValidUpdates(updates));
      id in e'.drivers
        && e'.drivers[id] == match LastInRegion(region, updates, id) case None => m[id] case Some(pos) => pos
  {
    assert id in ValidOnly(m);
    BatchMoves(Engine(region, ValidOnly(m)), ValidUpdates(updates), id);
    ValidKeepsLast(region, updates, id);
  }

  /** A batch, which changes no index, keeps the engine in step if and only if it agrees with the index. */
  lemma BatchKeepsStepIff(b: Bridge, region: Box, m: map<Id, Pos>, updates: seq<(Id, Pos)>)
    requires InStep(b, region, m)
    ensures InStep(b.(client := SendBatch(b.client, updates)), region, m) <==> BatchAgrees(region, m, updates)
  {
    if BatchAgrees(region, m, updates) {
      AgreedBatchMovesNothing(region, m, updates);
    } else {
      OtherBatchMovesSomebody(region, m, updates);
    }
    var valid := ValidUpdates(updates);
    if valid != [] {
      ExecuteAppend(b.engine, b.client.toEngine, Sent(BatchUpdate(valid), None));
    }
  }

  lemma {:induction false} LastIsListed(region: Box, updates: seq<(Id, Pos)>, id: Id)
    ensures LastInRegion(region, updates, id).Some? ==>
              (id, LastInRegion(region, updates, id).value) in updates
                && InBox(region, LastInRegion(region, updates, id).value)
    decreases |updates|
  {
    if updates != [] {
      LastIsListed(region, updates[..|updates| - 1], id);
    }
  }

  /** A batch of positions the registry has already recorded, out-of-region ones aside, agrees with its index. */
  lemma RecordedBatchAgrees(r: Registry, updates: seq<(Id, Pos)>)
    requires RegistryOk(r)
    requires forall u | u in updates && u.0 in r.drivers && InBox(r.region, u.1) :: r.drivers[u.0].pos == u.1
    ensures BatchAgrees(r.region, r.index, updates)
  {
    forall id | id in r.index && IsValidId(id)
      ensures EndsAt(r.region, updates, id, r.index[id])
    {
      assert DriverOk(r, id);
      LastIsListed(r.region, updates, id);
    }
  }

  // ---- The start ----

  /** Each driver of a list is inserted, as any change of the index would be. */
  function Seeded(c: Client, seeds: seq<(Id, Pos)>): Client
    decreases |seeds|
  {
    if seeds == [] then c
    else Forward(Seeded(c, seeds[..|seeds| - 1]), InsertCmd(seeds[|seeds| - 1].0, seeds[|seeds| - 1].1))
  }

  /** What the server does when the engine has answered: a fresh region, then its simulated drivers. */
  function Started(b: Bridge, region: Box, seeds: seq<(Id, Pos)>): Bridge {
    b.(client := Seeded(Send(b.client, Init(region)), seeds))
  }

  lemma {:induction false} SeededStores(b: Bridge, region: Box, seeds: seq<(Id, Pos)>, id: Id)
    requires IsAvailable(b.client)
    ensures
      var b' := Started(b, region, seeds);
      var e := ExecuteAll(b.engine, b'.client.toEngine);
      && IsAvailable(b'.client) && e.region == region
      && (id in e.drivers <==> IsValidId(id) && LastInRegion(region, seeds, id).Some?)
      && (id in e.drivers ==> e.drivers[id] == LastInRegion(region, seeds, id).value)
    decreases |seeds|
  {
    if seeds == [] {
      ExecuteAppend(b.engine, b.client.toEngine, Sent(Init(region), Some(b.client.next)));
    } else {
      var front, last := seeds[..|seeds| - 1], seeds[|seeds| - 1];
      SeededStores(b, region, front, id);
      var c := Started(b, region, front).client;
      ExecuteAppend(b.engine, c.toEngine, Sent(Insert(last.0, last.1), Some(c.next)));
    }
  }

  /** The list inserts exactly the searchable drivers with valid ids, where the index has them. */
  ghost predicate SeedsMatch(region: Box, m: map<Id, Pos>, seeds: seq<(Id, Pos)>) {
    forall id | IsValidId(id) :: LastInRegion(region, seeds, id) == if id in m then Some(m[id]) else None
  }

  /** The start brings the engine in step if and only if the list matches the index. */
  lemma StartInStepIff(b: Bridge, region: Box, seeds: seq<(Id, Pos)>, m: map<Id, Pos>)
    requires IsAvailable(b.client)
    ensures InStep(Started(b, region, seeds), region, m) <==> SeedsMatch(region, m, seeds)
  {
    var e := ExecuteAll(b.engine, Started(b, region, seeds).client.toEngine);
    SeededStores(b, region, seeds, Id(""));
    forall id ensures Stored(e.drivers, id) == if IsValidId(id) then LastInRegion(region, seeds, id) else None {
      SeededStores(b, region, seeds, id);
    }
    SeedsMatchIff(region, m, seeds, e.drivers);
  }

  function Stored(drivers: map<Id, Pos>, id: Id): Option<Pos> {
    if id in drivers then Some(drivers[id]) else None
  }

  lemma SeedsMatchIff(region: Box, m: map<Id, Pos>, seeds: seq<(Id, Pos)>, drivers: map<Id, Pos>)
    requires forall id :: Stored(drivers, id) == if IsValidId(id) then LastInRegion(region, seeds, id) else None
    ensures drivers == ValidOnly(m) <==> SeedsMatch(region, m, seeds)
  {
    if SeedsMatch(region, m, seeds) {
      forall id ensures Stored(drivers, id) == Stored(ValidOnly(m), id) {
      }
      assert forall id :: id in drivers <==> Stored(drivers, id).Some?;
      assert forall id :: id in ValidOnly(m) <==> Stored(ValidOnly(m), id).Some?;
    }
    if drivers == ValidOnly(m) {
      forall id | IsValidId(id) ensures LastInRegion(region, seeds, id) == if id in m then Some(m[id]) else None {
        assert Stored(drivers, id) == Stored(ValidOnly(m), id);
      }
    }
  }

  lemma {:induction false} StartKeepsPromises(b: Bridge, region: Box, seeds: seq<(Id, Pos)>)
    requires Inv(b)
    ensures Inv(Started(b, region, seeds))
    decreases |seeds|
  {
    if seeds == [] {
      SendKeeps(b, Init(region));
    } else {
      StartKeepsPromises(b, region, seeds[..|seeds| - 1]);
      ForwardKeeps(Started(b, region, seeds[..|seeds| - 1]), InsertCmd(seeds[|seeds| - 1].0, seeds[|seeds| - 1].1));
    }
  }

  // ---- Registry and bridge together ----

  datatype Joint = Joint(registry: Registry, bridge: Bridge)

  datatype Event =
    | OpEvent(op: Op, now: int)                 // the registry does something and tells the bridge
    | BatchEvent(updates: seq<(Id, Pos)>)       // a tick's positions are sent
    | AskEvent(command: Command)                // a question: PING or KNN
    | WireEvent(step: Step)                     // the engine reads a line, or a reply arrives

  ghost predicate EventEnabled(j: Joint, e: Event) {
    match e
    case AskEvent(command) => command.Ping? || command.Knn?
    case WireEvent(step) => (step.EngineStep? || step.LineStep? || step.ReadyStep?) && Enabled(j.bridge, step)
    case _ => true
  }

  ghost function ApplyEvent(j: Joint, e: Event): Joint
    requires EventEnabled(j, e)
  {
    match e
    case OpEvent(op, now) =>
      var r := ApplyOp(j.registry, op, now);
      var told := if |j.registry.sent| <= |r.sent| then r.sent[|j.registry.sent|..] else [];
      Joint(r, j.bridge.(client := ForwardAll(j.bridge.client, told)))
    case BatchEvent(updates) => j.(bridge := j.bridge.(client := SendBatch(j.bridge.client, updates)))
    case AskEvent(command) => j.(bridge := j.bridge.(client := Send(j.bridge.client, command)))
    case WireEvent(step) => j.(bridge := Apply(j.bridge, step))
  }

  /** The engine is in step with the index, and the promises are in order. */
  ghost predicate Agreed(j: Joint) {
    RegistryOk(j.registry) && Inv(j.bridge) && InStep(j.bridge, j.registry.region, j.registry.index)
  }

  predicate Agreeable(j: Joint, e: Event) {
    e.BatchEvent? ==> BatchAgrees(j.registry.region, j.registry.index, e.updates)
  }

  lemma OpAgrees(j: Joint, op: Op, now: int)
    requires Agreed(j)
    ensures Agreed(ApplyEvent(j, OpEvent(op, now)))
  {
    var r, r' := j.registry, ApplyOp(j.registry, op, now);
    OpKeeps(r, op, now);
    var told := r'.sent[|r.sent|..];
    assert r.sent + told == r'.sent;
    ReplayGoesOn(r.region, r.sent, told);
    ForwardAllKeeps(j.bridge, r.region, r.index, told);
  }

  lemma AskKeepsStep(b: Bridge, region: Box, m: map<Id, Pos>, command: Command)
    requires Inv(b) && InStep(b, region, m) && (command.Ping? || command.Knn?)
    ensures Inv(b.(client := Send(b.client, command))) && InStep(b.(client := Send(b.client, command)), region, m)
  {
    SendKeeps(b, command);
    ExecuteAppend(b.engine, b.client.toEngine, Sent(command, Some(b.client.next)));
  }

  lemma WireKeepsStep(b: Bridge, region: Box, m: map<Id, Pos>, step: Step)
    requires Inv(b) && InStep(b, region, m) && Enabled(b, step)
    requires (step.EngineStep? || step.LineStep? || step.ReadyStep?)
    ensures Inv(Apply(b, step)) && InStep(Apply(b, step), region, m)
  {
    StepKeeps(b, step);
    if step.EngineStep? {
      ExecuteFirst(b.engine, b.client.toEngine);
    }
  }

  /** Of all that registry, bridge and engine do, only a batch that disagrees with the index parts them. */
  lemma EventAgreesIff(j: Joint, e: Event)
    requires Agreed(j) && EventEnabled(j, e)
    ensures Agreed(ApplyEvent(j, e)) <==> Agreeable(j, e)
  {
    match e
    case OpEvent(op, now) => OpAgrees(j, op, now);
    case BatchEvent(updates) =>
      SendBatchKeeps(j.bridge, updates);
      BatchKeepsStepIff(j.bridge, j.registry.region, j.registry.index, updates);
    case AskEvent(command) => AskKeepsStep(j.bridge, j.registry.region, j.registry.index, command);
    case WireEvent(step) => WireKeepsStep(j.bridge, j.registry.region, j.registry.index, step);
  }

  /** A run: any registry and any bridge whose engine has answered, the start, then events. */
  ghost predicate IsRun(r: Registry, b: Bridge, seeds: seq<(Id, Pos)>, states: seq<Joint>, events: seq<Event>) {
    && RegistryOk(r) && Inv(b) && IsAvailable(b.client)
    && |states| == |events| + 1 && states[0] == Joint(r, Started(b, r.region, seeds))
    && forall i {:trigger events[i]} | 0 <= i < |events| ::
         EventEnabled(states[i], events[i]) && states[i + 1] == ApplyEvent(states[i], events[i])
  }

  ghost predicate AllAgreeable(states: seq<Joint>, events: seq<Event>, n: nat) {
    n <= |events| && n <= |states| && forall i {:trigger Agreeable(states[i], events[i])} | 0 <= i < n ::
      Agreeable(states[i], events[i])
  }

  /** In every run, whatever its length: if the inserted list matched the index at the start and every batch agreed
      with it when it was sent, then in every state the engine stores, once its pipe drains, exactly the
      searchable drivers whose ids can be sent. */
  lemma {:induction false} EngineMirrorsIndex(
    r: Registry, b: Bridge, seeds: seq<(Id, Pos)>, states: seq<Joint>, events: seq<Event>, i: nat)
    requires IsRun(r, b, seeds, states, events) && i < |states|
    requires SeedsMatch(r.region, r.index, seeds) && AllAgreeable(states, events, i)
    ensures Agreed(states[i])
    ensures states[i].bridge.client.toEngine == [] ==>
              states[i].bridge.engine == Engine(states[i].registry.region, ValidOnly(states[i].registry.index))
  {
    if i == 0 {
      StartKeepsPromises(b, r.region, seeds);
      StartInStepIff(b, r.region, seeds, r.index);
    } else {
      EngineMirrorsIndex(r, b, seeds, states, events, i - 1);
      assert Agreeable(states[i - 1], events[i - 1]);
      assert EventEnabled(states[i - 1], events[i - 1]) && states[i] == ApplyEvent(states[i - 1], events[i - 1]);
      EventAgreesIff(states[i - 1], events[i - 1]);
    }
  }

  /** And no earlier: while everything agrees, the first batch that does not is where they part. */
  lemma FirstDisagreement(r: Registry, b: Bridge, seeds: seq<(Id, Pos)>, states: seq<Joint>, events: seq<Event>, i: nat)
    requires IsRun(r, b, seeds, states, events) && i < |events|
    requires SeedsMatch(r.region, r.index, seeds) && AllAgreeable(states, events, i)
    ensures Agreed(states[i + 1]) <==> Agreeable(states[i], events[i])
  {
    EngineMirrorsIndex(r, b, seeds, states, events, i);
    assert EventEnabled(states[i], events[i]) && states[i + 1] == ApplyEvent(states[i], events[i]);
    EventAgreesIff(states[i], events[i]);
  }
}
